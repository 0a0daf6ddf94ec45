/** The renderer's line batch and its view-mode cache (TL2/Renderer.cpp).
    The batch is a mesh under construction: a vertex array, a colour array
    and an index array that grow two entries per line and are drawn in one
    call. Device calls the renderer makes are recorded in a log; the upload
    of the batch to the GPU is a parameter of `EndLineBatch`. */
module Renderer {
  import opened Bounds
  import opened Enums

  /** `MAX_LINES` in TL2/Renderer.h: the capacity of the GPU line buffer. */
  const MAX_LINES: nat := 200000

  /** A device call made on behalf of `SetViewModeType`. */
  datatype DeviceCall = RSSetState(Mode: EViewModeIndex) | UpdateColorConstantBuffers(Color: Vec4)

  /** Pairs of entries, one pair per line: `a[0], b[0], a[1], b[1], ...`. */
  function Interleave<T>(a: seq<T>, b: seq<T>): (r: seq<T>)
    requires |a| == |b|
    ensures |r| == 2 * |a|
  {
    if |a| == 0 then [] else Interleave(a[..|a| - 1], b[..|a| - 1]) + [a[|a| - 1], b[|a| - 1]]
  }

  /** The `n` consecutive indices starting at `lo`. */
  function IndexRun(lo: nat, n: nat): (r: seq<nat>)
    ensures |r| == n
  {
    if n == 0 then [] else IndexRun(lo, n - 1) + [lo + n - 1]
  }

  /** Every index of a line list names its own position. */
  ghost predicate SelfIndexed(indices: seq<nat>)
  {
    forall k :: 0 <= k < |indices| ==> indices[k] == k
  }

  /** The k-th line contributes the entries 2k and 2k+1. */
  lemma {:induction false} InterleaveAt<T>(a: seq<T>, b: seq<T>, k: nat)
    requires |a| == |b| && k < |a|
    ensures Interleave(a, b)[2 * k] == a[k] && Interleave(a, b)[2 * k + 1] == b[k]
    decreases |a|
  {
    var n := |a| - 1;
    if k < n {
      InterleaveAt(a[..n], b[..n], k);
      assert a[..n][k] == a[k] && b[..n][k] == b[k];
    }
  }

  /** Adding two runs of lines is adding their concatenation. */
  lemma {:induction false} InterleaveAppend<T>(a1: seq<T>, b1: seq<T>, a2: seq<T>, b2: seq<T>)
    requires |a1| == |b1| && |a2| == |b2|
    ensures Interleave(a1 + a2, b1 + b2) == Interleave(a1, b1) + Interleave(a2, b2)
    decreases |a2|
  {
    if |a2| == 0 {
      assert a1 + a2 == a1 && b1 + b2 == b1;
    } else {
      var n := |a2| - 1;
      assert (a1 + a2)[..|a1 + a2| - 1] == a1 + a2[..n];
      assert (b1 + b2)[..|a1 + a2| - 1] == b1 + b2[..n];
      InterleaveAppend(a1, b1, a2[..n], b2[..n]);
    }
  }

  /** The i-th entry of a run is `lo + i`. */
  lemma {:induction false} IndexRunAt(lo: nat, n: nat, i: nat)
    requires i < n
    ensures IndexRun(lo, n)[i] == lo + i
    decreases n
  {
    if i < n - 1 {
      IndexRunAt(lo, n - 1, i);
    }
  }

  /** A run appended right after a self-indexed prefix keeps it self-indexed. */
  lemma ExtendSelfIndexed(indices: seq<nat>, n: nat)
    requires SelfIndexed(indices)
    ensures SelfIndexed(indices + IndexRun(|indices|, n))
  {
    var r := indices + IndexRun(|indices|, n);
    forall k | 0 <= k < |r|
      ensures r[k] == k
    {
      if k >= |indices| {
        IndexRunAt(|indices|, n, k - |indices|);
      }
    }
  }

  /** One more line on a run of line-pairs. */
  lemma AddLineStep<T>(a: seq<T>, b: seq<T>, i: nat)
    requires |a| == |b| && i < |a|
    ensures Interleave(a[..i + 1], b[..i + 1]) == Interleave(a[..i], b[..i]) + [a[i], b[i]]
  {
    assert a[..i + 1][..i] == a[..i] && b[..i + 1][..i] == b[..i];
  }

  /** Two more indices on a run of index-pairs. */
  lemma IndexRunStep(lo: nat, n: nat)
    ensures IndexRun(lo, n + 2) == IndexRun(lo, n) + [lo + n, lo + n + 1]
  {
  }

  /** `AddLines` on a single line adds exactly what `AddLine` adds. */
  lemma SingleLineIsAddLine<T>(s: T, e: T, lo: nat)
    ensures Interleave([s], [e]) == [s, e]
    ensures Interleave([s], [s]) == [s, s]
    ensures IndexRun(lo, 2) == [lo, lo + 1]
  {
    assert [s][..0] == [];
    assert [e][..0] == [];
  }

  /** What `SetViewModeType` does to the cached mode and the device log:
      nothing when the mode is the cached one, otherwise set the rasterizer
      state, then the colour constant (red for wireframe, white otherwise),
      then cache the mode. */
  function ViewModeStep(pre: EViewModeIndex, log: seq<DeviceCall>, mode: EViewModeIndex): (EViewModeIndex, seq<DeviceCall>)
  {
    if pre == mode then (pre, log)
    else
      var color := if mode == VMI_Wireframe then Vec4(1.0, 0.0, 0.0, 1.0) else Vec4(1.0, 1.0, 1.0, 0.0);
      (mode, log + [RSSetState(mode), UpdateColorConstantBuffers(color)])
  }

  /** Setting a mode caches it, and setting the same mode again costs no
      device call. */
  lemma ViewModeCached(pre: EViewModeIndex, log: seq<DeviceCall>, mode: EViewModeIndex)
    ensures ViewModeStep(pre, log, mode).0 == mode
    ensures |ViewModeStep(pre, log, mode).1| == |log| + (if pre == mode then 0 else 2)
    ensures var s := ViewModeStep(pre, log, mode); ViewModeStep(s.0, s.1, mode) == s
  {
  }

  class URenderer {
    /** `LineBatchData != nullptr` (created by `InitializeLineBatch`). */
    var HasLineBatchData: bool
    /** `DynamicLineMesh != nullptr`. */
    var HasDynamicMesh: bool
    var LineBatchActive: bool
    var Vertices: seq<Vec>
    var Colors: seq<Vec4>
    var Indices: seq<nat>
    var PreViewModeIndex: EViewModeIndex
    /** Device calls made by `SetViewModeType`, oldest first. */
    var DeviceLog: seq<DeviceCall>
    /** Index counts of the line draws issued by `EndLineBatch`, oldest first. */
    var Draws: seq<nat>

    /** The three arrays describe one line list: equal lengths, whole
        lines only, and each index names its own vertex. */
    ghost predicate Valid()
      reads this
    {
      |Vertices| == |Colors| == |Indices| && |Indices| % 2 == 0 && SelfIndexed(Indices)
    }

    constructor (hasLineBatchData: bool, hasDynamicMesh: bool)
      ensures Valid()
      ensures HasLineBatchData == hasLineBatchData && HasDynamicMesh == hasDynamicMesh
      ensures !LineBatchActive && Vertices == [] && Colors == [] && Indices == []
      ensures PreViewModeIndex == VMI_Wireframe && DeviceLog == [] && Draws == []
    {
      HasLineBatchData := hasLineBatchData;
      HasDynamicMesh := hasDynamicMesh;
      LineBatchActive := false;
      Vertices := [];
      Colors := [];
      Indices := [];
      PreViewModeIndex := VMI_Wireframe;
      DeviceLog := [];
      Draws := [];
    }

    method SetViewModeType(mode: EViewModeIndex)
      modifies this
      ensures (PreViewModeIndex, DeviceLog) == ViewModeStep(old(PreViewModeIndex), old(DeviceLog), mode)
      ensures HasLineBatchData == old(HasLineBatchData) && HasDynamicMesh == old(HasDynamicMesh)
      ensures LineBatchActive == old(LineBatchActive) && Draws == old(Draws)
      ensures Vertices == old(Vertices) && Colors == old(Colors) && Indices == old(Indices)
    {
      if PreViewModeIndex != mode {
        var color := if mode == VMI_Wireframe then Vec4(1.0, 0.0, 0.0, 1.0) else Vec4(1.0, 1.0, 1.0, 0.0);
        DeviceLog := DeviceLog + [RSSetState(mode), UpdateColorConstantBuffers(color)];
        PreViewModeIndex := mode;
      }
    }

    /** Without batch data nothing happens; otherwise the batch is emptied
        and becomes active. */
    method BeginLineBatch()
      requires Valid()
      modifies this
      ensures Valid()
      ensures HasLineBatchData == old(HasLineBatchData) && HasDynamicMesh == old(HasDynamicMesh)
      ensures PreViewModeIndex == old(PreViewModeIndex) && DeviceLog == old(DeviceLog) && Draws == old(Draws)
      ensures !HasLineBatchData ==>
        LineBatchActive == old(LineBatchActive) && Vertices == old(Vertices) && Colors == old(Colors) && Indices == old(Indices)
      ensures HasLineBatchData ==> LineBatchActive && Vertices == [] && Colors == [] && Indices == []
    {
      if !HasLineBatchData {
        return;
      }
      LineBatchActive := true;
      Vertices := [];
      Colors := [];
      Indices := [];
    }

    /** An active batch with data gains one line: both end points, the
        colour twice, and the two indices that follow the existing vertices.
        Otherwise nothing happens. */
    method AddLine(start: Vec, end: Vec, color: Vec4)
      requires Valid()
      modifies this
      ensures Valid()
      ensures HasLineBatchData == old(HasLineBatchData) && HasDynamicMesh == old(HasDynamicMesh)
      ensures LineBatchActive == old(LineBatchActive)
      ensures PreViewModeIndex == old(PreViewModeIndex) && DeviceLog == old(DeviceLog) && Draws == old(Draws)
      ensures !(LineBatchActive && HasLineBatchData) ==>
        Vertices == old(Vertices) && Colors == old(Colors) && Indices == old(Indices)
      ensures LineBatchActive && HasLineBatchData ==>
        Vertices == old(Vertices) + [start, end] && Colors == old(Colors) + [color, color] &&
        Indices == old(Indices) + [|old(Vertices)|, |old(Vertices)| + 1]
    {
      if !LineBatchActive || !HasLineBatchData {
        return;
      }
      var startIndex := |Vertices|;
      ExtendSelfIndexed(Indices, 2);
      assert IndexRun(startIndex, 2) == [startIndex, startIndex + 1];
      Vertices := Vertices + [start, end];
      Colors := Colors + [color, color];
      Indices := Indices + [startIndex, startIndex + 1];
    }

    /** An active batch with data gains one line per element when the three
        inputs have equal length: start and end points interleaved, each
        colour twice, and the next run of indices. Otherwise nothing
        happens. */
    method AddLines(startPoints: seq<Vec>, endPoints: seq<Vec>, colors: seq<Vec4>)
      requires Valid()
      modifies this
      ensures Valid()
      ensures HasLineBatchData == old(HasLineBatchData) && HasDynamicMesh == old(HasDynamicMesh)
      ensures LineBatchActive == old(LineBatchActive)
      ensures PreViewModeIndex == old(PreViewModeIndex) && DeviceLog == old(DeviceLog) && Draws == old(Draws)
      ensures !(LineBatchActive && HasLineBatchData && |startPoints| == |endPoints| == |colors|) ==>
        Vertices == old(Vertices) && Colors == old(Colors) && Indices == old(Indices)
      ensures LineBatchActive && HasLineBatchData && |startPoints| == |endPoints| == |colors| ==>
        Vertices == old(Vertices) + Interleave(startPoints, endPoints) &&
        Colors == old(Colors) + Interleave(colors, colors) &&
        Indices == old(Indices) + IndexRun(|old(Vertices)|, 2 * |startPoints|)
    {
      if !LineBatchActive || !HasLineBatchData {
        return;
      }
      if |startPoints| != |endPoints| || |startPoints| != |colors| {
        return;
      }
      ExtendSelfIndexed(Indices, 2 * |startPoints|);
      Vertices, Colors, Indices := AppendLines(Vertices, Colors, Indices, startPoints, endPoints, colors);
    }

    /** Ends the batch. Nothing is drawn when the batch is inactive, the
        data or the mesh is missing, or there are no vertices. A batch over
        `MAX_LINES` lines is cut to its first `MAX_LINES` lines; a failed
        upload draws nothing; otherwise the whole (clamped) index list is
        drawn. The batch is inactive afterwards in every case. */
    method EndLineBatch(uploadOk: bool)
      requires Valid()
      modifies this
      ensures Valid()
      ensures !LineBatchActive
      ensures HasLineBatchData == old(HasLineBatchData) && HasDynamicMesh == old(HasDynamicMesh)
      ensures PreViewModeIndex == old(PreViewModeIndex) && DeviceLog == old(DeviceLog)
      ensures !(old(LineBatchActive) && HasLineBatchData && HasDynamicMesh && |old(Vertices)| > 0) ==>
        Vertices == old(Vertices) && Colors == old(Colors) && Indices == old(Indices) && Draws == old(Draws)
      ensures old(LineBatchActive) && HasLineBatchData && HasDynamicMesh && |old(Vertices)| > 0 ==>
        var keep := if |old(Indices)| / 2 > MAX_LINES then 2 * MAX_LINES else |old(Indices)|;
        Vertices == old(Vertices)[..keep] && Colors == old(Colors)[..keep] && Indices == old(Indices)[..keep] &&
        Draws == old(Draws) + (if uploadOk then [keep] else [])
      ensures |Indices| <= 2 * MAX_LINES || Draws == old(Draws)
    {
      if !LineBatchActive || !HasLineBatchData || !HasDynamicMesh || |Vertices| == 0 {
        LineBatchActive := false;
        return;
      }
      var totalLines := |Indices| / 2;
      if totalLines > MAX_LINES {
        var clamped := MAX_LINES * 2;
        ClampKeepsSelfIndexed(Indices, clamped);
        Vertices := Vertices[..clamped];
        Colors := Colors[..clamped];
        Indices := Indices[..clamped];
      }
      if !uploadOk {
        LineBatchActive := false;
        return;
      }
      Draws := Draws + [|Indices|];
      LineBatchActive := false;
    }

    /** Without batch data nothing happens; otherwise the batch is emptied
        and deactivated. */
    method ClearLineBatch()
      requires Valid()
      modifies this
      ensures Valid()
      ensures HasLineBatchData == old(HasLineBatchData) && HasDynamicMesh == old(HasDynamicMesh)
      ensures PreViewModeIndex == old(PreViewModeIndex) && DeviceLog == old(DeviceLog) && Draws == old(Draws)
      ensures !HasLineBatchData ==>
        LineBatchActive == old(LineBatchActive) && Vertices == old(Vertices) && Colors == old(Colors) && Indices == old(Indices)
      ensures HasLineBatchData ==> !LineBatchActive && Vertices == [] && Colors == [] && Indices == []
    {
      if !HasLineBatchData {
        return;
      }
      Vertices := [];
      Colors := [];
      Indices := [];
      LineBatchActive := false;
    }
  }

  /** The loop of `URenderer::AddLines`: push each line's end points, its
      colour twice and the next two indices, numbered from the vertex count
      on entry. */
  method AppendLines(vertices0: seq<Vec>, colors0: seq<Vec4>, indices0: seq<nat>,
                     startPoints: seq<Vec>, endPoints: seq<Vec>, colors: seq<Vec4>)
    returns (vertices: seq<Vec>, vertexColors: seq<Vec4>, indices: seq<nat>)
    requires |startPoints| == |endPoints| == |colors|
    ensures vertices == vertices0 + Interleave(startPoints, endPoints)
    ensures vertexColors == colors0 + Interleave(colors, colors)
    ensures indices == indices0 + IndexRun(|vertices0|, 2 * |startPoints|)
  {
    var startIndex := |vertices0|;
    var lineCount := |startPoints|;
    vertices, vertexColors, indices := vertices0, colors0, indices0;
    var i := 0;
    while i < lineCount
      invariant 0 <= i <= lineCount
      invariant vertices == vertices0 + Interleave(startPoints[..i], endPoints[..i])
      invariant vertexColors == colors0 + Interleave(colors[..i], colors[..i])
      invariant indices == indices0 + IndexRun(startIndex, 2 * i)
    {
      var currentIndex := startIndex + i * 2;
      AddLineStep(startPoints, endPoints, i);
      AddLineStep(colors, colors, i);
      IndexRunStep(startIndex, 2 * i);
      vertices := vertices + [startPoints[i], endPoints[i]];
      vertexColors := vertexColors + [colors[i], colors[i]];
      indices := indices + [currentIndex, currentIndex + 1];
      i := i + 1;
    }
    assert startPoints[..lineCount] == startPoints && endPoints[..lineCount] == endPoints;
    assert colors[..lineCount] == colors;
  }

  /** A prefix of a self-indexed list is self-indexed. */
  lemma ClampKeepsSelfIndexed(indices: seq<nat>, n: nat)
    requires SelfIndexed(indices) && n <= |indices|
    ensures SelfIndexed(indices[..n])
  {
  }
}
