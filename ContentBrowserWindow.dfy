/** The content browser window
    (Mundi/Source/Slate/Windows/ContentBrowserWindow.cpp): the icon shown
    for a file, the size text, and the grid layout of the entries.

    Floating point is modelled by reals: the window width, the cell size
    and the file size divided by 1024 are exact. The `%.2f` formatting of a
    number is a parameter. */
module ContentBrowserWindow {
  import opened Text

  /** The part of a browser entry the icon depends on. */
  datatype FFileEntry = FFileEntry(IsDirectory: bool, Extension: string)

  /** `GetIconForFile`: `[DIR]` for a directory; otherwise the icon of the
      extension, compared in lower case. */
  function GetIconForFile(entry: FFileEntry): (icon: string)
  {
    if entry.IsDirectory then "[DIR]" else IconOfExtension(Lower(entry.Extension))
  }

  /** The icon of a lower-case extension, `[FILE]` for an unknown one. */
  function IconOfExtension(ext: string): (icon: string)
  {
    if ext == ".fbx" || ext == ".obj" then "[MESH]"
    else if ext == ".png" || ext == ".jpg" || ext == ".jpeg" || ext == ".dds" || ext == ".tga" then "[IMG]"
    else if ext == ".hlsl" || ext == ".glsl" || ext == ".fx" then "[SHDR]"
    else if ext == ".wav" || ext == ".mp3" || ext == ".ogg" then "[SND]"
    else if ext == ".mat" then "[MAT]"
    else if ext == ".level" || ext == ".json" then "[DATA]"
    else "[FILE]"
  }

  /** The icon of each known lower-case extension. */
  const IconTable: map<string, string> := map[
    ".fbx" := "[MESH]", ".obj" := "[MESH]",
    ".png" := "[IMG]", ".jpg" := "[IMG]", ".jpeg" := "[IMG]", ".dds" := "[IMG]", ".tga" := "[IMG]",
    ".hlsl" := "[SHDR]", ".glsl" := "[SHDR]", ".fx" := "[SHDR]",
    ".wav" := "[SND]", ".mp3" := "[SND]", ".ogg" := "[SND]",
    ".mat" := "[MAT]",
    ".level" := "[DATA]", ".json" := "[DATA]"]

  /** A lower-case extension gets the icon the table gives it, and `[FILE]`
      when the table does not know it. */
  lemma IconOfExtensionFollowsTable(ext: string)
    ensures IconOfExtension(ext) == if ext in IconTable then IconTable[ext] else "[FILE]"
  {
  }

  /** The icon is `[DIR]` for any directory whatever its extension, and
      otherwise the one the table gives the lower-cased extension, `[FILE]`
      for an extension the table does not know. */
  lemma IconFollowsTable(entry: FFileEntry)
    ensures GetIconForFile(entry) ==
              if entry.IsDirectory then "[DIR]"
              else if Lower(entry.Extension) in IconTable then IconTable[Lower(entry.Extension)]
              else "[FILE]"
  {
    IconOfExtensionFollowsTable(Lower(entry.Extension));
  }

  lemma {:induction false} LowerIsIdempotent(s: string)
    ensures Lower(Lower(s)) == Lower(s)
  {
    if s != [] {
      LowerIsIdempotent(s[1..]);
      assert Lower(s) == [LowerChar(s[0])] + Lower(s[1..]);
    }
  }

  /** Letter case does not change the icon: an extension and its
      lower-cased form get the same one. */
  lemma IconIgnoresCase(entry: FFileEntry)
    ensures GetIconForFile(entry) == GetIconForFile(entry.(Extension := Lower(entry.Extension)))
  {
    LowerIsIdempotent(entry.Extension);
  }

  /** An upper-case mesh extension still shows the mesh icon. */
  lemma UpperCaseFbxIsMesh()
    ensures GetIconForFile(FFileEntry(false, ".FBX")) == "[MESH]"
  {
    var ext := ".FBX";
    assert LowerChar('F') == 'f' && LowerChar('B') == 'b' && LowerChar('X') == 'x';
    assert Lower(ext)[1] == 'f' && Lower(ext)[2] == 'b' && Lower(ext)[3] == 'x';
    assert Lower(ext) == ".fbx";
  }

  /** The size units, smallest first. */
  const Units: seq<string> := ["B", "KB", "MB", "GB"]

  /** 1024 to the power `k`. */
  function Pow1024(k: nat): (p: real)
    ensures p >= 1.0
  {
    if k == 0 then 1.0 else 1024.0 * Pow1024(k - 1)
  }

  /** The unit `FormatFileSize` picks: the largest of B, KB, MB and GB whose
      size is at most `size`, B for sizes below 1024. */
  function UnitFor(size: nat): (u: nat)
    ensures u <= 3
    ensures u > 0 ==> Pow1024(u) <= size as real
    ensures u < 3 ==> (size as real) < Pow1024(u + 1)
  {
    if (size as real) < Pow1024(1) then 0
    else if (size as real) < Pow1024(2) then 1
    else if (size as real) < Pow1024(3) then 2
    else 3
  }

  /** Dividing the value by 1024 while counting one unit more keeps the
      size it stands for. */
  lemma DivideStep(value: real, k: nat)
    ensures (value / 1024.0) * Pow1024(k + 1) == value * Pow1024(k)
  {
    assert Pow1024(k + 1) == 1024.0 * Pow1024(k);
  }

  /** A product divided by one nonzero factor is the other factor. */
  lemma QuotientOfProduct(v: real, p: real, x: real)
    requires p > 0.0 && v * p == x
    ensures v == x / p
  {
  }

  /** Where the division loop stops, the unit is the one `UnitFor` picks. */
  lemma UnitAtExit(size: nat, u: nat, value: real)
    requires u <= 3 && value * Pow1024(u) == size as real
    requires u > 0 ==> Pow1024(u) <= size as real
    requires !(value >= 1024.0 && u < 3)
    ensures u == UnitFor(size)
  {
    assert Pow1024(1) == 1024.0;
    assert Pow1024(2) == 1048576.0;
    assert Pow1024(3) == 1073741824.0;
    var n := size as real;
    if u == 0 {
      assert Pow1024(u) == 1.0;
      assert value == n && n < 1024.0;
    } else if u == 1 {
      assert Pow1024(u) == 1024.0;
      assert value * 1024.0 == n && value < 1024.0;
      assert 1024.0 <= n < 1048576.0;
    } else if u == 2 {
      assert Pow1024(u) == 1048576.0;
      assert value * 1048576.0 == n && value < 1024.0;
      assert 1048576.0 <= n < 1073741824.0;
    } else {
      assert Pow1024(u) == 1073741824.0;
      assert value * 1073741824.0 == n && 1073741824.0 <= n;
    }
  }

  /** `FormatFileSize`: the size divided by 1024 while it is at least 1024
      and the unit is below GB, then printed with two decimals and the
      unit. `fixed2` is the `%.2f` formatting. */
  method FormatFileSize(size: nat, fixed2: real -> string) returns (text: string)
    ensures text == fixed2((size as real) / Pow1024(UnitFor(size))) + " " + Units[UnitFor(size)]
  {
    var unitIndex := 0;
    var value: real := size as real;
    while value >= 1024.0 && unitIndex < 3
      invariant 0 <= unitIndex <= 3
      invariant value * Pow1024(unitIndex) == size as real
      invariant unitIndex > 0 ==> Pow1024(unitIndex) <= size as real
      decreases 3 - unitIndex
    {
      DivideStep(value, unitIndex);
      value := value / 1024.0;
      unitIndex := unitIndex + 1;
    }
    UnitAtExit(size, unitIndex, value);
    QuotientOfProduct(value, Pow1024(unitIndex), size as real);
    text := fixed2(value) + " " + Units[unitIndex];
  }

  /** Whole cells that fit the width, laid side by side, stay within it. */
  lemma CellsFit(width: real, cell: real, columns: int)
    requires cell > 0.0 && columns >= 1
    requires columns == TruncateToInt(width / cell)
    ensures (columns as real) * cell <= width
  {
    var q := width / cell;
    assert q * cell == width;
    assert columns as real <= q;
  }

  /** A nonzero number of whole rows is at least one row long. */
  lemma WholeRows(d: int, columns: int)
    requires columns >= 1
    ensures d >= 1 ==> d * columns >= columns
    ensures d <= -1 ==> d * columns <= -columns
  {
  }

  /** An entry `q` whole rows and `r` columns in is in column `r`. */
  lemma ColumnOfPosition(i: int, columns: int, q: int, r: int)
    requires columns >= 1 && q >= 0 && 0 <= r < columns
    requires i == q * columns + r
    ensures i % columns == r
  {
    var q', r' := i / columns, i % columns;
    assert i == q' * columns + r';
    var d := q - q';
    assert d * columns == q * columns - q' * columns;
    WholeRows(d, columns);
  }

  class UContentBrowserWindow {
    var ThumbnailSize: real
    var ColumnsCount: int

    /** The initial thumbnail size and column count. */
    constructor ()
      ensures ThumbnailSize == 80.0 && ColumnsCount == 4
    {
      ThumbnailSize := 80.0;
      ColumnsCount := 4;
    }

    /** `RenderContentGrid`'s layout of `count` entries: the column count is
        the number of whole cells that fit the width, at least 1, and the
        entries are laid out in rows of that many; entry `i` is followed on
        its line (`SameLine`) unless it closes a row. */
    method RenderContentGrid(windowWidth: real, itemSpacing: real, count: nat) returns (sameLine: seq<bool>)
      requires ThumbnailSize + itemSpacing > 0.0
      modifies this`ColumnsCount
      ensures ColumnsCount >= 1
      ensures ColumnsCount == (if TruncateToInt(windowWidth / (ThumbnailSize + itemSpacing)) > 1
                               then TruncateToInt(windowWidth / (ThumbnailSize + itemSpacing)) else 1)
      ensures ColumnsCount > 1 ==> (ColumnsCount as real) * (ThumbnailSize + itemSpacing) <= windowWidth
      ensures |sameLine| == count
      ensures forall i :: 0 <= i < count ==> (sameLine[i] <==> (i + 1) % ColumnsCount != 0)
    {
      var cellSize := ThumbnailSize + itemSpacing;
      var fit := TruncateToInt(windowWidth / cellSize);
      var columns := if 1 < fit then fit else 1;
      if columns > 1 {
        CellsFit(windowWidth, cellSize, columns);
      }
      ColumnsCount := columns;
      assert columns > 1 ==> columns == TruncateToInt(windowWidth / (ThumbnailSize + itemSpacing));
      var columnIndex := 0;
      sameLine := [];
      var i := 0;
      ghost var row := 0;
      while i < count
        invariant 0 <= i <= count && |sameLine| == i
        invariant ColumnsCount == columns
        invariant 0 <= columnIndex < columns && i == row * columns + columnIndex
        invariant forall j :: 0 <= j < i ==> (sameLine[j] <==> (j + 1) % columns != 0)
      {
        columnIndex := columnIndex + 1;
        if columnIndex < columns {
          sameLine := sameLine + [true];
          ColumnOfPosition(i + 1, columns, row, columnIndex);
        } else {
          columnIndex := 0;
          row := row + 1;
          sameLine := sameLine + [false];
          ColumnOfPosition(i + 1, columns, row, 0);
        }
        i := i + 1;
      }
    }
  }
}
