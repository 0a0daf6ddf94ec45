/** The reflection header parser of the code generator (Tools/CodeGenerator/parser.py):
    it finds `UPROPERTY(...)` and `UFUNCTION(...)` annotation sites in the text of a
    C++ header, isolates their argument text by parenthesis matching, recovers the
    declared type and name after each site, and builds a class record.

    The regular expressions of the source are modelled as explicit searches that
    try the alternatives in the order Python's backtracking engine tries them. */
module CodeGenParser {
  import opened Text

  // ---------------------------------------------------------------------------
  // Records
  // ---------------------------------------------------------------------------

  /** A reflected property. `minValue`/`maxValue` are meaningful only when
      `hasRange` holds; both default to 0. */
  datatype Property = Property(
    name: string,
    ty: string,
    category: string,
    editable: bool,
    tooltip: string,
    minValue: real,
    maxValue: real,
    hasRange: bool)

  datatype Parameter = Parameter(name: string, ty: string)

  /** A reflected function; `luaBind` is the `metadata['lua_bind']` flag. */
  datatype Function = Function(
    name: string,
    displayName: string,
    returnType: string,
    parameters: seq<Parameter>,
    isConst: bool,
    luaBind: bool)

  /** A class record. The header path of the source is not modelled. */
  datatype ClassInfo = ClassInfo(
    name: string,
    parent: string,
    properties: seq<Property>,
    functions: seq<Function>,
    isComponent: bool,
    isSpawnable: bool,
    displayName: string,
    description: string)

  // ---------------------------------------------------------------------------
  // Property type classification (Property.get_property_type_macro)
  // ---------------------------------------------------------------------------

  /** The element kind written to `metadata['inner_type']` for arrays. */
  datatype ElemKind = MaterialElem | TextureElem | SoundElem | StaticMeshElem | ObjectPtrElem

  /** The registration macro chosen for a property. An array whose element name
      could not be read leaves `inner_type` unset (`inner == None`). */
  datatype TypeMacro =
    | ArrayMacro(inner: Option<ElemKind>)
    | CurveMacro
    | SrvMacro
    | TextureMacro
    | StaticMeshMacro
    | MaterialMacro
    | AudioMacro
    | RangeMacro
    | PlainMacro

  function MacroName(m: TypeMacro): string
  {
    match m
    case ArrayMacro(_) => "ADD_PROPERTY_ARRAY"
    case CurveMacro => "ADD_PROPERTY_CURVE"
    case SrvMacro => "ADD_PROPERTY_SRV"
    case TextureMacro => "ADD_PROPERTY_TEXTURE"
    case StaticMeshMacro => "ADD_PROPERTY_STATICMESH"
    case MaterialMacro => "ADD_PROPERTY_MATERIAL"
    case AudioMacro => "ADD_PROPERTY_AUDIO"
    case RangeMacro => "ADD_PROPERTY_RANGE"
    case PlainMacro => "ADD_PROPERTY"
  }

  function ElemKindName(k: ElemKind): string
  {
    match k
    case MaterialElem => "EPropertyType::Material"
    case TextureElem => "EPropertyType::Texture"
    case SoundElem => "EPropertyType::Sound"
    case StaticMeshElem => "EPropertyType::StaticMesh"
    case ObjectPtrElem => "EPropertyType::ObjectPtr"
  }

  /** `re.search(r'tarray\s*<\s*(\w+)', type, re.IGNORECASE)` on the lower-cased
      type, starting the search at `i`: the word after the first `tarray <`. */
  function TArrayInner(low: string, i: nat): (r: Option<string>)
    requires i <= |low|
    ensures r.Some? ==> |r.value| > 0
    decreases |low| - i
  {
    if i + 6 > |low| then None
    else
      var a := SkipSpaces(low, i + 6);
      var b := if a < |low| then SkipSpaces(low, a + 1) else a;
      var e := SkipWord(low, b);
      if low[i..i + 6] == "tarray" && a < |low| && low[a] == '<' && e > b then Some(low[b..e])
      else TArrayInner(low, i + 1)
  }

  function ElemKindOf(inner: string): ElemKind
  {
    if Contains(inner, "umaterial") then MaterialElem
    else if Contains(inner, "utexture") then TextureElem
    else if Contains(inner, "usound") then SoundElem
    else if Contains(inner, "ustaticmesh") then StaticMeshElem
    else ObjectPtrElem
  }

  /** The ordered classification table; the first rule that applies wins. */
  function TypeMacroOf(p: Property): TypeMacro
  {
    var low := Lower(p.ty);
    if Contains(low, "tarray") then
      match TArrayInner(low, 0)
      case Some(inner) => ArrayMacro(Some(ElemKindOf(inner)))
      case None => ArrayMacro(None)
    else if Contains(low, "ucurve") || Contains(low, "fcurve") then CurveMacro
    else if Contains(low, "srv") || Contains(low, "shaderresourceview") then SrvMacro
    else if '*' in p.ty then
      if Contains(low, "utexture") then TextureMacro
      else if Contains(low, "ustaticmesh") then StaticMeshMacro
      else if Contains(low, "umaterial") then MaterialMacro
      else if Contains(low, "usound") then AudioMacro
      else PlainMacro
    else if p.hasRange then RangeMacro
    else PlainMacro
  }

  /** Containers are checked first: any type mentioning `tarray` (in any case) is
      an array, whatever pointer, texture or range it also has. The rule does not
      ask for a container of pointers. */
  lemma ArrayRuleFirst(p: Property)
    ensures Contains(Lower(p.ty), "tarray") <==> TypeMacroOf(p).ArrayMacro?
  {
  }

  /** A texture, mesh, material or audio macro is chosen only for pointer types
      that mention no container, curve or shader resource view. */
  lemma PointerKindsNeedPointer(p: Property)
    requires TypeMacroOf(p) in {TextureMacro, StaticMeshMacro, MaterialMacro, AudioMacro}
    ensures '*' in p.ty
    ensures !Contains(Lower(p.ty), "tarray") && !Contains(Lower(p.ty), "srv")
    ensures !Contains(Lower(p.ty), "ucurve") && !Contains(Lower(p.ty), "fcurve")
  {
  }

  /** A range macro is chosen exactly for ranged properties that match none of
      the four earlier rules. */
  lemma RangeRuleLast(p: Property)
    ensures TypeMacroOf(p) == RangeMacro <==>
      p.hasRange && '*' !in p.ty
      && !Contains(Lower(p.ty), "tarray")
      && !Contains(Lower(p.ty), "ucurve") && !Contains(Lower(p.ty), "fcurve")
      && !Contains(Lower(p.ty), "srv") && !Contains(Lower(p.ty), "shaderresourceview")
  {
  }

  /** The element name is the whole word after a leading `tarray<`, whatever
      follows it: `TArray<UTexture*>` reads `utexture`, and a container of plain
      values such as `TArray<int32>` reads `int32`. */
  lemma {:induction false} LeadingArrayElement(w: string, rest: string)
    requires |w| > 0 && forall k :: 0 <= k < |w| ==> IsWordChar(w[k])
    requires rest == [] || !IsWordChar(rest[0])
    ensures TArrayInner("tarray<" + w + rest, 0) == Some(w)
  {
    var low := "tarray<" + w + rest;
    assert low[6] == '<' && low[7] == w[0];
    forall k | 7 <= k < 7 + |w| ensures IsWordChar(low[k]) {
      assert low[k] == w[k - 7];
    }
    if rest != [] {
      assert low[7 + |w|] == rest[0];
    }
    SkipWordRun(low, 7, 7 + |w|);
    assert low[..6] == "tarray";
    assert low[7..7 + |w|] == w;
  }

  /** Hence the element kind of such a container follows its element word. */
  lemma ArrayElementKind(p: Property, w: string, rest: string)
    requires |w| > 0 && forall k :: 0 <= k < |w| ==> IsWordChar(w[k])
    requires rest == [] || !IsWordChar(rest[0])
    requires Lower(p.ty) == "tarray<" + w + rest
    ensures TypeMacroOf(p) == ArrayMacro(Some(ElemKindOf(w)))
  {
    LeadingArrayElement(w, rest);
    assert StartsAt(Lower(p.ty), 0, "tarray");
    ContainsIff(Lower(p.ty), "tarray");
  }

  // ---------------------------------------------------------------------------
  // Balanced-parenthesis span (HeaderParser._extract_balanced_parens)
  // ---------------------------------------------------------------------------

  function Delta(c: char): int
  {
    if c == '(' then 1 else if c == ')' then -1 else 0
  }

  /** Opening minus closing parentheses in `s`. */
  function Net(s: string): int
  {
    if s == [] then 0 else Delta(s[0]) + Net(s[1..])
  }

  lemma {:induction false} NetSnoc(s: string, c: char)
    ensures Net(s + [c]) == Net(s) + Delta(c)
  {
    if s != [] {
      assert (s + [c])[1..] == s[1..] + [c];
      NetSnoc(s[1..], c);
    } else {
      assert s + [c] == [c];
    }
  }

  /** A well-nested parenthesis text: as many closing as opening parentheses,
      and no prefix closes more than it opened. */
  ghost predicate Balanced(u: string)
  {
    Net(u) == 0 && forall k :: 0 <= k <= |u| ==> Net(u[..k]) >= 0
  }

  /** Where the scan that starts at `i` with nesting depth `depth` stops. */
  function ScanEnd(text: string, i: nat, depth: int): (r: nat)
    requires i <= |text|
    ensures i <= r <= |text|
    decreases |text| - i
  {
    if i < |text| && depth > 0 then ScanEnd(text, i + 1, depth + Delta(text[i])) else i
  }

  /** The text between `start` and the character before the scan's end, as
      Python's `text[start:i-1]`, and the end index. */
  function Span(text: string, start: nat): (r: (string, nat))
    requires start <= |text|
    ensures start <= r.1 <= |text|
  {
    var e := ScanEnd(text, start, 1);
    (if start < e then text[start..e - 1] else [], e)
  }

  lemma {:induction false} ScanEndClosed(text: string, i: nat, d: int, u: string)
    requires i + |u| < |text| && text[i..i + |u|] == u && text[i + |u|] == ')'
    requires forall k :: 0 <= k <= |u| ==> d + Net(u[..k]) >= 1
    requires d + Net(u) == 1
    ensures ScanEnd(text, i, d) == i + |u| + 1
    decreases |u|
  {
    assert d + Net(u[..0]) >= 1;
    if u == [] {
      assert text[i] == ')';
    } else {
      assert text[i] == u[0];
      var d' := d + Delta(u[0]);
      forall k | 0 <= k <= |u[1..]| ensures d' + Net(u[1..][..k]) >= 1 {
        assert u[..k + 1][1..] == u[1..][..k];
        assert d + Net(u[..k + 1]) >= 1;
      }
      assert u[..|u|] == u;
      ScanEndClosed(text, i + 1, d', u[1..]);
    }
  }

  lemma {:induction false} ScanEndOpen(text: string, i: nat, d: int)
    requires i <= |text|
    requires forall j :: i <= j <= |text| ==> d + Net(text[i..j]) >= 1
    ensures ScanEnd(text, i, d) == |text|
    decreases |text| - i
  {
    assert d + Net(text[i..i]) >= 1;
    if i < |text| {
      var d' := d + Delta(text[i]);
      var i' := i + 1;
      forall j | i' <= j <= |text| ensures d' + Net(text[i'..j]) >= 1 {
        assert text[i..j][1..] == text[i'..j];
        assert d + Net(text[i..j]) >= 1;
      }
      ScanEndOpen(text, i + 1, d');
    }
  }

  /** Closing case: when a well-nested text `u` is followed by `)`, the span is
      exactly `u`, nested pairs included, and ends one past that `)`. */
  lemma SpanClosed(text: string, start: nat, u: string)
    requires start + |u| < |text| && text[start..start + |u|] == u && text[start + |u|] == ')'
    requires Balanced(u)
    ensures Span(text, start) == (u, start + |u| + 1)
  {
    ScanEndClosed(text, start, 1, u);
  }

  /** Non-closing case: when the group never closes, the scan runs to the end of
      the text, and the span silently drops the last character instead of
      failing. */
  lemma SpanUnclosed(text: string, start: nat)
    requires start <= |text|
    requires forall j :: start <= j <= |text| ==> Net(text[start..j]) >= 0
    ensures Span(text, start) == (if start < |text| then text[start..|text| - 1] else [], |text|)
  {
    ScanEndOpen(text, start, 1);
  }

  /** The scan as the source runs it: a loop over the text that tracks the
      nesting depth. */
  method ExtractBalancedParens(text: string, startPos: nat) returns (content: string, endPos: nat)
    requires startPos <= |text|
    ensures (content, endPos) == Span(text, startPos)
    ensures endPos == |text| || Net(text[startPos..endPos]) == -1
  {
    var depth := 1;
    var i := startPos;
    while i < |text| && depth > 0
      invariant startPos <= i <= |text|
      invariant depth == 1 + Net(text[startPos..i])
      invariant ScanEnd(text, i, depth) == ScanEnd(text, startPos, 1)
      decreases |text| - i
    {
      assert text[startPos..i + 1] == text[startPos..i] + [text[i]];
      NetSnoc(text[startPos..i], text[i]);
      if text[i] == '(' {
        depth := depth + 1;
      } else if text[i] == ')' {
        depth := depth - 1;
      }
      i := i + 1;
    }
    content := if startPos < i then text[startPos..i - 1] else [];
    endPos := i;
  }

  // ---------------------------------------------------------------------------
  // UPROPERTY declaration scanner (HeaderParser._parse_uproperty_declarations)
  // ---------------------------------------------------------------------------

  const PropertyMarker: string := "UPROPERTY"

  /** `UPROPERTY\s*\(` matches at `m`. */
  predicate MarkerAt(content: string, m: nat)
  {
    StartsAt(content, m, PropertyMarker)
    && SkipSpaces(content, m + 9) < |content|
    && content[SkipSpaces(content, m + 9)] == '('
  }

  /** The leftmost marker at or after `pos` (`UPROPERTY_START.search(content, pos)`). */
  function FindMarker(content: string, pos: nat): (r: Option<nat>)
    requires pos <= |content|
    ensures r.Some? ==> pos <= r.value && MarkerAt(content, r.value)
    decreases |content| - pos
  {
    if pos + 9 > |content| then None
    else if MarkerAt(content, pos) then Some(pos)
    else FindMarker(content, pos + 1)
  }

  /** No marker lies between `pos` and the one found. */
  lemma {:induction false} FindMarkerLeftmost(content: string, pos: nat, m: nat)
    requires pos <= m <= |content| && MarkerAt(content, m)
    ensures FindMarker(content, pos).Some? && FindMarker(content, pos).value <= m
    decreases |content| - pos
  {
    if pos + 9 <= |content| && !MarkerAt(content, pos) {
      FindMarkerLeftmost(content, pos + 1, m);
    }
  }

  /** Where the argument text of the marker at `m` begins (`match.end()`). */
  function ArgsStart(content: string, m: nat): (a: nat)
    requires MarkerAt(content, m)
    ensures m < a <= |content|
  {
    SkipSpaces(content, m + 9) + 1
  }

  /** The 200-character lookahead window `content[e:e+200]`. */
  function Window(content: string, e: nat): (w: string)
    requires e <= |content|
    ensures |w| <= 200
  {
    if e + 200 <= |content| then content[e..e + 200] else content[e..]
  }

  /** A recovered `type name` pair. */
  datatype Decl = Decl(ty: string, name: string)

  /** A character of the type group `[\w<>*:,\s]`. */
  predicate TypeChar(c: char)
  {
    IsWordChar(c) || c == '<' || c == '>' || c == '*' || c == ':' || c == ',' || IsSpace(c)
  }

  /** After a candidate type ending at `p`: `\s+(\w+)\s*(?:[;=]|{[^}]*};?)`.
      Yields the bounds of the name. */
  function NameAfterType(r: string, p: nat): (res: Option<(nat, nat)>)
    requires p <= |r|
    ensures res.Some? ==> p < res.value.0 < res.value.1 <= |r|
  {
    if p < |r| && IsSpace(r[p]) then
      var q := SkipSpaces(r, p);
      var e := SkipWord(r, q);
      var s := SkipSpaces(r, e);
      if e > q && s < |r| && (r[s] == ';' || r[s] == '=' || (r[s] == '{' && IndexOfChar(r, '}', s + 1) < |r|))
      then Some((q, e))
      else None
    else None
  }

  /** The lazy type group `([\w<>*:,\s]+?)` starting at `w`, tried with ends
      `p = w+1, w+2, ...` while every character fits the group. */
  function DeclFromType(r: string, w: nat, p: nat): (res: Option<Decl>)
    requires w < p <= |r|
    ensures res.Some? ==> |res.value.name| > 0
    decreases |r| - p
  {
    if !TypeChar(r[p - 1]) then None
    else match NameAfterType(r, p)
      case Some((q, e)) => Some(Decl(Strip(r[w..p]), r[q..e]))
      case None => if p < |r| then DeclFromType(r, w, p + 1) else None
  }

  /** The leading `\s*` is greedy: the type group is tried from the end of the
      leading whitespace first, then from earlier starts. */
  function DeclFromLead(r: string, w: nat): (res: Option<Decl>)
    requires w <= |r|
    ensures res.Some? ==> |res.value.name| > 0
    decreases w
  {
    var d := if w < |r| then DeclFromType(r, w, w + 1) else None;
    if d.Some? then d else if w == 0 then None else DeclFromLead(r, w - 1)
  }

  /** `re.match(r'\s*([\w<>*:,\s]+?)\s+(\w+)\s*(?:[;=]|{[^}]*};?)', remaining)`,
      with the type stripped of surrounding whitespace. */
  function MatchDecl(r: string): (res: Option<Decl>)
    ensures res.Some? ==> |res.value.name| > 0
  {
    DeclFromLead(r, SkipSpaces(r, 0))
  }

  /** One annotation site met by the scanner: the marker, its argument text and
      span, and the declaration recovered after it, if any. */
  datatype Site = Site(marker: nat, argsStart: nat, args: string, argsEnd: nat, decl: Option<Decl>)

  /** The sites the scanner meets from `pos` on: each search resumes at the end
      of the previous site's argument span. */
  function Sites(content: string, pos: nat): (s: seq<Site>)
    requires pos <= |content|
    decreases |content| - pos
  {
    match FindMarker(content, pos)
    case None => []
    case Some(m) =>
      var a := ArgsStart(content, m);
      var sp := Span(content, a);
      [Site(m, a, sp.0, sp.1, MatchDecl(Window(content, sp.1)))] + Sites(content, sp.1)
  }

  /** Source order and no rescanning: each site's span lies after its marker,
      inside the text, and before the next site's marker. */
  lemma {:induction false} SitesOrdered(content: string, pos: nat)
    requires pos <= |content|
    ensures forall k :: 0 <= k < |Sites(content, pos)| ==>
      pos <= Sites(content, pos)[k].marker < Sites(content, pos)[k].argsStart
      <= Sites(content, pos)[k].argsEnd <= |content|
    ensures forall k :: 0 <= k < |Sites(content, pos)| - 1 ==>
      Sites(content, pos)[k].argsEnd <= Sites(content, pos)[k + 1].marker
    decreases |content| - pos
  {
    match FindMarker(content, pos)
    case None =>
    case Some(m) =>
      var a := ArgsStart(content, m);
      var sp := Span(content, a);
      SitesOrdered(content, sp.1);
      var s := Sites(content, pos);
      var t := Sites(content, sp.1);
      assert s == [Site(m, a, sp.0, sp.1, MatchDecl(Window(content, sp.1)))] + t;
      forall k | 0 <= k < |s|
        ensures pos <= s[k].marker < s[k].argsStart <= s[k].argsEnd <= |content|
      {
        if k > 0 {
          assert s[k] == t[k - 1];
        }
      }
      forall k | 0 <= k < |s| - 1
        ensures s[k].argsEnd <= s[k + 1].marker
      {
        assert s[k + 1] == t[k];
        if k > 0 {
          assert s[k] == t[k - 1];
        }
      }
  }

  /** Nothing is missed: every marker at or after `pos` is either a site's own
      marker or lies inside the argument span of an earlier site. */
  lemma {:induction false} SitesCover(content: string, pos: nat, m: nat)
    requires pos <= m && MarkerAt(content, m)
    requires pos <= |content|
    ensures exists k :: (0 <= k < |Sites(content, pos)|
      && Sites(content, pos)[k].marker <= m < Sites(content, pos)[k].argsEnd)
    decreases |content| - pos
  {
    FindMarkerLeftmost(content, pos, m);
    var s := Sites(content, pos);
    var m0 := FindMarker(content, pos).value;
    var sp := Span(content, ArgsStart(content, m0));
    assert s == [Site(m0, ArgsStart(content, m0), sp.0, sp.1, MatchDecl(Window(content, sp.1)))]
      + Sites(content, sp.1);
    if m < sp.1 {
      assert s[0].marker <= m < s[0].argsEnd;
    } else {
      SitesCover(content, sp.1, m);
      var t := Sites(content, sp.1);
      var k :| 0 <= k < |t| && t[k].marker <= m < t[k].argsEnd;
      assert s[k + 1] == t[k];
    }
  }

  /** The `(metadata, type, name)` triple the scanner reports. */
  datatype RawDecl = RawDecl(metadata: string, ty: string, name: string)

  /** The triples of the sites that have a declaration; a site whose lookahead
      window holds no `type name` followed by a terminator is skipped. */
  function DeclsOf(sites: seq<Site>): (r: seq<RawDecl>)
    ensures |r| <= |sites|
  {
    if sites == [] then []
    else match sites[0].decl
      case Some(d) => [RawDecl(sites[0].args, d.ty, d.name)] + DeclsOf(sites[1..])
      case None => DeclsOf(sites[1..])
  }

  lemma {:induction false} DeclsOfAppend(a: seq<Site>, b: seq<Site>)
    ensures DeclsOf(a + b) == DeclsOf(a) + DeclsOf(b)
  {
    if a == [] {
      assert a + b == b;
    } else {
      assert (a + b)[1..] == a[1..] + b;
      DeclsOfAppend(a[1..], b);
    }
  }

  /** All declarations of a header, in source order. */
  function PropertyDecls(content: string): seq<RawDecl>
  {
    DeclsOf(Sites(content, 0))
  }

  /** The scanner loop of the source: search, extract, match the lookahead,
      resume after the span. */
  method ParseUPropertyDeclarations(content: string) returns (results: seq<RawDecl>)
    ensures results == PropertyDecls(content)
  {
    results := [];
    var pos := 0;
    while true
      invariant pos <= |content|
      invariant results + DeclsOf(Sites(content, pos)) == PropertyDecls(content)
      decreases |content| - pos
    {
      var found := FindMarker(content, pos);
      if found.None? {
        break;
      }
      var metadataStart := ArgsStart(content, found.value);
      var metadata, metadataEnd := ExtractBalancedParens(content, metadataStart);
      var varMatch := MatchDecl(Window(content, metadataEnd));
      var site := Site(found.value, metadataStart, metadata, metadataEnd, varMatch);
      assert Sites(content, pos) == [site] + Sites(content, metadataEnd);
      DeclsOfAppend([site], Sites(content, metadataEnd));
      if varMatch.Some? {
        results := results + [RawDecl(metadata, varMatch.value.ty, varMatch.value.name)];
      }
      pos := metadataEnd;
    }
  }

  // ---------------------------------------------------------------------------
  // Metadata interpretation (HeaderParser._parse_property, _parse_function)
  // ---------------------------------------------------------------------------

  /** `"([^"]+)"` at index `b`: the non-empty text up to the next quotation mark. */
  function QuotedAt(meta: string, b: nat): (r: Option<string>)
    requires b <= |meta|
    ensures r.Some? ==> |r.value| > 0
  {
    if b < |meta| && meta[b] == '"' then
      var c := IndexOfChar(meta, '"', b + 1);
      if c < |meta| && c > b + 1 then Some(meta[b + 1..c]) else None
    else None
  }

  /** The quoted value holds no quotation mark. */
  lemma QuotedAtNoQuote(meta: string, b: nat)
    requires b <= |meta| && QuotedAt(meta, b).Some?
    ensures '"' !in QuotedAt(meta, b).value
  {
    var c := IndexOfChar(meta, '"', b + 1);
    IndexOfCharFirst(meta, '"', b + 1);
    var v := meta[b + 1..c];
    forall j | 0 <= j < |v| ensures v[j] != '"' {
      assert v[j] == meta[b + 1 + j];
    }
  }

  /** `key\s*=\s*"([^"]+)"` matched at index `i`. */
  function KeyValueAt(meta: string, key: string, i: nat): (r: Option<string>)
    requires i <= |meta|
    ensures r.Some? ==> |r.value| > 0
  {
    if i + |key| <= |meta| && meta[i..i + |key|] == key then
      var a := SkipSpaces(meta, i + |key|);
      if a < |meta| && meta[a] == '=' then QuotedAt(meta, SkipSpaces(meta, a + 1)) else None
    else None
  }

  /** `re.search(key + r'\s*=\s*"([^"]+)"', meta)` from index `i`: the value of
      the leftmost match. */
  function KeyValueFrom(meta: string, key: string, i: nat): (r: Option<string>)
    requires i <= |meta|
    ensures r.Some? ==> |r.value| > 0
    decreases |meta| - i
  {
    var v := KeyValueAt(meta, key, i);
    if v.Some? then v else if i < |meta| then KeyValueFrom(meta, key, i + 1) else None
  }

  /** The value found holds no quotation mark (the `[^"]+` group). */
  lemma {:induction false} KeyValueFromNoQuote(meta: string, key: string, i: nat)
    requires i <= |meta|
    requires KeyValueFrom(meta, key, i).Some?
    ensures '"' !in KeyValueFrom(meta, key, i).value
    decreases |meta| - i
  {
    if KeyValueAt(meta, key, i).Some? {
      var a := SkipSpaces(meta, i + |key|);
      QuotedAtNoQuote(meta, SkipSpaces(meta, a + 1));
    } else {
      KeyValueFromNoQuote(meta, key, i + 1);
    }
  }

  function KeyValue(meta: string, key: string): Option<string>
  {
    KeyValueFrom(meta, key, 0)
  }

  predicate AllDigits(s: string)
  {
    forall k :: 0 <= k < |s| ==> IsDigit(s[k])
  }

  function Pow10(n: nat): (r: nat)
    ensures r >= 1
  {
    if n == 0 then 1 else 10 * Pow10(n - 1)
  }

  /** Unsigned decimal text `ddd`, `ddd.ddd`, `ddd.` or `.ddd`. */
  function ParseUnsignedDecimal(s: string): (r: Option<real>)
    ensures r.Some? ==> r.value >= 0.0
  {
    var k := IndexOfChar(s, '.', 0);
    var ip := s[..k];
    var fp := if k < |s| then s[k + 1..] else [];
    if AllDigits(ip) && AllDigits(fp) && |ip| + |fp| > 0
    then Some(DigitsValue(ip) as real + DigitsValue(fp) as real / Pow10(|fp|) as real)
    else None
  }

  /** Python's `float(s)` restricted to optionally signed decimal text
      (`12`, `-1.5`, `.5`, `3.`); `None` for everything else, which includes
      the exponent, `inf`, `nan` and underscore forms that `float()` also
      reads. */
  function ParseFloat(s: string): Option<real>
  {
    var t := Strip(s);
    if |t| > 0 && (t[0] == '-' || t[0] == '+') then
      match ParseUnsignedDecimal(t[1..])
      case Some(v) => Some(if t[0] == '-' then -v else v)
      case None => None
    else ParseUnsignedDecimal(t)
  }

  /** The two stripped bounds of a `Range="min,max"` value that splits into
      exactly two comma parts. */
  function RangeParts(meta: string): (r: Option<(string, string)>)
  {
    match KeyValue(meta, "Range")
    case None => None
    case Some(v) =>
      var parts := Split(v, ',');
      if |parts| == 2 then Some((Strip(parts[0]), Strip(parts[1]))) else None
  }

  /** A two-part range one of whose bounds is not a number: `float()` raises. */
  predicate BadRange(meta: string)
  {
    RangeParts(meta).Some?
    && (ParseFloat(RangeParts(meta).value.0).None? || ParseFloat(RangeParts(meta).value.1).None?)
  }

  /** What `_parse_property` makes of a scanned declaration. */
  predicate PropertyParsed(d: RawDecl, p: Property)
  {
    p.name == d.name && p.ty == d.ty
    && p.category == ValueOr(KeyValue(d.metadata, "Category"), "")
    && (p.editable <==> Contains(d.metadata, "EditAnywhere"))
    && p.tooltip == ValueOr(KeyValue(d.metadata, "Tooltip"), "")
    && (p.hasRange <==> RangeParts(d.metadata).Some?)
    && (p.hasRange ==>
          ParseFloat(RangeParts(d.metadata).value.0) == Some(p.minValue)
          && ParseFloat(RangeParts(d.metadata).value.1) == Some(p.maxValue))
    && (!p.hasRange ==> p.minValue == 0.0 && p.maxValue == 0.0)
  }

  /** The range bounds of the metadata: none without a two-part `Range`, the
      two numbers when both parse, and the `ValueError` of `float()` when one
      does not. */
  function RangeBounds(meta: string): Result<Option<(real, real)>>
  {
    match RangeParts(meta)
    case None => Ok(None)
    case Some(parts) =>
      if ParseFloat(parts.0).Some? && ParseFloat(parts.1).Some? then
        Ok(Some((ParseFloat(parts.0).value, ParseFloat(parts.1).value)))
      else Err("could not convert string to float")
  }

  /** `_parse_property` once the range bounds are known: starts from the
      dataclass defaults and overwrites one field at a time. */
  function PropertyWith(d: RawDecl, bounds: Option<(real, real)>): Property
  {
    var p0 := Property(d.name, d.ty, "", true, "", 0.0, 0.0, false);
    var category := KeyValue(d.metadata, "Category");
    var p1 := if category.Some? then p0.(category := category.value) else p0;
    var p2 := p1.(editable := Contains(d.metadata, "EditAnywhere"));
    var p3 := if bounds.Some?
      then p2.(hasRange := true, minValue := bounds.value.0, maxValue := bounds.value.1)
      else p2;
    var tooltip := KeyValue(d.metadata, "Tooltip");
    if tooltip.Some? then p3.(tooltip := tooltip.value) else p3
  }

  /** `_parse_property`: a two-part range with a non-numeric bound makes
      `float()` raise `ValueError`. */
  function PropertyOf(d: RawDecl): Result<Property>
  {
    match RangeBounds(d.metadata)
    case Err(e) => Err(e)
    case Ok(bounds) => Ok(PropertyWith(d, bounds))
  }

  /** The bounds fail exactly on a bad range; otherwise they are present
      exactly when a two-part range is, and are its two numbers. */
  lemma RangeBoundsMeaning(meta: string)
    ensures RangeBounds(meta).Err? <==> BadRange(meta)
    ensures RangeBounds(meta).Ok? ==>
      (RangeBounds(meta).value.Some? <==> RangeParts(meta).Some?)
      && (RangeBounds(meta).value.Some? ==>
            ParseFloat(RangeParts(meta).value.0) == Some(RangeBounds(meta).value.value.0)
            && ParseFloat(RangeParts(meta).value.1) == Some(RangeBounds(meta).value.value.1))
  {
  }

  /** The property fails exactly on a bad range bound; otherwise it is the
      declaration's name and type with the metadata's values or the defaults. */
  lemma PropertyOfMeaning(d: RawDecl)
    ensures PropertyOf(d).Err? <==> BadRange(d.metadata)
    ensures PropertyOf(d).Ok? ==> PropertyParsed(d, PropertyOf(d).value)
  {
    RangeBoundsMeaning(d.metadata);
  }

  /** Index of the last whitespace character of `s` before `j`, or -1. */
  function LastSpace(s: string, j: nat): (r: int)
    requires j <= |s|
    ensures -1 <= r < j
    ensures r >= 0 ==> IsSpace(s[r])
  {
    if j == 0 then -1
    else if IsSpace(s[j - 1]) then j - 1
    else LastSpace(s, j - 1)
  }

  /** Nothing after the index found is whitespace. */
  lemma {:induction false} LastSpaceIsLast(s: string, j: nat)
    requires j <= |s|
    ensures forall k :: LastSpace(s, j) < k < j ==> !IsSpace(s[k])
  {
    if j > 0 && !IsSpace(s[j - 1]) {
      LastSpaceIsLast(s, j - 1);
    }
  }

  /** `param.rsplit(None, 1)` on a stripped segment, kept only when it gives
      two parts: the type before the last whitespace run, the name after it. */
  function SplitParam(seg: string): (r: Option<Parameter>)
    ensures r.Some? ==> |r.value.name| > 0 && |r.value.ty| > 0
  {
    var j := LastSpace(seg, |seg|);
    if j < 0 || j + 1 == |seg| then None
    else
      var e := TrimEndIndex(seg, j);
      if e == 0 then None else Some(Parameter(seg[j + 1..], seg[..e]))
  }

  /** The name read from a segment holds no whitespace. */
  lemma SplitParamNameHasNoSpace(seg: string)
    requires SplitParam(seg).Some?
    ensures forall k :: 0 <= k < |SplitParam(seg).value.name| ==> !IsSpace(SplitParam(seg).value.name[k])
  {
    var j := LastSpace(seg, |seg|);
    LastSpaceIsLast(seg, |seg|);
    var name := seg[j + 1..];
    forall k | 0 <= k < |name| ensures !IsSpace(name[k]) {
      assert name[k] == seg[j + 1 + k];
    }
  }

  /** A parameter read from a segment gives the segment back: its type, a
      non-empty whitespace run, and its name. */
  lemma SplitParamRejoin(seg: string)
    requires SplitParam(seg).Some?
    ensures exists w :: (|w| > 0 && (forall k :: 0 <= k < |w| ==> IsSpace(w[k]))
      && seg == SplitParam(seg).value.ty + w + SplitParam(seg).value.name)
  {
    var j := LastSpace(seg, |seg|);
    var e := TrimEndIndex(seg, j);
    TrimEndIndexTrimsSpaces(seg, j);
    var w := seg[e..j + 1];
    forall k | 0 <= k < |w| ensures IsSpace(w[k]) {
      assert w[k] == seg[e + k];
    }
    assert seg == seg[..e] + w + seg[j + 1..];
  }

  /** What one comma segment gives: `param.strip()`, then `rsplit`. */
  function ParseSegment(seg: string): Option<Parameter>
  {
    SplitParam(Strip(seg))
  }

  /** The parameters `parse` reads from the first `n` segments, in order, one
      for each segment it accepts. */
  function SegmentParams(segs: seq<string>, n: nat, parse: string -> Option<Parameter>): (r: seq<Parameter>)
    requires n <= |segs|
    ensures |r| <= n
  {
    if n == 0 then [] else SegmentParams(segs, n - 1, parse) + OptionToSeq(parse(segs[n - 1]))
  }

  function OptionToSeq<T>(o: Option<T>): (r: seq<T>)
    ensures o.Some? ==> r == [o.value]
    ensures o.None? ==> r == []
  {
    match o
    case Some(v) => [v]
    case None => []
  }

  /** One more segment adds its parameter, when it has one, at the end. */
  lemma SegmentParamsStep(segs: seq<string>, i: nat)
    requires i < |segs|
    ensures SegmentParams(segs, i + 1, ParseSegment) == SegmentParams(segs, i, ParseSegment) + OptionToSeq(ParseSegment(segs[i]))
  {
  }

  /** Parameters split naively on every comma, as the source does. */
  function ParamsOf(paramsText: string): seq<Parameter>
  {
    if Strip(paramsText) == [] then []
    else SegmentParams(Split(paramsText, ','), |Split(paramsText, ',')|, ParseSegment)
  }

  /** There are never more parameters than comma-separated segments. */
  lemma ParamsBound(paramsText: string)
    ensures |ParamsOf(paramsText)| <= CountChar(paramsText, ',') + 1
  {
    SplitCount(paramsText, ',');
  }

  /** What `_parse_function` makes of a matched `UFUNCTION` declaration. */
  predicate FunctionParsed(name: string, returnType: string, paramsText: string, metadata: string,
                           isConst: bool, f: Function)
  {
    f.name == name && f.returnType == returnType && f.isConst == isConst
    && f.displayName == ValueOr(KeyValue(metadata, "DisplayName"), name)
    && (f.luaBind <==> Contains(metadata, "LuaBind"))
    && f.parameters == ParamsOf(paramsText)
  }

  /** The parameter loop of `_parse_function` over the comma segments: one
      parameter per segment that splits into a type and a name. */
  method ParseSegments(segments: seq<string>) returns (parameters: seq<Parameter>)
    ensures parameters == SegmentParams(segments, |segments|, ParseSegment)
  {
    parameters := [];
    var i := 0;
    while i < |segments|
      invariant 0 <= i <= |segments|
      invariant parameters == SegmentParams(segments, i, ParseSegment)
    {
      SegmentParamsStep(segments, i);
      parameters := parameters + OptionToSeq(ParseSegment(segments[i]));
      i := i + 1;
    }
  }

  /** The parameters of `_parse_function`: none for blank text, else those of
      the comma segments. */
  method ParseParameters(paramsText: string) returns (parameters: seq<Parameter>)
    ensures parameters == ParamsOf(paramsText)
  {
    parameters := [];
    if Strip(paramsText) != [] {
      parameters := ParseSegments(Split(paramsText, ','));
    }
  }

  /** `_parse_function`: display name defaults to the name, and the Lua flag is
      set when `LuaBind` occurs anywhere in the metadata. */
  method ParseFunction(name: string, returnType: string, paramsText: string, metadata: string, isConst: bool)
    returns (f: Function)
    ensures FunctionParsed(name, returnType, paramsText, metadata, isConst, f)
  {
    f := Function(name, name, returnType, [], isConst, false);
    var displayMatch := KeyValue(metadata, "DisplayName");
    if displayMatch.Some? {
      f := f.(displayName := displayMatch.value);
    }
    f := f.(luaBind := Contains(metadata, "LuaBind"));
    var parameters := ParseParameters(paramsText);
    f := f.(parameters := parameters);
  }

  /** `Function.get_parameter_types_string`: empty without parameters, else a
      leading `, ` and the types joined with `, `. */
  function ParameterTypesString(f: Function): string
  {
    if f.parameters == [] then "" else ", " + Join(TypesOf(f.parameters), ", ")
  }

  function TypesOf(ps: seq<Parameter>): (r: seq<string>)
    ensures |r| == |ps| && forall k :: 0 <= k < |ps| ==> r[k] == ps[k].ty
  {
    if ps == [] then [] else [ps[0].ty] + TypesOf(ps[1..])
  }

  lemma JoinStartsWithFirst(parts: seq<string>, sep: string)
    requires |parts| >= 1
    ensures |Join(parts, sep)| >= |parts[0]| && Join(parts, sep)[..|parts[0]|] == parts[0]
  {
  }

  /** The type list is empty exactly when there are no parameters; otherwise it
      begins with `, ` and the first parameter's type. */
  lemma ParameterTypesStringShape(f: Function)
    ensures ParameterTypesString(f) == "" <==> f.parameters == []
    ensures f.parameters != [] ==>
      |ParameterTypesString(f)| >= 2 + |f.parameters[0].ty|
      && ParameterTypesString(f)[..2] == ", "
      && ParameterTypesString(f)[2..2 + |f.parameters[0].ty|] == f.parameters[0].ty
  {
    if f.parameters != [] {
      var types := TypesOf(f.parameters);
      JoinStartsWithFirst(types, ", ");
      var s := ParameterTypesString(f);
      assert s == ", " + Join(types, ", ");
      assert s[2..] == Join(types, ", ");
    }
  }

  /** A segment without a comma yields a parameter without one. */
  lemma SplitParamKeepsOut(seg: string, ch: char)
    requires ch !in seg && SplitParam(seg).Some?
    ensures ch !in SplitParam(seg).value.ty && ch !in SplitParam(seg).value.name
  {
    var j := LastSpace(seg, |seg|);
    var e := TrimEndIndex(seg, j);
    var ty := seg[..e];
    var name := seg[j + 1..];
    forall k | 0 <= k < |ty| ensures ty[k] != ch {
      assert ty[k] == seg[k];
    }
    forall k | 0 <= k < |name| ensures name[k] != ch {
      assert name[k] == seg[j + 1 + k];
    }
  }

  /** No type and no name in `ps` holds `ch`. */
  predicate ParamsFree(ps: seq<Parameter>, ch: char)
  {
    forall k :: 0 <= k < |ps| ==> ch !in ps[k].ty && ch !in ps[k].name
  }

  lemma ParamsFreeAppend(a: seq<Parameter>, b: seq<Parameter>, ch: char)
    requires ParamsFree(a, ch) && ParamsFree(b, ch)
    ensures ParamsFree(a + b, ch)
  {
    forall k | 0 <= k < |a + b| ensures ch !in (a + b)[k].ty && ch !in (a + b)[k].name {
      if k < |a| {
        assert (a + b)[k] == a[k];
      } else {
        assert (a + b)[k] == b[k - |a|];
      }
    }
  }

  lemma SegmentKeepsOut(seg: string, ch: char)
    requires ch !in seg
    ensures ParamsFree(OptionToSeq(ParseSegment(seg)), ch)
  {
    StripKeepsOut(seg, ch);
    if SplitParam(Strip(seg)).Some? {
      SplitParamKeepsOut(Strip(seg), ch);
    }
  }

  /** Whatever the per-segment reader, the parameters collected are free of a
      character when each segment's contribution is. */
  lemma {:induction false} SegmentParamsKeepOut(segs: seq<string>, n: nat, parse: string -> Option<Parameter>, ch: char)
    requires n <= |segs|
    requires forall k :: 0 <= k < |segs| ==> ParamsFree(OptionToSeq(parse(segs[k])), ch)
    ensures ParamsFree(SegmentParams(segs, n, parse), ch)
  {
    if n > 0 {
      SegmentParamsKeepOut(segs, n - 1, parse, ch);
      ParamsFreeAppend(SegmentParams(segs, n - 1, parse), OptionToSeq(parse(segs[n - 1])), ch);
    }
  }

  /** Splitting is naive: the text is cut at every comma, so no parameter type
      or name holds a comma, even one inside a template argument list such as
      `TMap<int, float>`. */
  lemma NaiveParameterSplit(paramsText: string)
    ensures ParamsFree(ParamsOf(paramsText), ',')
  {
    if Strip(paramsText) != [] {
      var segs := Split(paramsText, ',');
      SplitNoSeparator(paramsText, ',');
      forall k | 0 <= k < |segs| ensures ParamsFree(OptionToSeq(ParseSegment(segs[k])), ',') {
        SegmentKeepsOut(segs[k], ',');
      }
      SegmentParamsKeepOut(segs, |segs|, ParseSegment, ',');
    }
  }

  // ---------------------------------------------------------------------------
  // UFUNCTION matching (UFUNCTION_PATTERN.finditer in parse_header)
  // ---------------------------------------------------------------------------

  /** A match of
      `UFUNCTION\s*\((.*?)\)\s*(.*?)\s+(\w+)\s*\((.*?)\)\s*(const)?\s*[;{]`
      (dot matches newline) spanning `[start, end)`. */
  datatype FuncMatch = FuncMatch(
    start: nat, end: nat, metadata: string, returnType: string, name: string,
    params: string, isConst: bool)

  /** The tail after the parameter list: `\s*(const)?\s*[;{]`. */
  datatype Tail = Tail(isConst: bool, end: nat)

  function ConstTail(c: string, j0: nat): (r: Option<Tail>)
    requires j0 <= |c|
    ensures r.Some? ==> j0 < r.value.end <= |c|
  {
    var j := SkipSpaces(c, j0);
    if j < |c| && (c[j] == ';' || c[j] == '{') then Some(Tail(false, j + 1))
    else if StartsAt(c, j, "const") then
      var k := SkipSpaces(c, j + 5);
      if k < |c| && (c[k] == ';' || c[k] == '{') then Some(Tail(true, k + 1)) else None
    else None
  }

  /** The lazy parameter group: the first `)` at or after `i` whose tail
      matches. */
  datatype ParamsEnd = ParamsEnd(close: nat, tail: Tail)

  function ParamsClose(c: string, i: nat): (r: Option<ParamsEnd>)
    requires i <= |c|
    ensures r.Some? ==> i <= r.value.close < r.value.tail.end <= |c|
    decreases |c| - i
  {
    if i == |c| then None
    else if c[i] == ')' then
      match ConstTail(c, i + 1)
      case Some(t) => Some(ParamsEnd(i, t))
      case None => ParamsClose(c, i + 1)
    else ParamsClose(c, i + 1)
  }

  /** Name and parameter list after a return type ending at `e`:
      `\s+(\w+)\s*\((.*?)\)...`. */
  datatype Signature = Signature(nameStart: nat, nameEnd: nat, paramsStart: nat, pe: ParamsEnd)

  function SignatureAt(c: string, e: nat): (r: Option<Signature>)
    requires e <= |c|
    ensures r.Some? ==> e < r.value.nameStart < r.value.nameEnd < r.value.paramsStart
                        <= r.value.pe.close < r.value.pe.tail.end <= |c|
  {
    if e < |c| && IsSpace(c[e]) then
      var f := SkipSpaces(c, e);
      var g := SkipWord(c, f);
      var h := SkipSpaces(c, g);
      if g > f && h < |c| && c[h] == '(' then
        match ParamsClose(c, h + 1)
        case Some(pe) => Some(Signature(f, g, h + 1, pe))
        case None => None
      else None
    else None
  }

  /** The positions of a match of everything after the metadata lie in order
      between `lo` and `hi`. */
  predicate Within(am: AfterMeta, lo: nat, hi: nat)
  {
    lo <= am.retStart <= am.retEnd < am.sig.nameStart < am.sig.nameEnd < am.sig.paramsStart
    <= am.sig.pe.close < am.sig.pe.tail.end <= hi
  }

  /** The lazy return-type group starting at `b`, tried with ends `e = b, b+1, ...`. */
  datatype AfterMeta = AfterMeta(retStart: nat, retEnd: nat, sig: Signature)

  function ReturnTypeFrom(c: string, b: nat, e: nat): (r: Option<AfterMeta>)
    requires b <= e <= |c|
    ensures r.Some? ==> r.value.retStart == b && Within(r.value, b, |c|)
    decreases |c| - e
  {
    match SignatureAt(c, e)
    case Some(sig) => Some(AfterMeta(b, e, sig))
    case None => if e < |c| then ReturnTypeFrom(c, b, e + 1) else None
  }

  /** The greedy `\s*` after the metadata's `)` at `x - 1`: starts `b` are tried
      from the end of the whitespace run back down to `x`. */
  function AfterMetadata(c: string, x: nat, b: nat): (r: Option<AfterMeta>)
    requires x <= b <= |c|
    ensures r.Some? ==> Within(r.value, x, |c|)
    decreases b - x
  {
    match ReturnTypeFrom(c, b, b)
    case Some(am) => Some(am)
    case None => if b > x then AfterMetadata(c, x, b - 1) else None
  }

  /** The lazy metadata group: the first `)` at or after `i` after which the
      rest matches. */
  function MetaClose(c: string, a: nat, i: nat): (r: Option<(nat, AfterMeta)>)
    requires a <= i <= |c|
    ensures r.Some? ==> i <= r.value.0 && Within(r.value.1, r.value.0 + 1, |c|)
    decreases |c| - i
  {
    if i == |c| then None
    else if c[i] == ')' then
      match AfterMetadata(c, i + 1, SkipSpaces(c, i + 1))
      case Some(am) => Some((i, am))
      case None => MetaClose(c, a, i + 1)
    else MetaClose(c, a, i + 1)
  }

  /** The whole pattern tried at `m`. */
  function MatchFunctionAt(c: string, m: nat): (r: Option<FuncMatch>)
    requires m <= |c|
    ensures r.Some? ==> r.value.start == m < r.value.end <= |c|
  {
    if StartsAt(c, m, "UFUNCTION") then
      var p := SkipSpaces(c, m + 9);
      if p < |c| && c[p] == '(' then
        match MetaClose(c, p + 1, p + 1)
        case Some(found) =>
          var close := found.0;
          var am := found.1;
          var sig := am.sig;
          Some(FuncMatch(m, sig.pe.tail.end, c[p + 1..close], Strip(c[am.retStart..am.retEnd]),
                         c[sig.nameStart..sig.nameEnd], c[sig.paramsStart..sig.pe.close], sig.pe.tail.isConst))
        case None => None
      else None
    else None
  }

  /** The leftmost match at or after `from`. */
  function FindFunction(c: string, from: nat): (r: Option<FuncMatch>)
    requires from <= |c|
    ensures r.Some? ==> from <= r.value.start < r.value.end <= |c|
    decreases |c| - from
  {
    match MatchFunctionAt(c, from)
    case Some(fm) => Some(fm)
    case None => if from < |c| then FindFunction(c, from + 1) else None
  }

  /** `finditer`: successive non-overlapping matches from `from` on. */
  function FunctionMatches(c: string, from: nat): (r: seq<FuncMatch>)
    requires from <= |c|
    decreases |c| - from
  {
    match FindFunction(c, from)
    case None => []
    case Some(fm) => [fm] + FunctionMatches(c, fm.end)
  }

  /** Matches lie inside the text, never overlap and come in source order. */
  lemma {:induction false} FunctionMatchesOrdered(c: string, from: nat)
    requires from <= |c|
    ensures forall k :: 0 <= k < |FunctionMatches(c, from)| ==>
      from <= FunctionMatches(c, from)[k].start < FunctionMatches(c, from)[k].end <= |c|
    ensures forall k :: 0 <= k < |FunctionMatches(c, from)| - 1 ==>
      FunctionMatches(c, from)[k].end <= FunctionMatches(c, from)[k + 1].start
    decreases |c| - from
  {
    var found := FindFunction(c, from);
    if found.Some? {
      var fm := found.value;
      FunctionMatchesOrdered(c, fm.end);
      var r := FunctionMatches(c, from);
      var t := FunctionMatches(c, fm.end);
      assert r == [fm] + t;
      forall k | 0 <= k < |r| ensures from <= r[k].start < r[k].end <= |c| {
        if k > 0 {
          assert r[k] == t[k - 1];
        }
      }
      forall k | 0 <= k < |r| - 1 ensures r[k].end <= r[k + 1].start {
        assert r[k + 1] == t[k];
        if k > 0 {
          assert r[k] == t[k - 1];
        }
      }
    }
  }

  // ---------------------------------------------------------------------------
  // Class record builder (HeaderParser.parse_header, on the text of a header)
  // ---------------------------------------------------------------------------

  const ReflectionMarker: string := "GENERATED_REFLECTION_BODY()"

  /** `class\s+(\w+)\s*:\s*public\s+(\w+)` tried at `m`. */
  function ClassHeaderAt(c: string, m: nat): (r: Option<(string, string)>)
    requires m <= |c|
  {
    if StartsAt(c, m, "class") then
      var a := SkipSpaces(c, m + 5);
      var b := SkipWord(c, a);
      var d := SkipSpaces(c, b);
      if a > m + 5 && b > a && d < |c| && c[d] == ':' then
        var e := SkipSpaces(c, d + 1);
        if StartsAt(c, e, "public") then
          var f := SkipSpaces(c, e + 6);
          var g := SkipWord(c, f);
          if f > e + 6 && g > f then Some((c[a..b], c[f..g])) else None
        else None
      else None
    else None
  }

  /** The first class header of the text: (class name, parent name). */
  function ClassHeaderFrom(c: string, m: nat): Option<(string, string)>
    requires m <= |c|
    decreases |c| - m
  {
    match ClassHeaderAt(c, m)
    case Some(h) => Some(h)
    case None => if m < |c| then ClassHeaderFrom(c, m + 1) else None
  }

  function ClassHeader(c: string): Option<(string, string)>
  {
    ClassHeaderFrom(c, 0)
  }

  /** The identity property inserted ahead of the declared ones for the two
      root classes. */
  function DefaultProperties(className: string): (r: seq<Property>)
    ensures |r| == (if className == "AActor" || className == "UActorComponent" then 1 else 0)
    ensures |r| == 1 ==> r[0].name == "ObjectName" && r[0].ty == "FName" && r[0].editable && !r[0].hasRange
  {
    if className == "AActor" then
      [Property("ObjectName", "FName", "[액터]", true, "액터의 이름입니다", 0.0, 0.0, false)]
    else if className == "UActorComponent" then
      [Property("ObjectName", "FName", "[컴포넌트]", true, "컴포넌트의 이름입니다", 0.0, 0.0, false)]
    else []
  }

  /** Each scanned declaration became the property at the same position. */
  predicate PropertiesParsed(decls: seq<RawDecl>, props: seq<Property>)
  {
    |props| == |decls| && forall k :: 0 <= k < |decls| ==> PropertyParsed(decls[k], props[k])
  }

  /** Each matched `UFUNCTION` declaration became the function at the same position. */
  predicate FunctionsParsed(fms: seq<FuncMatch>, funcs: seq<Function>)
  {
    |funcs| == |fms|
    && forall k :: 0 <= k < |fms| ==> FunctionMatchParsed(fms[k], funcs[k])
  }

  /** The record `parse_header` builds for a reflected header: name and parent
      from the first class header, the root identity property first, then one
      property per declaration and one function per match, in source order. */
  predicate HeaderParsed(content: string, info: ClassInfo)
  {
    ClassHeader(content).Some?
    && info.name == ClassHeader(content).value.0
    && info.parent == ClassHeader(content).value.1
    && |DefaultProperties(info.name)| <= |info.properties|
    && info.properties[..|DefaultProperties(info.name)|] == DefaultProperties(info.name)
    && PropertiesParsed(PropertyDecls(content), info.properties[|DefaultProperties(info.name)|..])
    && FunctionsParsed(FunctionMatches(content, 0), info.functions)
    && !info.isComponent && !info.isSpawnable && info.displayName == "" && info.description == ""
  }

  /** The result of parsing one header: no record (no reflection marker or no
      class header), a record, or the `ValueError` a bad range bound raises. */
  datatype HeaderOutcome = NotReflected | Parsed(info: ClassInfo) | Failed(error: string)

  /** The values `parse` gives for the first `n` elements, in order, or the
      first error among them. */
  function CollectOk<A, B>(xs: seq<A>, n: nat, parse: A -> Result<B>): Result<seq<B>>
    requires n <= |xs|
  {
    if n == 0 then Ok([])
    else
      match CollectOk(xs, n - 1, parse)
      case Err(e) => Err(e)
      case Ok(prefix) =>
        match parse(xs[n - 1])
        case Err(e) => Err(e)
        case Ok(v) => Ok(prefix + [v])
  }

  /** The collection fails exactly when some element fails; otherwise it holds
      each element's value at that element's position. */
  lemma {:induction false} CollectOkMeaning<A, B>(xs: seq<A>, n: nat, parse: A -> Result<B>)
    requires n <= |xs|
    ensures CollectOk(xs, n, parse).Err? <==> exists k :: 0 <= k < n && parse(xs[k]).Err?
    ensures CollectOk(xs, n, parse).Ok? ==>
      |CollectOk(xs, n, parse).value| == n
      && forall k :: 0 <= k < n ==> parse(xs[k]) == Ok(CollectOk(xs, n, parse).value[k])
  {
    if n > 0 {
      CollectOkMeaning(xs, n - 1, parse);
    }
  }

  /** One more element appends its value, or its error replaces the values. */
  lemma CollectOkStep<A, B>(xs: seq<A>, i: nat, parse: A -> Result<B>)
    requires i < |xs| && CollectOk(xs, i, parse).Ok?
    ensures parse(xs[i]).Ok? ==>
      CollectOk(xs, i + 1, parse) == Ok(CollectOk(xs, i, parse).value + [parse(xs[i]).value])
    ensures parse(xs[i]).Err? ==> CollectOk(xs, i + 1, parse) == Err(parse(xs[i]).error)
  {
  }

  /** Once an error occurs, later elements leave it as it is. */
  lemma {:induction false} CollectOkSticky<A, B>(xs: seq<A>, n: nat, m: nat, parse: A -> Result<B>)
    requires n <= m <= |xs|
    requires CollectOk(xs, n, parse).Err?
    ensures CollectOk(xs, m, parse) == CollectOk(xs, n, parse)
  {
    if n < m {
      CollectOkSticky(xs, n, m - 1, parse);
    }
  }

  /** The properties of a header fail exactly on a bad range bound, and are
      otherwise one parsed property per declaration. */
  lemma PropertiesOfMeaning(decls: seq<RawDecl>)
    ensures CollectOk(decls, |decls|, PropertyOf).Err? <==>
      exists k :: 0 <= k < |decls| && BadRange(decls[k].metadata)
    ensures CollectOk(decls, |decls|, PropertyOf).Ok? ==>
      PropertiesParsed(decls, CollectOk(decls, |decls|, PropertyOf).value)
  {
    CollectOkMeaning(decls, |decls|, PropertyOf);
    forall k | 0 <= k < |decls|
      ensures PropertyOf(decls[k]).Err? <==> BadRange(decls[k].metadata)
      ensures PropertyOf(decls[k]).Ok? ==> PropertyParsed(decls[k], PropertyOf(decls[k]).value)
    {
      PropertyOfMeaning(decls[k]);
    }
  }

  /** A loop that parses each element in order and stops at the first
      exception, which then propagates. */
  method ParseEach<A, B>(xs: seq<A>, parse: A -> Result<B>) returns (r: Result<seq<B>>)
    ensures r == CollectOk(xs, |xs|, parse)
  {
    var values := [];
    var i := 0;
    while i < |xs|
      invariant 0 <= i <= |xs|
      invariant CollectOk(xs, i, parse) == Ok(values)
    {
      var v := parse(xs[i]);
      CollectOkStep(xs, i, parse);
      if v.Err? {
        CollectOkSticky(xs, i + 1, |xs|, parse);
        return Err(v.error);
      }
      values := values + [v.value];
      i := i + 1;
    }
    r := Ok(values);
  }

  /** The property loop of `parse_header`: one property per declaration, in
      order; the first bad range bound aborts the whole header. */
  method ParseProperties(decls: seq<RawDecl>) returns (r: Result<seq<Property>>)
    ensures r == CollectOk(decls, |decls|, PropertyOf)
  {
    r := ParseEach(decls, PropertyOf);
  }

  /** `f` applied to the first `n` elements, in order. */
  function MapPrefix<A, B>(xs: seq<A>, n: nat, f: A -> B): (r: seq<B>)
    requires n <= |xs|
    ensures |r| == n
  {
    if n == 0 then [] else MapPrefix(xs, n - 1, f) + [f(xs[n - 1])]
  }

  lemma {:induction false} MapPrefixAt<A, B>(xs: seq<A>, n: nat, f: A -> B)
    requires n <= |xs|
    ensures forall k :: 0 <= k < n ==> MapPrefix(xs, n, f)[k] == f(xs[k])
  {
    if n > 0 {
      MapPrefixAt(xs, n - 1, f);
    }
  }

  /** A loop appending `f` of each element in turn. */
  method MapAll<A, B>(xs: seq<A>, f: A -> B) returns (ys: seq<B>)
    ensures ys == MapPrefix(xs, |xs|, f)
  {
    ys := [];
    var i := 0;
    while i < |xs|
      invariant 0 <= i <= |xs|
      invariant ys == MapPrefix(xs, i, f)
    {
      ys := ys + [f(xs[i])];
      i := i + 1;
    }
  }

  /** `f` applied to the first `n` elements, each written after `sep`: the
      output of a template loop whose body starts a new line. */
  function SuffixLines<A>(xs: seq<A>, n: nat, f: A -> string, sep: string): string
    requires n <= |xs|
  {
    if n == 0 then "" else SuffixLines(xs, n - 1, f, sep) + sep + f(xs[n - 1])
  }

  /** Joining further mapped elements onto a non-empty list appends them, each
      after the separator. */
  lemma {:induction false} JoinMapPrefix<A>(prefix: seq<string>, xs: seq<A>, n: nat, f: A -> string, sep: string)
    requires |prefix| >= 1 && n <= |xs|
    ensures Join(prefix + MapPrefix(xs, n, f), sep) == Join(prefix, sep) + SuffixLines(xs, n, f, sep)
  {
    if n > 0 {
      var lines := MapPrefix(xs, n - 1, f);
      JoinMapPrefix(prefix, xs, n - 1, f, sep);
      assert prefix + MapPrefix(xs, n, f) == (prefix + lines) + [f(xs[n - 1])];
      JoinSnoc(prefix + lines, f(xs[n - 1]), sep);
    } else {
      assert prefix + MapPrefix(xs, n, f) == prefix;
    }
  }

  /** The record `_parse_function` returns for one match. */
  function FunctionOf(fm: FuncMatch): Function
  {
    Function(fm.name, ValueOr(KeyValue(fm.metadata, "DisplayName"), fm.name), fm.returnType,
             ParamsOf(fm.params), fm.isConst, Contains(fm.metadata, "LuaBind"))
  }

  predicate FunctionMatchParsed(fm: FuncMatch, f: Function)
  {
    FunctionParsed(fm.name, fm.returnType, fm.params, fm.metadata, fm.isConst, f)
  }

  /** The description of a parsed function fixes every field of the record. */
  lemma FunctionParsedUnique(fm: FuncMatch, f: Function)
    ensures FunctionMatchParsed(fm, f) <==> f == FunctionOf(fm)
  {
  }

  /** The `finditer` loop of `parse_header`: one function per match, in order. */
  method ParseFunctions(fms: seq<FuncMatch>) returns (funcs: seq<Function>)
    ensures FunctionsParsed(fms, funcs)
  {
    funcs := [];
    var j := 0;
    while j < |fms|
      invariant 0 <= j <= |fms|
      invariant funcs == MapPrefix(fms, j, FunctionOf)
    {
      var func := ParseFunction(fms[j].name, fms[j].returnType, fms[j].params, fms[j].metadata, fms[j].isConst);
      FunctionParsedUnique(fms[j], func);
      funcs := funcs + [func];
      j := j + 1;
    }
    MapPrefixAt(fms, |fms|, FunctionOf);
    forall k | 0 <= k < |fms| ensures FunctionMatchParsed(fms[k], funcs[k]) {
      FunctionParsedUnique(fms[k], funcs[k]);
    }
  }

  /** `parse_header` on the text of one header. */
  method ParseHeader(content: string) returns (r: HeaderOutcome)
    ensures r.NotReflected? <==> !Contains(content, ReflectionMarker) || ClassHeader(content).None?
    ensures r.Failed? <==>
      Contains(content, ReflectionMarker) && ClassHeader(content).Some?
      && exists k :: 0 <= k < |PropertyDecls(content)| && BadRange(PropertyDecls(content)[k].metadata)
    ensures r.Parsed? ==> HeaderParsed(content, r.info)
  {
    if !Contains(content, ReflectionMarker) {
      return NotReflected;
    }
    var header := ClassHeader(content);
    if header.None? {
      return NotReflected;
    }
    var className := header.value.0;
    var decls := ParseUPropertyDeclarations(content);
    var props := ParseProperties(decls);
    PropertiesOfMeaning(decls);
    if props.Err? {
      return Failed(props.error);
    }
    var funcs := ParseFunctions(FunctionMatches(content, 0));
    var defaults := DefaultProperties(className);
    assert (defaults + props.value)[|defaults|..] == props.value;
    r := Parsed(ClassInfo(className, header.value.1, defaults + props.value, funcs, false, false, "", ""));
  }
}
