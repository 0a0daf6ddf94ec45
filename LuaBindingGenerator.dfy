/** The Lua binding emitter of the build tools
    (BuildTools/CodeGenerator/lua_generator.py): every property and every
    function flagged `LuaBind` of a class becomes one registration entry
    between `LUA_BIND_BEGIN(name)` and `LUA_BIND_END()`.

    The template is modelled as the string it renders to: a tag written `{%-`
    drops the whitespace before it, and the renderer drops the template's final
    newline. */
module LuaBindingGenerator {
  import opened Text
  import opened CodeGenParser

  // ---------------------------------------------------------------------------
  // Property information
  // ---------------------------------------------------------------------------

  /** `re.search(r'TArray<\s*(\w+)\s*\*\s*>', s)` tried at `i` only: the word
      captured when the pattern matches there. The spaces before the word and
      the word itself are taken greedily; nothing can be given back, since a
      word character is neither a space nor `*`. */
  function ArrayPtrAt(s: string, i: nat): Option<string>
    requires i <= |s|
  {
    if !StartsAt(s, i, "TArray<") then None
    else
      var j := SkipSpaces(s, i + 7);
      var k := SkipWord(s, j);
      if k == j then None
      else
        var m := SkipSpaces(s, k);
        if m < |s| && s[m] == '*' then
          var e := SkipSpaces(s, m + 1);
          if e < |s| && s[e] == '>' then Some(s[j..k]) else None
        else None
  }

  /** The search from `i`: the match at the leftmost position that has one. */
  function ArrayPtrFrom(s: string, i: nat): Option<string>
    requires i <= |s|
    decreases |s| - i
  {
    if i == |s| then None
    else if ArrayPtrAt(s, i).Some? then ArrayPtrAt(s, i)
    else ArrayPtrFrom(s, i + 1)
  }

  /** A captured element name is a non-empty run of word characters. */
  lemma ArrayPtrAtWord(s: string, i: nat)
    requires i <= |s| && ArrayPtrAt(s, i).Some?
    ensures ArrayPtrAt(s, i).value != []
    ensures forall c :: c in ArrayPtrAt(s, i).value ==> IsWordChar(c)
  {
    var j := SkipSpaces(s, i + 7);
    SkipWordSkipsWord(s, j);
    var w := s[j..SkipWord(s, j)];
    forall c | c in w ensures IsWordChar(c) {
      var k :| 0 <= k < |w| && w[k] == c;
      assert w[k] == s[j + k];
    }
  }

  /** The search reports the leftmost match: nothing matches before the
      position it reports, and nothing matches anywhere when it reports
      nothing. */
  lemma {:induction false} ArrayPtrFromLeftmost(s: string, i: nat)
    requires i <= |s|
    ensures ArrayPtrFrom(s, i).None? ==> forall k :: i <= k < |s| ==> ArrayPtrAt(s, k).None?
    ensures ArrayPtrFrom(s, i).Some? ==>
      (exists k :: i <= k < |s| && ArrayPtrAt(s, k) == ArrayPtrFrom(s, i)
        && forall j :: i <= j < k ==> ArrayPtrAt(s, j).None?)
    decreases |s| - i
  {
    if i < |s| && ArrayPtrAt(s, i).None? {
      ArrayPtrFromLeftmost(s, i + 1);
      if ArrayPtrFrom(s, i).Some? {
        var k :| i + 1 <= k < |s| && ArrayPtrAt(s, k) == ArrayPtrFrom(s, i + 1)
          && forall j :: i + 1 <= j < k ==> ArrayPtrAt(s, j).None?;
        assert forall j :: i <= j < k ==> ArrayPtrAt(s, j).None?;
      }
    }
  }

  /** `TArray<W*>` for a word `W` is read back as `W`. */
  lemma ArrayPtrAtWritten(w: string)
    requires w != [] && forall c :: c in w ==> IsWordChar(c)
    ensures ArrayPtrAt("TArray<" + w + "*>", 0) == Some(w)
  {
    var s := "TArray<" + w + "*>";
    var e := 7 + |w|;
    assert s[..7] == "TArray<";
    assert s[7..e] == w;
    assert s[e] == '*' && s[e + 1] == '>';
    assert !IsSpace(s[7]) by {
      assert s[7] == w[0] && w[0] in w;
    }
    assert SkipSpaces(s, 7) == 7;
    assert forall k :: 7 <= k < e ==> IsWordChar(s[k]) by {
      forall k | 7 <= k < e ensures IsWordChar(s[k]) {
        assert s[k] == w[k - 7];
      }
    }
    SkipWordRun(s, 7, e);
  }

  /** `str.replace(c, '')`. */
  function RemoveChar(s: string, c: char): (r: string)
    ensures |r| <= |s|
  {
    if s == [] then [] else (if s[0] == c then [] else [s[0]]) + RemoveChar(s[1..], c)
  }

  /** Removing a character removes every copy of it and keeps every other
      character, in order. */
  lemma {:induction false} RemoveCharMeaning(s: string, c: char, d: char)
    ensures c !in RemoveChar(s, c)
    ensures d != c ==> CountChar(RemoveChar(s, c), d) == CountChar(s, d)
  {
    if s != [] {
      RemoveCharMeaning(s[1..], c, d);
      var head := if s[0] == c then [] else [s[0]];
      CountCharAppend(head, RemoveChar(s[1..], c), d);
      assert s == [s[0]] + s[1..];
      CountCharAppend([s[0]], s[1..], d);
    }
  }

  /** The per-property record built in `generate`. */
  datatype LuaProp = LuaProp(
    name: string,
    ty: string,
    editable: bool,
    isArrayPtr: bool,
    innerType: Option<string>,
    isPointer: bool,
    baseType: string)

  /** The element name when the type passes the `TArray<` and `*>` test and
      the pattern matches. */
  function ArrayPtrInner(ty: string): Option<string>
  {
    if Contains(ty, "TArray<") && Contains(ty, "*>") then ArrayPtrFrom(ty, 0) else None
  }

  /** `type.replace('*', '').strip()` for a type holding `*`, the type
      itself otherwise. */
  function BaseType(ty: string): string
  {
    if '*' in ty then Strip(RemoveChar(ty, '*')) else ty
  }

  /** One iteration of the property loop of `generate`. */
  function LuaPropOf(p: Property): LuaProp
  {
    var inner := ArrayPtrInner(p.ty);
    LuaProp(p.name, p.ty, p.editable, inner.Some?, inner, '*' in p.ty && inner.Some? == false, BaseType(p.ty))
  }

  /** An element name is found only in a type holding `TArray<` and `*>`
      (hence `*`), and it is a non-empty word. */
  lemma ArrayPtrInnerMeaning(ty: string)
    ensures ArrayPtrInner(ty).Some? ==> Contains(ty, "TArray<") && Contains(ty, "*>") && '*' in ty
    ensures ArrayPtrInner(ty).Some? ==>
      ArrayPtrInner(ty).value != [] && forall c :: c in ArrayPtrInner(ty).value ==> IsWordChar(c)
  {
    if ArrayPtrInner(ty).Some? {
      ArrayPtrFromLeftmost(ty, 0);
      var k :| 0 <= k < |ty| && ArrayPtrAt(ty, k) == ArrayPtrInner(ty);
      ArrayPtrAtWord(ty, k);
      ContainsIff(ty, "*>");
      var i :| StartsAt(ty, i, "*>");
      assert ty[i] == ty[i..i + 2][0] == '*';
    }
  }

  /** The base type of a type holding `*` holds no `*` and starts and ends
      with no whitespace. */
  lemma BaseTypeMeaning(ty: string)
    ensures '*' in ty ==> '*' !in BaseType(ty)
    ensures '*' in ty ==> BaseType(ty) == [] || (!IsSpace(BaseType(ty)[0]) && !IsSpace(BaseType(ty)[|BaseType(ty)| - 1]))
    ensures '*' !in ty ==> BaseType(ty) == ty
  {
    if '*' in ty {
      RemoveCharMeaning(ty, '*', '*');
      StripKeepsOut(RemoveChar(ty, '*'), '*');
    }
  }

  /** The record's flags: array-of-pointers and pointer exclude each other; an
      array of pointers has a type holding both `TArray<` and `*>` and carries
      its element name, a non-empty word; a pointer is any other type holding
      `*`. */
  lemma LuaPropOfMeaning(p: Property)
    ensures !(LuaPropOf(p).isArrayPtr && LuaPropOf(p).isPointer)
    ensures LuaPropOf(p).isArrayPtr <==> LuaPropOf(p).innerType.Some?
    ensures LuaPropOf(p).isArrayPtr ==> Contains(p.ty, "TArray<") && Contains(p.ty, "*>")
    ensures LuaPropOf(p).isArrayPtr ==>
      LuaPropOf(p).innerType.value != [] && forall c :: c in LuaPropOf(p).innerType.value ==> IsWordChar(c)
    ensures LuaPropOf(p).isPointer <==> '*' in p.ty && !LuaPropOf(p).isArrayPtr
    ensures LuaPropOf(p).baseType == BaseType(p.ty)
  {
    ArrayPtrInnerMeaning(p.ty);
  }

  /** A property typed `TArray<W*>` is bound as an array of `W` pointers. */
  lemma ArrayPtrWritten(p: Property, w: string)
    requires w != [] && forall c :: c in w ==> IsWordChar(c)
    requires p.ty == "TArray<" + w + "*>"
    ensures LuaPropOf(p).isArrayPtr && LuaPropOf(p).innerType == Some(w)
  {
    ArrayPtrAtWritten(w);
    assert StartsAt(p.ty, 0, "TArray<") by {
      assert p.ty[..7] == "TArray<";
    }
    ContainsIff(p.ty, "TArray<");
    assert StartsAt(p.ty, 7 + |w|, "*>") by {
      assert p.ty[7 + |w|..9 + |w|] == "*>";
    }
    ContainsIff(p.ty, "*>");
  }

  /** `replace` works piecewise. */
  lemma {:induction false} RemoveCharAppend(a: string, b: string, c: char)
    ensures RemoveChar(a + b, c) == RemoveChar(a, c) + RemoveChar(b, c)
  {
    if a != [] {
      RemoveCharAppend(a[1..], b, c);
      assert (a + b)[1..] == a[1..] + b;
    } else {
      assert a + b == b;
    }
  }

  /** Removing a character that is absent changes nothing. */
  lemma {:induction false} RemoveCharAbsent(s: string, c: char)
    requires forall k :: 0 <= k < |s| ==> s[k] != c
    ensures RemoveChar(s, c) == s
  {
    if s != [] {
      assert forall k :: 0 <= k < |s[1..]| ==> s[1..][k] == s[k + 1];
      RemoveCharAbsent(s[1..], c);
    }
  }

  /** The pattern itself finds `USound` in `TArray<USound* >`. */
  lemma SpacedPatternMatches()
    ensures ArrayPtrAt("TArray<USound* >", 0) == Some("USound")
  {
    var s := "TArray<USound* >";
    assert StartsAt(s, 0, "TArray<") by {
      assert s[..7] == "TArray<";
    }
    assert SkipSpaces(s, 7) == 7;
    SkipWordRun(s, 7, 13);
    assert SkipSpaces(s, 13) == 13;
    assert SkipSpaces(s, 15) == 15;
    assert SkipSpaces(s, 14) == 15;
    assert s[7..13] == "USound";
  }

  /** `TArray<USound* >` holds no `*>`: its only `*` is followed by a
      space. */
  lemma SpacedTypeHasNoStarBracket()
    ensures !Contains("TArray<USound* >", "*>")
  {
    var s := "TArray<USound* >";
    var a := "TArray<USound";
    assert s == a + "* >";
    assert forall k :: 0 <= k < |a| ==> a[k] != '*';
    forall i | 0 <= i ensures !StartsAt(s, i, "*>") {
      if i + 2 <= |s| {
        if i < 13 {
          assert s[i] == a[i];
        } else {
          assert s[14] == ' ';
        }
        assert s[i..i + 2][0] == s[i] && s[i..i + 2][1] == s[i + 1];
      }
    }
    ContainsIff(s, "*>");
  }

  /** A type with a single `*` loses just that character before stripping. */
  lemma BaseTypeOfSingleStar(a: string, b: string)
    requires forall k :: 0 <= k < |a| ==> a[k] != '*'
    requires forall k :: 0 <= k < |b| ==> b[k] != '*'
    ensures BaseType(a + "*" + b) == Strip(a + b)
  {
    assert (a + "*" + b)[|a|] == '*';
    RemoveCharAppend(a + "*", b, '*');
    RemoveCharAppend(a, "*", '*');
    RemoveCharAbsent(a, '*');
    RemoveCharAbsent(b, '*');
    assert RemoveChar("*", '*') == [];
    assert a + [] == a;
  }

  /** Removing the `*` of `TArray<USound* >` leaves `TArray<USound >`,
      which has nothing to strip. */
  lemma SpacedBaseType()
    ensures BaseType("TArray<USound* >") == "TArray<USound >"
  {
    var a, b := "TArray<USound", " >";
    assert "TArray<USound* >" == a + "*" + b;
    assert forall k :: 0 <= k < |a| ==> a[k] != '*';
    BaseTypeOfSingleStar(a, b);
    var r := a + b;
    assert r == "TArray<USound >";
    assert SkipSpaces(r, 0) == 0;
    assert TrimEndIndex(r, |r|) == |r|;
    assert r[0..|r|] == r;
  }

  /** The pattern allows a space between `*` and `>`, but the test before it
      asks for `*>` literally: `TArray<USound* >` is bound as a plain pointer
      whose base type still reads `TArray<USound >`. */
  lemma SpacedArrayPtrIsPointer(p: Property)
    requires p.ty == "TArray<USound* >"
    ensures ArrayPtrFrom(p.ty, 0) == Some("USound")
    ensures !LuaPropOf(p).isArrayPtr && LuaPropOf(p).isPointer
    ensures LuaPropOf(p).baseType == "TArray<USound >"
  {
    SpacedPatternMatches();
    SpacedTypeHasNoStarBracket();
    SpacedBaseType();
    assert p.ty[13] == '*';
  }

  // ---------------------------------------------------------------------------
  // Function filter
  // ---------------------------------------------------------------------------

  /** The functions flagged `LuaBind`, in order. */
  function BoundFunctions(fs: seq<Function>): (r: seq<Function>)
  {
    if fs == [] then []
    else (if fs[0].luaBind then [fs[0]] else []) + BoundFunctions(fs[1..])
  }

  /** The filter keeps exactly the flagged functions and keeps their order: it
      distributes over concatenation. */
  lemma {:induction false} BoundFunctionsMeaning(fs: seq<Function>, gs: seq<Function>)
    ensures forall f :: f in BoundFunctions(fs) <==> f in fs && f.luaBind
    ensures BoundFunctions(fs + gs) == BoundFunctions(fs) + BoundFunctions(gs)
  {
    if fs != [] {
      BoundFunctionsMeaning(fs[1..], gs);
      assert (fs + gs)[1..] == fs[1..] + gs;
      assert fs == [fs[0]] + fs[1..];
    } else {
      assert fs + gs == gs;
    }
  }

  // ---------------------------------------------------------------------------
  // Text
  // ---------------------------------------------------------------------------

  /** One two-line registration entry: the binder with its template arguments,
      then the Lua-visible name and the member pointer. */
  function Entry(binder: string, className: string, luaName: string, member: string): string
  {
    "    " + binder + "(\n        T, \"" + luaName + "\", &" + className + "::" + member + ");"
  }

  /** The binder of a property: arrays of pointers, then pointers, then
      editable values, then read-only values. */
  function PropBinder(className: string, lp: LuaProp): string
  {
    if lp.isArrayPtr then "AddPropertyArrayPtr<" + className + ", " + ValueOr(lp.innerType, "None") + ">"
    else if lp.isPointer then "AddPropertyPtr<" + className + ", " + lp.baseType + ">"
    else if lp.editable then "AddProperty<" + className + ", " + lp.ty + ">"
    else "AddReadOnlyProperty<" + className + ", " + lp.ty + ">"
  }

  /** The binder of a function: an alias for `void`, a method with its return
      type otherwise; the parameter types follow the class name. */
  function FuncBinder(className: string, f: Function): string
  {
    if f.returnType == "void" then "AddAlias<" + className + ParameterTypesString(f) + ">"
    else "AddMethodR<" + f.returnType + ", " + className + ParameterTypesString(f) + ">"
  }

  function PropEntryWriter(className: string): LuaProp -> string
  {
    lp => Entry(PropBinder(className, lp), className, lp.name, lp.name)
  }

  function FuncEntryWriter(className: string): Function -> string
  {
    f => Entry(FuncBinder(className, f), className, f.displayName, f.name)
  }

  function BindBeginLine(className: string): string
  {
    "LUA_BIND_BEGIN(" + className + ")"
  }

  const BindEndLine := "LUA_BIND_END()"

  /** The first lines: an empty line, `LUA_BIND_BEGIN(name)` and `{`. */
  function LuaHead(className: string): string
  {
    "\n" + BindBeginLine(className) + "\n" + "{"
  }

  /** What the template renders to. */
  function RenderLua(className: string, lps: seq<LuaProp>, fs: seq<Function>): string
  {
    LuaHead(className) + SuffixLines(lps, |lps|, PropEntryWriter(className), "\n")
      + SuffixLines(fs, |fs|, FuncEntryWriter(className), "\n") + "\n" + "}" + "\n" + BindEndLine
  }

  const NoBindingsComment := "    // No properties or functions to bind"

  /** The f-string used when nothing is bound: the head, the comment line,
      `}`, `LUA_BIND_END()` and a final newline. */
  function EmptyLuaBlock(className: string): string
  {
    LuaHead(className) + "\n" + NoBindingsComment + "\n" + "}" + "\n" + BindEndLine + "\n"
  }

  /** `LuaBindingGenerator.generate`, on the property records the loop
      builds. */
  function LuaBindingText(ci: ClassInfo): string
  {
    var lps := MapPrefix(ci.properties, |ci.properties|, LuaPropOf);
    var fs := BoundFunctions(ci.functions);
    if fs == [] && lps == [] then EmptyLuaBlock(ci.name) else RenderLua(ci.name, lps, fs)
  }

  /** `LuaBindingGenerator.generate`: the filter, the property loop and the
      choice of block. */
  method Generate(ci: ClassInfo) returns (text: string)
    ensures text == LuaBindingText(ci)
  {
    var luaFunctions := BoundFunctions(ci.functions);
    var luaProperties := MapAll(ci.properties, LuaPropOf);
    if luaFunctions == [] && luaProperties == [] {
      text := EmptyLuaBlock(ci.name);
    } else {
      text := RenderLua(ci.name, luaProperties, luaFunctions);
    }
  }

  // ---------------------------------------------------------------------------
  // Properties of the text
  // ---------------------------------------------------------------------------

  /** The first written element comes right after the start. */
  lemma {:induction false} SuffixLinesFirst<A>(xs: seq<A>, n: nat, f: A -> string, sep: string)
    requires 0 < n <= |xs|
    ensures |SuffixLines(xs, n, f, sep)| >= |sep + f(xs[0])|
    ensures SuffixLines(xs, n, f, sep)[..|sep + f(xs[0])|] == sep + f(xs[0])
  {
    if n > 1 {
      SuffixLinesFirst(xs, n - 1, f, sep);
      var s := SuffixLines(xs, n - 1, f, sep);
      assert SuffixLines(xs, n, f, sep) == s + (sep + f(xs[n - 1]));
    }
  }

  /** After a head and two written lists whose first element has `A` at
      offset 4, the text has `A` five characters after the head. */
  lemma BlockStart<A, B>(h: string, xs: seq<A>, f: A -> string, ys: seq<B>, g: B -> string)
    requires xs != [] || ys != []
    requires xs != [] ==> |f(xs[0])| > 4 && f(xs[0])[4] == 'A'
    requires xs == [] ==> |g(ys[0])| > 4 && g(ys[0])[4] == 'A'
    ensures |h + SuffixLines(xs, |xs|, f, "\n") + SuffixLines(ys, |ys|, g, "\n")| > |h| + 5
    ensures (h + SuffixLines(xs, |xs|, f, "\n") + SuffixLines(ys, |ys|, g, "\n"))[|h| + 5] == 'A'
  {
    var p := SuffixLines(xs, |xs|, f, "\n");
    var q := SuffixLines(ys, |ys|, g, "\n");
    if xs != [] {
      SuffixLinesFirst(xs, |xs|, f, "\n");
      assert p[5] == ("\n" + f(xs[0]))[5] == 'A';
    } else {
      SuffixLinesFirst(ys, |ys|, g, "\n");
      assert q[5] == ("\n" + g(ys[0]))[5] == 'A';
    }
  }

  /** An entry shows its binder's first character after four spaces. */
  lemma EntryStart(binder: string, className: string, luaName: string, member: string)
    requires binder != []
    ensures |Entry(binder, className, luaName, member)| > 4
    ensures Entry(binder, className, luaName, member)[4] == binder[0]
  {
  }

  /** Every binder starts with `A` (for `Add`). */
  lemma BindersStartWithA(className: string, lp: LuaProp, f: Function)
    ensures PropBinder(className, lp) != [] && PropBinder(className, lp)[0] == 'A'
    ensures FuncBinder(className, f) != [] && FuncBinder(className, f)[0] == 'A'
  {
  }

  lemma NoBindingsCommentSlash()
    ensures |NoBindingsComment| > 4 && NoBindingsComment[4] == '/'
  {
  }

  /** The rendered block differs from the placeholder: five characters after
      the head it has the `A` of the first entry's binder where the
      placeholder has the `/` of its comment. */
  lemma RenderIsNotPlaceholder(className: string, lps: seq<LuaProp>, fs: seq<Function>)
    requires lps != [] || fs != []
    ensures RenderLua(className, lps, fs) != EmptyLuaBlock(className)
  {
    var h := LuaHead(className);
    if lps != [] {
      var lp := lps[0];
      BindersStartWithA(className, lp, Function("", "", "", [], false, false));
      EntryStart(PropBinder(className, lp), className, lp.name, lp.name);
    } else {
      var f := fs[0];
      BindersStartWithA(className, LuaProp("", "", false, false, None, false, ""), f);
      EntryStart(FuncBinder(className, f), className, f.displayName, f.name);
    }
    BlockStart(h, lps, PropEntryWriter(className), fs, FuncEntryWriter(className));
    NoBindingsCommentSlash();
    var e := EmptyLuaBlock(className);
    assert e[|h| + 5] == NoBindingsComment[4];
  }

  /** The placeholder block is written exactly when no property and no flagged
      function is there to bind. */
  lemma PlaceholderIffNothingBound(ci: ClassInfo)
    ensures LuaBindingText(ci) == EmptyLuaBlock(ci.name) <==>
      ci.properties == [] && (forall f :: f in ci.functions ==> !f.luaBind)
  {
    BoundFunctionsMeaning(ci.functions, []);
    var lps := MapPrefix(ci.properties, |ci.properties|, LuaPropOf);
    var fs := BoundFunctions(ci.functions);
    if fs != [] || lps != [] {
      RenderIsNotPlaceholder(ci.name, lps, fs);
    }
  }

  /** Three lines, the first empty, joined by newlines. */
  lemma JoinOpening(b: string, c: string)
    ensures Join(["", b, c], "\n") == "\n" + b + "\n" + c
  {
    JoinEmptyThen(b, "\n");
    JoinSnoc(["", b], c, "\n");
    assert ["", b] + [c] == ["", b, c];
  }

  /** The rendered block entry by entry: an empty line, `LUA_BIND_BEGIN(name)`,
      `{`, one entry per property in order, one entry per flagged function in
      order, `}` and `LUA_BIND_END()`. */
  lemma RenderLuaLines(className: string, lps: seq<LuaProp>, fs: seq<Function>)
    ensures RenderLua(className, lps, fs) == Join(
      ["", BindBeginLine(className), "{"]
      + MapPrefix(lps, |lps|, PropEntryWriter(className))
      + MapPrefix(fs, |fs|, FuncEntryWriter(className))
      + ["}"] + [BindEndLine],
      "\n")
  {
    var head := ["", BindBeginLine(className), "{"];
    var pl := MapPrefix(lps, |lps|, PropEntryWriter(className));
    var fl := MapPrefix(fs, |fs|, FuncEntryWriter(className));
    JoinOpening(BindBeginLine(className), "{");
    JoinMapPrefix(head, lps, |lps|, PropEntryWriter(className), "\n");
    JoinMapPrefix(head + pl, fs, |fs|, FuncEntryWriter(className), "\n");
    JoinSnoc(head + pl + fl, "}", "\n");
    JoinSnoc(head + pl + fl + ["}"], BindEndLine, "\n");
  }

}
