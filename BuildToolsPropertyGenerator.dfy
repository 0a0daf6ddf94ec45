/** The property registration emitter of the build tools
    (BuildTools/CodeGenerator/property_generator.py): from a class record it
    writes a `BEGIN_PROPERTIES` ... `END_PROPERTIES()` block with an optional
    spawnable/component mark and one registration macro line per property.

    The Jinja template is modelled as the string it renders to: a tag written
    `{%-` drops the whitespace before it, and the renderer drops the template's
    final newline. Python's `str(float)` is a parameter (`floatText`). */
module BuildToolsPropertyGenerator {
  import opened Text
  import opened CodeGenParser

  // ---------------------------------------------------------------------------
  // Mark decision
  // ---------------------------------------------------------------------------

  datatype MarkType = NoMark | Spawnable | Component

  /** `base` is `start` or is reached from it by following parent names at most
      `steps` times through `parents` (class name to parent name). */
  function AncestorWithin(parents: map<string, string>, start: string, base: string, steps: nat): bool
    decreases steps
  {
    start == base || (steps > 0 && start in parents && AncestorWithin(parents, parents[start], base, steps - 1))
  }

  /** `class_info.is_derived_from(base)`: the record itself comes from a parser
      that is not part of this model; it is taken to walk the parent chain
      from the class's direct parent, as `UClass::IsChildOf` walks `Super`.
      A walk longer than the table must revisit a class, so the table's size
      bounds it. */
  function IsDerivedFrom(ci: ClassInfo, parents: map<string, string>, base: string): bool
  {
    AncestorWithin(parents, ci.parent, base, |parents|)
  }

  /** Walks compose: a walk from `a` to `b` followed by one from `b` to `c` is a
      walk from `a` to `c` of at most the summed length. */
  lemma {:induction false} AncestorWithinTransitive(parents: map<string, string>, a: string, b: string, c: string, n: nat, m: nat)
    requires AncestorWithin(parents, a, b, n) && AncestorWithin(parents, b, c, m)
    ensures AncestorWithin(parents, a, c, n + m)
    decreases n
  {
    if a != b {
      AncestorWithinTransitive(parents, parents[a], b, c, n - 1, m);
    } else {
      AncestorWithinMonotone(parents, b, c, m, n + m);
    }
  }

  /** Allowing more steps never loses an ancestor. */
  lemma {:induction false} AncestorWithinMonotone(parents: map<string, string>, a: string, c: string, m: nat, k: nat)
    requires m <= k && AncestorWithin(parents, a, c, m)
    ensures AncestorWithin(parents, a, c, k)
    decreases m
  {
    if a != c {
      AncestorWithinMonotone(parents, parents[a], c, m - 1, k - 1);
    }
  }

  /** The mark decision of `generate`. `parents == None` is a record without an
      `is_derived_from` attribute. */
  function MarkTypeOf(ci: ClassInfo, isAbstract: bool, parents: Option<map<string, string>>): MarkType
  {
    if isAbstract then NoMark
    else if ci.name == "AActor" || ci.name == "UActorComponent" then NoMark
    else if parents.Some? && IsDerivedFrom(ci, parents.value, "AActor") then Spawnable
    else if parents.Some? && IsDerivedFrom(ci, parents.value, "UActorComponent") then Component
    else NoMark
  }

  /** Abstract classes and the two root classes are never marked, nor is any
      class when the record cannot answer `is_derived_from`; otherwise actors
      (direct or indirect) are spawnable, and components that are not actors
      are components. */
  lemma MarkTypeDecision(ci: ClassInfo, isAbstract: bool, parents: Option<map<string, string>>)
    ensures isAbstract || ci.name == "AActor" || ci.name == "UActorComponent" || parents.None?
      ==> MarkTypeOf(ci, isAbstract, parents) == NoMark
    ensures MarkTypeOf(ci, isAbstract, parents) == Spawnable <==>
      !isAbstract && ci.name != "AActor" && ci.name != "UActorComponent"
      && parents.Some? && IsDerivedFrom(ci, parents.value, "AActor")
    ensures MarkTypeOf(ci, isAbstract, parents) == Component <==>
      !isAbstract && ci.name != "AActor" && ci.name != "UActorComponent"
      && parents.Some? && !IsDerivedFrom(ci, parents.value, "AActor")
      && IsDerivedFrom(ci, parents.value, "UActorComponent")
  {
  }

  /** An indirect actor `X : B` with `B : AActor` in the table is spawnable. */
  lemma IndirectActorIsSpawnable(ci: ClassInfo, parents: map<string, string>)
    requires ci.name != "AActor" && ci.name != "UActorComponent"
    requires ci.parent in parents && parents[ci.parent] == "AActor"
    ensures MarkTypeOf(ci, false, Some(parents)) == Spawnable
  {
    assert |parents| >= 1 by {
      assert ci.parent in parents.Keys;
    }
    assert AncestorWithin(parents, parents[ci.parent], "AActor", |parents| - 1);
  }

  // ---------------------------------------------------------------------------
  // Lines
  // ---------------------------------------------------------------------------

  function BoolText(b: bool): string
  {
    if b then "true" else "false"
  }

  /** The optional last argument: present only for a non-empty tooltip. */
  function TooltipArg(tooltip: string): (r: string)
    ensures r == [] <==> tooltip == []
  {
    if tooltip == [] then "" else ", \"" + tooltip + "\""
  }

  /** The first macro argument: the element kind for arrays (the object-pointer
      kind when none was recorded), the declared type otherwise. */
  function FirstArg(p: Property): string
  {
    match TypeMacroOf(p)
    case ArrayMacro(inner) => if inner.Some? then ElemKindName(inner.value) else ElemKindName(ObjectPtrElem)
    case _ => p.ty
  }

  /** The bounds of a ranged line, each with an `f` suffix and followed by
      `, `; nothing for other lines. */
  function BoundsArgs(p: Property, floatText: real -> string): string
  {
    if TypeMacroOf(p) == RangeMacro then floatText(p.minValue) + "f, " + floatText(p.maxValue) + "f, " else ""
  }

  /** The registration line the template writes for one property: its three
      line forms (ranged, array, other) differ only in the macro, the first
      argument and the bounds. */
  function PropertyLine(p: Property, floatText: real -> string): string
  {
    "    " + MacroName(TypeMacroOf(p)) + "(" + FirstArg(p) + ", " + p.name + ", \"" + p.category + "\", "
      + BoundsArgs(p, floatText) + BoolText(p.editable) + TooltipArg(p.tooltip) + ")"
  }

  // ---------------------------------------------------------------------------
  // Blocks
  // ---------------------------------------------------------------------------

  /** The mark line, empty without a mark. */
  function MarkLine(mark: MarkType, displayName: string, description: string): string
  {
    match mark
    case Spawnable => "    MARK_AS_SPAWNABLE(\"" + displayName + "\", \"" + description + "\")"
    case Component => "    MARK_AS_COMPONENT(\"" + displayName + "\", \"" + description + "\")"
    case NoMark => ""
  }

  /** `PropertyLine` with the float formatting fixed. */
  function LineWriter(floatText: real -> string): Property -> string
  {
    p => PropertyLine(p, floatText)
  }

  function BeginLine(className: string): string
  {
    "BEGIN_PROPERTIES(" + className + ")"
  }

  const EndLine := "END_PROPERTIES()"

  /** What the template renders to. */
  function RenderTemplate(className: string, mark: MarkType, displayName: string, description: string,
                          props: seq<Property>, floatText: real -> string): string
  {
    "\n" + BeginLine(className)
    + (if mark == NoMark then "" else "\n" + MarkLine(mark, displayName, description))
    + SuffixLines(props, |props|, LineWriter(floatText), "\n")
    + "\n" + EndLine
  }

  /** The f-string used when there are no properties: the mark line, or an empty
      line, between the two markers. */
  function EmptyBlock(className: string, markLine: string): string
  {
    "\n" + BeginLine(className) + "\n" + markLine + "\n" + EndLine + "\n"
  }

  /** Python's `a or b` on strings. */
  function OrElse(a: string, b: string): (r: string)
    ensures r == (if a == [] then b else a)
  {
    if a == [] then b else a
  }

  function DisplayNameOf(ci: ClassInfo): string
  {
    OrElse(ci.displayName, ci.name)
  }

  function DescriptionOf(ci: ClassInfo): string
  {
    OrElse(ci.description, "Auto-generated " + ci.name)
  }

  /** `PropertyGenerator.generate`. */
  function Generate(ci: ClassInfo, isAbstract: bool, parents: Option<map<string, string>>,
                    floatText: real -> string): string
  {
    var mark := MarkTypeOf(ci, isAbstract, parents);
    if ci.properties == [] then
      EmptyBlock(ci.name, MarkLine(mark, DisplayNameOf(ci), DescriptionOf(ci)))
    else
      RenderTemplate(ci.name, mark, DisplayNameOf(ci), DescriptionOf(ci), ci.properties, floatText)
  }

  /** Joining an optional last part. */
  lemma JoinSnocOpt(parts: seq<string>, opt: seq<string>, sep: string)
    requires |parts| >= 1 && |opt| <= 1
    ensures Join(parts + opt, sep) == Join(parts, sep) + (if opt == [] then "" else sep + opt[0])
  {
    if opt != [] {
      JoinSnoc(parts, opt[0], sep);
      assert parts + opt == parts + [opt[0]];
    } else {
      assert parts + opt == parts;
    }
  }

  /** A block of lines with an empty first line, an optional line after the
      second, mapped lines and a last line, joined by newlines. */
  lemma JoinBlock<A>(begin: string, marks: seq<string>, xs: seq<A>, f: A -> string, end: string)
    requires |marks| <= 1
    ensures Join(["", begin] + marks + MapPrefix(xs, |xs|, f) + [end], "\n") ==
      "\n" + begin + (if marks == [] then "" else "\n" + marks[0]) + SuffixLines(xs, |xs|, f, "\n")
      + "\n" + end
  {
    var sep := "\n";
    var head := ["", begin];
    var lines := MapPrefix(xs, |xs|, f);
    JoinEmptyThen(begin, sep);
    JoinSnocOpt(head, marks, sep);
    JoinMapPrefix(head + marks, xs, |xs|, f, sep);
    JoinSnoc(head + marks + lines, end, sep);
  }

  /** Five lines, the first and last empty, joined by newlines. */
  lemma JoinFramed(b: string, m: string, e: string)
    ensures Join(["", b, m, e, ""], "\n") == "\n" + b + "\n" + m + "\n" + e + "\n"
  {
    JoinEmptyThen(b, "\n");
    JoinSnoc(["", b], m, "\n");
    assert ["", b] + [m] == ["", b, m];
    JoinSnoc(["", b, m], e, "\n");
    assert ["", b, m] + [e] == ["", b, m, e];
    JoinSnoc(["", b, m, e], "", "\n");
    assert ["", b, m, e] + [""] == ["", b, m, e, ""];
  }

  /** The block for a class without properties, line by line: an empty line,
      `BEGIN_PROPERTIES(name)`, the mark line (empty when unmarked),
      `END_PROPERTIES()` and an empty last line. */
  lemma EmptyBlockLines(className: string, markLine: string)
    ensures EmptyBlock(className, markLine) == Join(["", BeginLine(className), markLine, EndLine, ""], "\n")
  {
    JoinFramed(BeginLine(className), markLine, EndLine);
  }

  /** The rendered template, line by line: an empty line,
      `BEGIN_PROPERTIES(name)`, the mark line when there is a mark, one line per
      property in list order, and `END_PROPERTIES()`. */
  lemma RenderTemplateLines(className: string, mark: MarkType, displayName: string, description: string,
                            props: seq<Property>, floatText: real -> string)
    ensures RenderTemplate(className, mark, displayName, description, props, floatText) == Join(
      ["", BeginLine(className)]
      + (if mark == NoMark then [] else [MarkLine(mark, displayName, description)])
      + MapPrefix(props, |props|, LineWriter(floatText))
      + [EndLine],
      "\n")
  {
    var marks := if mark == NoMark then [] else [MarkLine(mark, displayName, description)];
    JoinBlock(BeginLine(className), marks, props, LineWriter(floatText), EndLine);
  }

  /** `generate` line by line: for a class without properties the framed block
      with its mark line; otherwise the rendered template, whose mark line
      appears only for a marked class. */
  lemma GenerateLines(ci: ClassInfo, isAbstract: bool, parents: Option<map<string, string>>,
                      floatText: real -> string)
    ensures
      var mark := MarkTypeOf(ci, isAbstract, parents);
      var markLine := MarkLine(mark, DisplayNameOf(ci), DescriptionOf(ci));
      Generate(ci, isAbstract, parents, floatText) ==
        if ci.properties == [] then Join(["", BeginLine(ci.name), markLine, EndLine, ""], "\n")
        else Join(
          ["", BeginLine(ci.name)]
          + (if mark == NoMark then [] else [markLine])
          + MapPrefix(ci.properties, |ci.properties|, LineWriter(floatText))
          + [EndLine],
          "\n")
  {
    var mark := MarkTypeOf(ci, isAbstract, parents);
    if ci.properties == [] {
      EmptyBlockLines(ci.name, MarkLine(mark, DisplayNameOf(ci), DescriptionOf(ci)));
    } else {
      RenderTemplateLines(ci.name, mark, DisplayNameOf(ci), DescriptionOf(ci), ci.properties, floatText);
    }
  }
}
