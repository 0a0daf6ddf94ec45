/** The older copy of the property registration emitter
    (Tools/CodeGenerator/property_generator.py). Its template is the same text
    as the build tools' one, so the rendering is shared; what differs is the
    mark decision, which looks only at the direct parent, and the fixed
    descriptions of the block written for a class without properties. */
module ToolsPropertyGenerator {
  import opened Text
  import opened CodeGenParser
  import opened BuildToolsPropertyGenerator

  /** The mark decision: `AActor` itself has none, a direct subclass of
      `AActor` is spawnable, and every other class is a component. */
  function LegacyMarkTypeOf(ci: ClassInfo): MarkType
  {
    if ci.name == "AActor" then NoMark
    else if ci.parent == "AActor" then Spawnable
    else Component
  }

  /** Only `AActor` is left unmarked; only direct subclasses of `AActor` are
      spawnable; everything else, the root component class and plain objects
      included, is marked as a component. */
  lemma LegacyMarkDecision(ci: ClassInfo)
    ensures LegacyMarkTypeOf(ci) == NoMark <==> ci.name == "AActor"
    ensures LegacyMarkTypeOf(ci) == Spawnable <==> ci.name != "AActor" && ci.parent == "AActor"
    ensures LegacyMarkTypeOf(ci) == Component <==> ci.name != "AActor" && ci.parent != "AActor"
  {
  }

  /** The mark line of the block written for a class without properties: the
      class name and a fixed description. */
  function LegacyEmptyMarkLine(ci: ClassInfo, mark: MarkType): string
  {
    match mark
    case Spawnable => MarkLine(Spawnable, ci.name, "Auto-generated actor")
    case Component => MarkLine(Component, ci.name, "Auto-generated component")
    case NoMark => ""
  }

  /** `PropertyGenerator.generate` of the older copy. */
  function LegacyGenerate(ci: ClassInfo, floatText: real -> string): string
  {
    var mark := LegacyMarkTypeOf(ci);
    if ci.properties == [] then
      EmptyBlock(ci.name, LegacyEmptyMarkLine(ci, mark))
    else
      RenderTemplate(ci.name, mark, DisplayNameOf(ci), DescriptionOf(ci), ci.properties, floatText)
  }

  /** The output line by line: for a class without properties the framed
      block whose mark line names the class with a fixed description (empty for
      `AActor`); otherwise the rendered template, with a mark line for every
      class but `AActor`. */
  lemma LegacyGenerateLines(ci: ClassInfo, floatText: real -> string)
    ensures
      var mark := LegacyMarkTypeOf(ci);
      LegacyGenerate(ci, floatText) ==
        if ci.properties == [] then
          Join(["", BeginLine(ci.name), LegacyEmptyMarkLine(ci, mark), EndLine, ""], "\n")
        else Join(
          ["", BeginLine(ci.name)]
          + (if ci.name == "AActor" then [] else [MarkLine(mark, DisplayNameOf(ci), DescriptionOf(ci))])
          + MapPrefix(ci.properties, |ci.properties|, LineWriter(floatText))
          + [EndLine],
          "\n")
  {
    var mark := LegacyMarkTypeOf(ci);
    if ci.properties == [] {
      EmptyBlockLines(ci.name, LegacyEmptyMarkLine(ci, mark));
    } else {
      RenderTemplateLines(ci.name, mark, DisplayNameOf(ci), DescriptionOf(ci), ci.properties, floatText);
    }
  }

  /** For a class with properties the two copies differ only through the mark:
      when the decisions agree, so do the outputs. */
  lemma SameOutputWhenMarksAgree(ci: ClassInfo, isAbstract: bool, parents: Option<map<string, string>>,
                                 floatText: real -> string)
    requires ci.properties != []
    ensures MarkTypeOf(ci, isAbstract, parents) == LegacyMarkTypeOf(ci) ==>
      LegacyGenerate(ci, floatText) == Generate(ci, isAbstract, parents, floatText)
  {
  }

  /** The copies disagree on an indirect actor: with `B : AActor` in the table,
      a class `X : B` is spawnable for the build tools and a component here. */
  lemma IndirectActorDivergence(ci: ClassInfo)
    requires ci.name == "X" && ci.parent == "B"
    ensures MarkTypeOf(ci, false, Some(map["B" := "AActor"])) == Spawnable
    ensures LegacyMarkTypeOf(ci) == Component
  {
    IndirectActorIsSpawnable(ci, map["B" := "AActor"]);
  }

  /** They also disagree on a plain object class: unmarked for the build tools,
      a component here. */
  lemma PlainObjectDivergence(ci: ClassInfo)
    requires ci.name == "X" && ci.parent == "UObject"
    ensures MarkTypeOf(ci, false, Some(map["UObject" := ""])) == NoMark
    ensures LegacyMarkTypeOf(ci) == Component
  {
    var parents := map["UObject" := ""];
    assert !IsDerivedFrom(ci, parents, "AActor") by {
      assert !AncestorWithin(parents, "", "AActor", 0);
    }
    assert !IsDerivedFrom(ci, parents, "UActorComponent") by {
      assert !AncestorWithin(parents, "", "UActorComponent", 0);
    }
  }
}
