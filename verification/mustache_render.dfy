/**
  The Mustache renderer: a section pass, which repeatedly replaces the leftmost
  section with its rendering until none is left, followed by a variable pass,
  which replaces every variable tag with the text of its value.

  A section's body is rendered by the whole renderer again, and a value's text
  can itself hold tags, so rendering need not terminate. Every specification
  function and method here takes `fuel`, which bounds the number of nested
  renderings and section replacements along any path; `None` means the fuel ran
  out, and a result computed with some fuel is the same with more
  (`RenderedFuelMonotone`).
*/
module MustacheRender {
  import opened Wrappers
  import opened MustacheModel
  import opened MustacheScan

  // ---------------------------------------------------------------------------
  // Sections: which ones render

  /** Truthiness of a section value. */
  predicate Truthy(v: Value) {
    match v
    case Null => false
    case Bool(b) => b
    case List(items, _, _) => |items| > 0
    case _ => true
  }

  /**
    ShouldRenderSection: null is falsy, a bool is its own value, a non-string
    enumerable is truthy when it has items, anything else is truthy; an
    inverted section negates that.
  */
  function ShouldRenderSection(value: Value, inverted: bool): (r: bool)
    ensures value.Null? ==> r == inverted
    ensures value.Bool? ==> r == (value.b != inverted)
    ensures value.List? ==> r == ((|value.items| > 0) != inverted)
    ensures value.Str? || value.Obj? ==> r == !inverted
  {
    if inverted then !Truthy(value) else Truthy(value)
  }

  // ---------------------------------------------------------------------------
  // The variable pass

  predicate IsSectionTag(content: string) {
    content != [] && (content[0] == '#' || content[0] == '^' || content[0] == '/')
  }

  /** What a matched variable tag becomes: a section tag stays as matched, any other its value's text. */
  function TagReplacement(whole: string, content: string, model: Value): string {
    var key := Trim(content);
    if IsSectionTag(key) then whole else LookupValue(model, key)
  }

  /** RenderVariables: every variable tag, leftmost first, replaced by its replacement. */
  function RenderVariables(t: string, model: Value): string
    decreases |t|
  {
    if t == [] then []
    else
      match TagAt(t)
      case Some(e) => TagReplacement(t[..e + 2], t[2..e], model) + RenderVariables(t[e + 2..], model)
      case None => [t[0]] + RenderVariables(t[1..], model)
  }

  lemma PlainStep(t: string, model: Value)
    requires t != [] && t[0] != '{'
    ensures RenderVariables(t, model) == [t[0]] + RenderVariables(t[1..], model)
  {
    NoTagAt(t);
  }

  /** A character other than `{` in front of some text is kept as it is. */
  lemma PlainCons(c: char, u: string, model: Value)
    requires c != '{'
    ensures RenderVariables([c] + u, model) == [c] + RenderVariables(u, model)
  {
    var t := [c] + u;
    assert t[0] == c && t[1..] == u;
    PlainStep(t, model);
  }

  /** Text without an opening brace passes through the variable pass unchanged. */
  lemma {:induction false} PlainTextKept(plain: string, rest: string, model: Value)
    requires '{' !in plain
    ensures RenderVariables(plain + rest, model) == plain + RenderVariables(rest, model)
  {
    if plain == [] {
      assert plain + rest == rest;
    } else {
      var u := plain[1..] + rest;
      assert plain + rest == [plain[0]] + u;
      PlainCons(plain[0], u, model);
      PlainTextKept(plain[1..], rest, model);
      var tail := RenderVariables(rest, model);
      assert [plain[0]] + (plain[1..] + tail) == ([plain[0]] + plain[1..]) + tail;
      assert [plain[0]] + plain[1..] == plain;
    }
  }

  /**
    A variable tag is replaced by the text of the value its trimmed content
    names, unless that content starts with `#`, `^` or `/`, in which case the
    tag is kept as it is. The content may hold single `}` characters; where
    the tag ends in general is stated by `TagAtSpec`.
  */
  lemma VariableTagReplaced(content: string, rest: string, model: Value)
    requires '\n' !in content && NoTagEnd(content)
    ensures RenderVariables("{{" + content + "}}" + rest, model) ==
      (if IsSectionTag(Trim(content)) then "{{" + content + "}}" else LookupValue(model, Trim(content))) +
      RenderVariables(rest, model)
  {
    var t := "{{" + content + "}}" + rest;
    TagAtShape(content, rest);
    var e := |content| + 2;
    assert t[..e + 2] == "{{" + content + "}}";
    assert t[2..e] == content;
    assert t[e + 2..] == rest;
  }

  // ---------------------------------------------------------------------------
  // The specification, with fuel

  /** The section pass: replace the leftmost section by its rendering until none is left. */
  function SectionsPass(t: string, model: Value, fuel: nat): (r: Option<string>)
    decreases fuel, 1
  {
    match FindSection(t)
    case None => Some(t)
    case Some(s) =>
      if fuel == 0 then None
      else
        match SectionRendered(s.name, t[s.bodyStart..s.bodyEnd], model, s.inverted, fuel - 1)
        case None => None
        case Some(replacement) => SectionsPass(t[..s.start] + replacement + t[s.end..], model, fuel - 1)
  }

  /** RenderTemplate: the section pass, then the variable pass over its output. */
  function Rendered(t: string, model: Value, fuel: nat): Option<string>
    decreases fuel, 2
  {
    match SectionsPass(t, model, fuel)
    case None => None
    case Some(s) => Some(RenderVariables(s, model))
  }

  /** The body rendered once per item, with the item as the model, concatenated in order. */
  function ItemsRendered(items: seq<Value>, content: string, fuel: nat): Option<string>
    decreases fuel, 3, |items|
  {
    if items == [] then Some("")
    else
      match ItemsRendered(items[..|items| - 1], content, fuel)
      case None => None
      case Some(before) =>
        match Rendered(content, items[|items| - 1], fuel)
        case None => None
        case Some(last) => Some(before + last)
  }

  /** Once the rendering of a prefix of the items runs out of fuel, so does the rendering of all of them. */
  lemma {:induction false} ItemsRenderedStaysNone(items: seq<Value>, k: nat, content: string, fuel: nat)
    requires k <= |items| && ItemsRendered(items[..k], content, fuel).None?
    ensures ItemsRendered(items, content, fuel).None?
    decreases |items| - k
  {
    if k < |items| {
      assert items[..k + 1][..k] == items[..k];
      ItemsRenderedStaysNone(items, k + 1, content, fuel);
    } else {
      assert items[..k] == items;
    }
  }

  /** RenderSection: what one section is replaced by. */
  function SectionRendered(name: string, content: string, model: Value, inverted: bool, fuel: nat): Option<string>
    decreases fuel, 4
  {
    var value := Resolve(model, name);
    if !ShouldRenderSection(value, inverted) then Some("")
    else if value.List? then ItemsRendered(value.items, content, fuel)
    else if value.Bool? then (if value.b then Rendered(content, model, fuel) else Some(""))
    else if !value.Null? then Rendered(content, value, fuel)
    else Some("")
  }

  // ---------------------------------------------------------------------------
  // The renderer

  /** Render: the whole template against the model. */
  method Render(template: string, model: Value, fuel: nat) returns (r: Option<string>)
    ensures r == Rendered(template, model, fuel)
  {
    r := RenderTemplate(template, model, fuel);
  }

  method RenderTemplate(template: string, model: Value, fuel: nat) returns (r: Option<string>)
    ensures r == Rendered(template, model, fuel)
    decreases fuel, 2
  {
    var sections := RenderSections(template, model, fuel);
    if sections.None? {
      return None;
    }
    r := Some(RenderVariables(sections.value, model));
  }

  /** RenderSections: the loop that replaces the leftmost section until there is none. */
  method RenderSections(template: string, model: Value, fuel: nat) returns (r: Option<string>)
    ensures r == SectionsPass(template, model, fuel)
    decreases fuel, 1
  {
    var rendered := template;
    var f: nat := fuel;
    while true
      invariant f <= fuel
      invariant SectionsPass(rendered, model, f) == SectionsPass(template, model, fuel)
      decreases f
    {
      var found := FindSection(rendered);
      if found.None? {
        return Some(rendered);
      }
      if f == 0 {
        return None;
      }
      var s := found.value;
      var replacement := RenderSection(s.name, rendered[s.bodyStart..s.bodyEnd], model, s.inverted, f - 1);
      if replacement.None? {
        return None;
      }
      rendered := rendered[..s.start] + replacement.value + rendered[s.end..];
      f := f - 1;
    }
  }

  /** RenderSection: resolve the value, decide whether to render, and render with the right model. */
  method RenderSection(name: string, content: string, model: Value, inverted: bool, fuel: nat)
    returns (r: Option<string>)
    ensures r == SectionRendered(name, content, model, inverted, fuel)
    decreases fuel, 4
  {
    var value := ResolveModelValue(model, name);
    var shouldRender := ShouldRenderSection(value, inverted);
    if !shouldRender {
      return Some("");
    }
    if value.List? {
      var items := value.items;
      var sb := "";
      var i := 0;
      while i < |items|
        invariant 0 <= i <= |items|
        invariant ItemsRendered(items[..i], content, fuel) == Some(sb)
      {
        assert items[..i + 1][..i] == items[..i];
        var item := RenderTemplate(content, items[i], fuel);
        if item.None? {
          ItemsRenderedStaysNone(items, i + 1, content, fuel);
          return None;
        }
        sb := sb + item.value;
        i := i + 1;
      }
      assert items[..i] == items;
      return Some(sb);
    } else if value.Bool? {
      if value.b {
        r := RenderTemplate(content, model, fuel);
      } else {
        r := Some("");
      }
    } else if !value.Null? {
      r := RenderTemplate(content, value, fuel);
    } else {
      r := Some("");
    }
  }

  // ---------------------------------------------------------------------------
  // Properties

  /** A template without sections needs no fuel: it is the variable pass alone. */
  lemma NoSectionsNoFuel(t: string, model: Value, fuel: nat)
    requires FindSection(t).None?
    ensures Rendered(t, model, fuel) == Some(RenderVariables(t, model))
  {
  }

  /**
    An inverted section always renders to nothing: when its value is truthy it
    is skipped, and a falsy value (null, false or an empty enumerable) reaches
    a branch that yields the empty string.
  */
  lemma InvertedSectionIsEmpty(name: string, content: string, model: Value, fuel: nat)
    ensures SectionRendered(name, content, model, true, fuel) == Some("")
  {
    var value := Resolve(model, name);
    if value.List? && ShouldRenderSection(value, true) {
      assert value.items == [];
    }
  }

  /** A section whose value is falsy, a null one included, is replaced by the empty string. */
  lemma FalsySectionIsEmpty(name: string, content: string, model: Value, fuel: nat)
    requires !Truthy(Resolve(model, name))
    ensures SectionRendered(name, content, model, false, fuel) == Some("")
  {
  }

  /** A section whose value is true renders its body against the same model. */
  lemma TrueSectionKeepsModel(name: string, content: string, model: Value, fuel: nat)
    requires Resolve(model, name) == Bool(true)
    ensures SectionRendered(name, content, model, false, fuel) == Rendered(content, model, fuel)
  {
  }

  /** A section whose value is a string or an object renders its body with that value as the model. */
  lemma ValueSectionIsModel(name: string, content: string, model: Value, fuel: nat)
    requires Resolve(model, name).Str? || Resolve(model, name).Obj?
    ensures SectionRendered(name, content, model, false, fuel) == Rendered(content, Resolve(model, name), fuel)
  {
  }

  /** The concatenation of a list of strings. */
  function Concat(parts: seq<string>): string {
    if parts == [] then "" else Concat(parts[..|parts| - 1]) + parts[|parts| - 1]
  }

  lemma {:induction false} ItemsRenderedConcat(items: seq<Value>, content: string, fuel: nat, outs: seq<string>)
    requires |outs| == |items|
    requires forall i :: 0 <= i < |items| ==> Rendered(content, items[i], fuel) == Some(outs[i])
    ensures ItemsRendered(items, content, fuel) == Some(Concat(outs))
    decreases |items|
  {
    if items != [] {
      var n := |items| - 1;
      assert forall i :: 0 <= i < n ==> items[..n][i] == items[i] && outs[..n][i] == outs[i];
      ItemsRenderedConcat(items[..n], content, fuel, outs[..n]);
    }
  }

  /**
    A section over a non-empty enumerable renders its body once per item, in
    order, with the item as the model, and concatenates the results.
  */
  lemma ListSectionRendersEachItem(name: string, content: string, model: Value, fuel: nat, outs: seq<string>)
    requires Resolve(model, name).List? && |Resolve(model, name).items| > 0
    requires |outs| == |Resolve(model, name).items|
    requires forall i :: 0 <= i < |outs| ==> Rendered(content, Resolve(model, name).items[i], fuel) == Some(outs[i])
    ensures SectionRendered(name, content, model, false, fuel) == Some(Concat(outs))
  {
    ItemsRenderedConcat(Resolve(model, name).items, content, fuel, outs);
  }

  // ---------------------------------------------------------------------------
  // Fuel

  /** What the section pass leaves holds no section. */
  lemma {:induction false} SectionsPassLeavesNoSection(t: string, model: Value, fuel: nat)
    requires SectionsPass(t, model, fuel).Some?
    ensures FindSection(SectionsPass(t, model, fuel).value).None?
    decreases fuel
  {
    var found := FindSection(t);
    if found.None? {
      assert SectionsPass(t, model, fuel) == Some(t);
    } else {
      var s := found.value;
      SectionsPassRenders(t, model, fuel);
      var section := SectionRendered(s.name, t[s.bodyStart..s.bodyEnd], model, s.inverted, fuel - 1);
      SectionsPassReplace(t, model, fuel, s, section.value);
      SectionsPassLeavesNoSection(t[..s.start] + section.value + t[s.end..], model, fuel - 1);
    }
  }

  /** One replacement of the section pass, as a step of its own. */
  /** Text without a section is what the pass leaves. */
  lemma SectionsPassDone(t: string, model: Value, fuel: nat)
    requires FindSection(t).None?
    ensures SectionsPass(t, model, fuel) == Some(t)
  {
  }

  /** A pass that succeeds on text with a section has fuel left and renders that section. */
  lemma SectionsPassRenders(t: string, model: Value, fuel: nat)
    requires FindSection(t).Some? && SectionsPass(t, model, fuel).Some?
    ensures var s := FindSection(t).value;
      fuel > 0 && SectionRendered(s.name, t[s.bodyStart..s.bodyEnd], model, s.inverted, fuel - 1).Some?
  {
  }

  /** The pass replaces the leftmost section by its rendering and carries on with one unit of fuel less. */
  lemma SectionsPassReplace(t: string, model: Value, fuel: nat, s: Section, replacement: string)
    requires FindSection(t) == Some(s) && fuel > 0
    requires SectionRendered(s.name, t[s.bodyStart..s.bodyEnd], model, s.inverted, fuel - 1) == Some(replacement)
    ensures SectionsPass(t, model, fuel) == SectionsPass(t[..s.start] + replacement + t[s.end..], model, fuel - 1)
  {
  }

  /** With more fuel the section renders the same, so the pass goes on with the same text. */
  lemma SectionsPassMoreFuel(t: string, model: Value, fuel: nat, more: nat, s: Section, r: string)
    requires FindSection(t) == Some(s) && 0 < fuel <= more
    requires SectionRendered(s.name, t[s.bodyStart..s.bodyEnd], model, s.inverted, fuel - 1) == Some(r)
    ensures SectionsPass(t, model, fuel) == SectionsPass(t[..s.start] + r + t[s.end..], model, fuel - 1)
    ensures SectionsPass(t, model, more) == SectionsPass(t[..s.start] + r + t[s.end..], model, more - 1)
    decreases fuel, 0
  {
    SectionRenderedFuelMonotone(s.name, t[s.bodyStart..s.bodyEnd], model, s.inverted, fuel - 1, more - 1);
    SectionsPassReplace(t, model, fuel, s, r);
    SectionsPassReplace(t, model, more, s, r);
  }

  lemma {:induction false} SectionsPassFuelMonotone(t: string, model: Value, fuel: nat, more: nat)
    requires fuel <= more && SectionsPass(t, model, fuel).Some?
    ensures SectionsPass(t, model, more) == SectionsPass(t, model, fuel)
    decreases fuel, 1
  {
    var found := FindSection(t);
    if found.None? {
      SectionsPassDone(t, model, fuel);
      SectionsPassDone(t, model, more);
    } else {
      var s := found.value;
      var content := t[s.bodyStart..s.bodyEnd];
      SectionsPassRenders(t, model, fuel);
      var section := SectionRendered(s.name, content, model, s.inverted, fuel - 1);
      SectionsPassMoreFuel(t, model, fuel, more, s, section.value);
      SectionsPassFuelMonotone(t[..s.start] + section.value + t[s.end..], model, fuel - 1, more - 1);
    }
  }

  /** A rendering that succeeds with some fuel gives the same result with any more fuel. */
  lemma {:induction false} RenderedFuelMonotone(t: string, model: Value, fuel: nat, more: nat)
    requires fuel <= more && Rendered(t, model, fuel).Some?
    ensures Rendered(t, model, more) == Rendered(t, model, fuel)
    decreases fuel, 2
  {
    SectionsPassFuelMonotone(t, model, fuel, more);
  }

  lemma {:induction false} ItemsRenderedFuelMonotone(items: seq<Value>, content: string, fuel: nat, more: nat)
    requires fuel <= more && ItemsRendered(items, content, fuel).Some?
    ensures ItemsRendered(items, content, more) == ItemsRendered(items, content, fuel)
    decreases fuel, 3, |items|
  {
    if items != [] {
      ItemsRenderedFuelMonotone(items[..|items| - 1], content, fuel, more);
      RenderedFuelMonotone(content, items[|items| - 1], fuel, more);
    }
  }

  lemma {:induction false} SectionRenderedFuelMonotone(name: string, content: string, model: Value, inverted: bool,
                                                      fuel: nat, more: nat)
    requires fuel <= more && SectionRendered(name, content, model, inverted, fuel).Some?
    ensures SectionRendered(name, content, model, inverted, more) == SectionRendered(name, content, model, inverted, fuel)
    decreases fuel, 4
  {
    var value := Resolve(model, name);
    if !ShouldRenderSection(value, inverted) {
    } else if value.List? {
      ItemsRenderedFuelMonotone(value.items, content, fuel, more);
    } else if value.Bool? {
      if value.b {
        RenderedFuelMonotone(content, model, fuel, more);
      }
    } else if !value.Null? {
      RenderedFuelMonotone(content, value, fuel, more);
    }
  }
}
