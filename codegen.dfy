/**
 * The code generator of buildBlock.ts: from a list of child ids, the
 * component tree and the prop store, the JSX text of those children.
 *
 * `buildBlock` recurses through three kinds of nested call (a prop value
 * naming a live component, an id run inside a rich-text `children` value,
 * and a node's structural children), so the model counts the nested calls
 * it may still make with `fuel`; `Block(0, ...)` is the cut-off. The
 * functions `Block`, `Element`, `Attrs`, `Attr` and `RunsText` are the
 * reference meaning; the methods `BuildBlock`, `BuildElement`, `BuildAttrs`
 * and `BuildRuns` are the source's `forEach` loops proved equal to them.
 *
 * JavaScript's `isNaN` coercion is the parameter `looksNumeric`
 * (`looksNumeric(v)` is `!isNaN(v)`); whitespace inside the multi-line
 * template literals is normalised away.
 */
module Codegen {
  import opened Wrappers
  import opened Seqs
  import opened Store

  type NumericFn = Value -> bool

  // ------------------------------------------------------------ capitalize

  /** ASCII upper-casing of one character. */
  function Upper(c: char): char {
    if 'a' <= c <= 'z' then (c as int - 32) as char else c
  }

  predicate IsLower(c: char) {
    'a' <= c <= 'z'
  }

  /** `value.charAt(0).toUpperCase() + value.slice(1)`. */
  function Capitalize(s: string): (r: string)
    ensures |r| == |s|
    ensures s == "" ==> r == ""
    ensures s != "" ==> !IsLower(r[0]) && (IsLower(s[0]) || r[0] == s[0])
    ensures forall i :: 1 <= i < |s| ==> r[i] == s[i]
  {
    if s == "" then "" else [Upper(s[0])] + s[1..]
  }

  /** Capitalizing twice is capitalizing once, and a name already capitalized is kept. */
  lemma CapitalizeIdempotent(s: string)
    ensures Capitalize(Capitalize(s)) == Capitalize(s)
    ensures (s == "" || !IsLower(s[0])) ==> Capitalize(s) == s
  {
    if s != "" {
      var r := Capitalize(s);
      assert Capitalize(r) == [Upper(r[0])] + r[1..];
      assert r[1..] == s[1..];
    }
  }

  // ------------------------------------------------------------ iconPropsHandler

  predicate IsIconSlot(propName: string) {
    propName == "icon" || propName == "leftIcon" || propName == "rightIcon"
  }

  /** `iconPropsHandler({componentType, propName, propValue, oldValue})`. */
  function IconProps(componentType: string, propName: string, propValue: string, oldValue: string): (r: string)
    ensures componentType == "Icon" && propName == "as" ==> r == "={" + propValue + "}"
    ensures !(componentType == "Icon" && propName == "as") && IsIconSlot(propName) ==> r == "={<" + propValue + " />}"
    ensures !(componentType == "Icon" && propName == "as") && !IsIconSlot(propName) ==> r == oldValue
  {
    if componentType == "Icon" && propName == "as" then "={" + propValue + "}"
    else if IsIconSlot(propName) then "={<" + propValue + " />}"
    else oldValue
  }

  /** An attribute's value text: `=` followed by a braced expression, or by a quoted string. */
  predicate ValueForm(v: string) {
    (|v| >= 3 && v[..2] == "={" && v[|v| - 1] == '}') || (|v| >= 3 && v[..2] == "='" && v[|v| - 1] == '\'')
  }

  /** The handler only ever turns a value text into a braced expression, or keeps it. */
  lemma IconPropsKeepsValueForm(componentType: string, propName: string, propValue: string, oldValue: string)
    requires ValueForm(oldValue)
    ensures ValueForm(IconProps(componentType, propName, propValue, oldValue))
  {
    var r := IconProps(componentType, propName, propValue, oldValue);
    if r != oldValue {
      assert r[..2] == "={";
    }
  }

  // ------------------------------------------------------------ one prop's attribute

  /** JavaScript truthiness of a prop value: the empty string and `false` are falsy, arrays are truthy. */
  predicate ValueTruthy(v: Value) {
    match v
    case Str(s) => s != ""
    case Runs(_) => true
    case Flag(b) => b
  }

  /** `propsValue === true || propsValue === 'true' || propsValue === 'false' || isBoolean(propsValue)`. */
  predicate BooleanIsh(v: Value) {
    v.Flag? || v == Str("true") || v == Str("false")
  }

  /** `=${isNaN(propsValue) ? "'" + propsValue + "'" : '{' + propsValue + '}'}`. */
  function Quoted(v: Value, looksNumeric: NumericFn): (r: string)
    ensures ValueForm(r)
  {
    if looksNumeric(v) then "={" + JsString(v) + "}" else "='" + JsString(v) + "'"
  }

  /**
   * The text one prop adds to `propsContent` when it is emitted and not
   * aliased: handled by `iconPropsHandler`, then a `<Box>` around the
   * rendering of the component the value names, then bare for a boolean-ish
   * value.
   */
  function PlainValue(fuel: nat, ctype: string, p: Prop, comps: Tree, props: PropTable, looksNumeric: NumericFn): string
    decreases fuel, 1, 0
  {
    var key := JsString(p.value);
    if BooleanIsh(p.value) then ""
    else if key in comps then "={<Box>" + Block(fuel, comps[key].children, comps, props, looksNumeric) + "</Box>}"
    else IconProps(ctype, p.name, key, Quoted(p.value, looksNumeric))
  }

  /** What one prop of a node of type `ctype` adds to the node's attribute text. */
  function Attr(fuel: nat, ctype: string, p: Prop, comps: Tree, props: PropTable, looksNumeric: NumericFn): string
    decreases fuel, 2, 0
  {
    if !(ValueTruthy(p.value) || Truthy(p.derivedFromPropName)) || p.name == "children" then ""
    else if Truthy(p.derivedFromPropName) then p.name + "={" + p.derivedFromPropName.value + "} "
    else p.name + PlainValue(fuel, ctype, p, comps, props, looksNumeric) + " "
  }

  /** `propsContent`: the attributes of the props in order. */
  function Attrs(fuel: nat, ctype: string, ps: seq<Prop>, comps: Tree, props: PropTable, looksNumeric: NumericFn): string
    decreases fuel, 3, |ps|
  {
    if ps == [] then ""
    else Attrs(fuel, ctype, ps[..|ps| - 1], comps, props, looksNumeric)
         + Attr(fuel, ctype, ps[|ps| - 1], comps, props, looksNumeric)
  }

  // ------------------------------------------------------------ content

  /** `childrenValue`: a rich-text value, each id run of a live node rendered, each other run kept as text. */
  function RunsText(fuel: nat, runs: seq<string>, comps: Tree, props: PropTable, looksNumeric: NumericFn): string
    decreases fuel, 1, |runs|
  {
    if runs == [] then ""
    else
      var x := runs[|runs| - 1];
      RunsText(fuel, runs[..|runs| - 1], comps, props, looksNumeric)
      + (if x in comps then Block(fuel, [x], comps, props, looksNumeric) else x)
  }

  function Open(name: string, attrs: string): string {
    "<" + name + " " + attrs + ">"
  }

  function Close(name: string): string {
    "</" + name + ">"
  }

  /**
   * What goes between a live child's tags, by the source's precedence;
   * `None` for a tag that closes itself.
   */
  function Content(fuel: nat, c: Component, comps: Tree, props: PropTable, looksNumeric: NumericFn): Option<string>
    decreases fuel, 2, 1
  {
    var ps := PropsOf(props, c.id);
    var cp := FindProp(ps, "children");
    if cp.Some? && ValueTruthy(ps[cp.value].value) && ps[cp.value].derivedFromPropName.None? then
      match ps[cp.value].value
      case Runs(runs) => Some(RunsText(fuel, runs, comps, props, looksNumeric))
      case v => Some(JsString(v))
    else if |c.children| > 0 then Some(Block(fuel, c.children, comps, props, looksNumeric))
    else if cp.Some? && Truthy(ps[cp.value].derivedFromPropName) then Some("{" + ps[cp.value].derivedFromPropName.value + "}")
    else None
  }

  /** The text of a live child: its tag with attributes, around its content. */
  function Element(fuel: nat, key: string, comps: Tree, props: PropTable, looksNumeric: NumericFn): string
    decreases fuel, 4, 0
  {
    if key !in comps then ""
    else
      var c := comps[key];
      var name := Capitalize(c.ctype);
      var attrs := Attrs(fuel, c.ctype, PropsOf(props, c.id), comps, props, looksNumeric);
      match Content(fuel, c, comps, props, looksNumeric)
      case Some(inner) => Open(name, attrs) + inner + Close(name)
      case None => "<" + name + " " + attrs + " />"
  }

  /** `buildBlock(children, components, props)` with `fuel` nested calls left. */
  function Block(fuel: nat, children: seq<string>, comps: Tree, props: PropTable, looksNumeric: NumericFn): string
    decreases fuel, 0, |children|
  {
    if fuel == 0 || children == [] then ""
    else Block(fuel, children[..|children| - 1], comps, props, looksNumeric)
         + Element(fuel - 1, children[|children| - 1], comps, props, looksNumeric)
  }

  // ------------------------------------------------------------ properties

  /** Rendering a concatenation of child lists is concatenating their renderings: children come out in list order. */
  lemma {:induction false} BlockAppend(fuel: nat, a: seq<string>, b: seq<string>, comps: Tree, props: PropTable, looksNumeric: NumericFn)
    ensures Block(fuel, a + b, comps, props, looksNumeric)
         == Block(fuel, a, comps, props, looksNumeric) + Block(fuel, b, comps, props, looksNumeric)
    decreases |b|
  {
    if fuel == 0 || b == [] {
      assert a + b == a || fuel == 0;
    } else {
      assert (a + b)[..|a + b| - 1] == a + b[..|b| - 1];
      BlockAppend(fuel, a, b[..|b| - 1], comps, props, looksNumeric);
    }
  }

  /** One child renders as its element. */
  lemma BlockOne(fuel: nat, key: string, comps: Tree, props: PropTable, looksNumeric: NumericFn)
    requires fuel > 0
    ensures Block(fuel, [key], comps, props, looksNumeric) == Element(fuel - 1, key, comps, props, looksNumeric)
  {
    assert [key][..0] == [];
  }

  /** The child ids that name a live component, in order. */
  function Known(children: seq<string>, comps: Tree): (r: seq<string>)
    ensures forall k :: k in r <==> k in children && k in comps
  {
    if children == [] then []
    else Known(children[..|children| - 1], comps) + (if children[|children| - 1] in comps then [children[|children| - 1]] else [])
  }

  /** An unknown child id contributes no text: only the known ones are rendered. */
  lemma {:induction false} BlockSkipsUnknown(fuel: nat, children: seq<string>, comps: Tree, props: PropTable, looksNumeric: NumericFn)
    ensures Block(fuel, children, comps, props, looksNumeric) == Block(fuel, Known(children, comps), comps, props, looksNumeric)
    decreases |children|
  {
    if fuel > 0 && children != [] {
      var init, x := children[..|children| - 1], children[|children| - 1];
      BlockSkipsUnknown(fuel, init, comps, props, looksNumeric);
      if x in comps {
        BlockAppend(fuel, Known(init, comps), [x], comps, props, looksNumeric);
        BlockOne(fuel, x, comps, props, looksNumeric);
      } else {
        assert Known(children, comps) == Known(init, comps) + [];
        assert Known(init, comps) + [] == Known(init, comps);
      }
    }
  }

  /** A prop that is emitted at all: a truthy value or alias, and not `children`. */
  predicate Emitted(p: Prop) {
    (ValueTruthy(p.value) || Truthy(p.derivedFromPropName)) && p.name != "children"
  }

  function EmittedProps(ps: seq<Prop>): (r: seq<Prop>)
    ensures forall p :: p in r <==> p in ps && Emitted(p)
  {
    if ps == [] then []
    else EmittedProps(ps[..|ps| - 1]) + (if Emitted(ps[|ps| - 1]) then [ps[|ps| - 1]] else [])
  }

  /**
   * A prop with a falsy value and no alias, and any `children` prop, adds
   * nothing to the attribute text: it is the attributes of the emitted props alone.
   */
  lemma {:induction false} AttrsOfEmitted(fuel: nat, ctype: string, ps: seq<Prop>, comps: Tree, props: PropTable, looksNumeric: NumericFn)
    ensures Attrs(fuel, ctype, ps, comps, props, looksNumeric) == Attrs(fuel, ctype, EmittedProps(ps), comps, props, looksNumeric)
    decreases |ps|
  {
    if ps != [] {
      var init, x := ps[..|ps| - 1], ps[|ps| - 1];
      AttrsOfEmitted(fuel, ctype, init, comps, props, looksNumeric);
      var e := EmittedProps(init);
      if Emitted(x) {
        assert (e + [x])[..|e + [x]| - 1] == e;
      } else {
        assert EmittedProps(ps) == e + [];
        assert e + [] == e;
      }
    }
  }

  /**
   * An emitted prop comes out as its name, an optional value and a space,
   * and the value is JSX attribute syntax: `={...}` or `='...'`.
   */
  lemma AttrIsAttribute(fuel: nat, ctype: string, p: Prop, comps: Tree, props: PropTable, looksNumeric: NumericFn)
    ensures var r := Attr(fuel, ctype, p, comps, props, looksNumeric);
      && (r == "" <==> !Emitted(p))
      && (Emitted(p) ==>
            && |r| > |p.name| && r[..|p.name|] == p.name && r[|r| - 1] == ' '
            && var v := r[|p.name|..|r| - 1]; v == "" || ValueForm(v))
  {
    var r := Attr(fuel, ctype, p, comps, props, looksNumeric);
    if Emitted(p) {
      var v := if Truthy(p.derivedFromPropName) then "={" + p.derivedFromPropName.value + "}"
               else PlainValue(fuel, ctype, p, comps, props, looksNumeric);
      assert r == p.name + v + " ";
      NameValueSpace(p.name, v);
      if !Truthy(p.derivedFromPropName) && !BooleanIsh(p.value) && JsString(p.value) !in comps {
        IconPropsKeepsValueForm(ctype, p.name, JsString(p.value), Quoted(p.value, looksNumeric));
      }
    }
  }

  lemma NameValueSpace(name: string, v: string)
    ensures var r := name + v + " ";
      |r| > |name| && r[..|name|] == name && r[|r| - 1] == ' ' && r[|name|..|r| - 1] == v
  {
    var r := name + v + " ";
    assert r == name + (v + " ");
  }

  /**
   * The value rules of an emitted prop, in the source's order: an alias
   * wins whatever the value; otherwise a boolean-ish value is a bare name,
   * overriding a value that names a live component, which is a `<Box>`
   * around that component's children, overriding `iconPropsHandler`.
   */
  lemma AttrRules(fuel: nat, ctype: string, p: Prop, comps: Tree, props: PropTable, looksNumeric: NumericFn)
    requires Emitted(p)
    ensures var r := Attr(fuel, ctype, p, comps, props, looksNumeric);
      var key := JsString(p.value);
      && (Truthy(p.derivedFromPropName) ==> r == p.name + "={" + p.derivedFromPropName.value + "} ")
      && (!Truthy(p.derivedFromPropName) && BooleanIsh(p.value) ==> r == p.name + " ")
      && (!Truthy(p.derivedFromPropName) && !BooleanIsh(p.value) && key in comps ==>
            r == p.name + "={<Box>" + Block(fuel, comps[key].children, comps, props, looksNumeric) + "</Box>} ")
      && (!Truthy(p.derivedFromPropName) && !BooleanIsh(p.value) && key !in comps ==>
            r == p.name + IconProps(ctype, p.name, key, Quoted(p.value, looksNumeric)) + " ")
  {
    if !Truthy(p.derivedFromPropName) {
      assert Attr(fuel, ctype, p, comps, props, looksNumeric) == p.name + PlainValue(fuel, ctype, p, comps, props, looksNumeric) + " ";
    }
  }

  /** A rich-text value naming no live component reads as its runs put together. */
  lemma {:induction false} RunsTextPlain(fuel: nat, runs: seq<string>, comps: Tree, props: PropTable, looksNumeric: NumericFn)
    requires forall r :: r in runs ==> r !in comps
    ensures RunsText(fuel, runs, comps, props, looksNumeric) == Concat(runs)
    decreases |runs|
  {
    if runs != [] {
      assert forall r :: r in runs[..|runs| - 1] ==> r in runs;
      RunsTextPlain(fuel, runs[..|runs| - 1], comps, props, looksNumeric);
    }
  }

  /**
   * The content precedence of a live child: an unaliased truthy scalar
   * `children` is its literal text; an unaliased array `children` is its
   * runs with live ids rendered; otherwise the structural children;
   * otherwise an aliased `children` is `{alias}`; otherwise the tag closes
   * itself.
   */
  lemma ContentPrecedence(fuel: nat, c: Component, comps: Tree, props: PropTable, looksNumeric: NumericFn)
    ensures var ps := PropsOf(props, c.id);
      var cp := FindProp(ps, "children");
      var r := Content(fuel, c, comps, props, looksNumeric);
      var textual := cp.Some? && ValueTruthy(ps[cp.value].value) && ps[cp.value].derivedFromPropName.None?;
      && (textual && !ps[cp.value].value.Runs? ==> r == Some(JsString(ps[cp.value].value)))
      && (textual && ps[cp.value].value.Runs? ==> r == Some(RunsText(fuel, ps[cp.value].value.runs, comps, props, looksNumeric)))
      && (!textual && |c.children| > 0 ==> r == Some(Block(fuel, c.children, comps, props, looksNumeric)))
      && (!textual && |c.children| == 0 && cp.Some? && Truthy(ps[cp.value].derivedFromPropName) ==>
            r == Some("{" + ps[cp.value].derivedFromPropName.value + "}"))
      && (r.None? <==> !textual && |c.children| == 0 && !(cp.Some? && Truthy(ps[cp.value].derivedFromPropName)))
  {
  }

  /** A live child is one balanced tag: it opens with its capitalized type and closes with the same name, or closes itself. */
  lemma ElementIsTag(fuel: nat, key: string, comps: Tree, props: PropTable, looksNumeric: NumericFn)
    requires key in comps
    ensures var name := Capitalize(comps[key].ctype);
      var e := Element(fuel, key, comps, props, looksNumeric);
      && |e| >= |name| + 3 && e[..|name| + 2] == "<" + name + " "
      && ((|e| >= |name| + 6 && e[|e| - |name| - 3..] == Close(name)) || e[|e| - 3..] == " />")
  {
    var c := comps[key];
    var name := Capitalize(c.ctype);
    var attrs := Attrs(fuel, c.ctype, PropsOf(props, c.id), comps, props, looksNumeric);
    match Content(fuel, c, comps, props, looksNumeric)
    case Some(inner) => PairedTag(name, attrs, inner);
    case None => SelfClosingTag(name, attrs);
  }

  lemma PairedTag(name: string, attrs: string, inner: string)
    ensures var e := Open(name, attrs) + inner + Close(name);
      && |e| >= |name| + 6 && e[..|name| + 2] == "<" + name + " " && e[|e| - |name| - 3..] == Close(name)
  {
    var e := Open(name, attrs) + inner + Close(name);
    assert e == "<" + name + " " + (attrs + ">" + inner + "</" + name + ">");
    assert e == ("<" + name + " " + attrs + ">" + inner) + Close(name);
  }

  lemma SelfClosingTag(name: string, attrs: string)
    ensures var e := "<" + name + " " + attrs + " />";
      && |e| >= |name| + 3 && e[..|name| + 2] == "<" + name + " " && e[|e| - 3..] == " />"
  {
    var e := "<" + name + " " + attrs + " />";
    assert e == "<" + name + " " + (attrs + " />");
    assert e == ("<" + name + " " + attrs) + " />";
  }

  // ------------------------------------------------------------ the loops

  /** `buildBlock`: the `forEach` over the child ids. */
  method BuildBlock(fuel: nat, children: seq<string>, comps: Tree, props: PropTable, looksNumeric: NumericFn)
    returns (content: string)
    ensures content == Block(fuel, children, comps, props, looksNumeric)
    decreases fuel, 0
  {
    content := "";
    if fuel == 0 {
      return;
    }
    var i := 0;
    while i < |children|
      invariant 0 <= i <= |children|
      invariant content == Block(fuel, children[..i], comps, props, looksNumeric)
    {
      assert children[..i + 1][..i] == children[..i];
      var text := BuildElement(fuel - 1, children[i], comps, props, looksNumeric);
      content := content + text;
      i := i + 1;
    }
    assert children[..i] == children;
  }

  /** The body of the `forEach` for one child id. */
  method BuildElement(fuel: nat, key: string, comps: Tree, props: PropTable, looksNumeric: NumericFn)
    returns (content: string)
    ensures content == Element(fuel, key, comps, props, looksNumeric)
    decreases fuel, 3
  {
    if key !in comps {
      return "";
    }
    var childComponent := comps[key];
    var componentName := Capitalize(childComponent.ctype);
    var ps := PropsOf(props, childComponent.id);
    var propsContent := BuildAttrs(fuel, childComponent.ctype, ps, comps, props, looksNumeric);
    var cp := FindProp(ps, "children");
    if cp.Some? && ValueTruthy(ps[cp.value].value) && ps[cp.value].derivedFromPropName.None? {
      if ps[cp.value].value.Runs? {
        var childrenValue := BuildRuns(fuel, ps[cp.value].value.runs, comps, props, looksNumeric);
        content := Open(componentName, propsContent) + childrenValue + Close(componentName);
      } else {
        content := Open(componentName, propsContent) + JsString(ps[cp.value].value) + Close(componentName);
      }
    } else if |childComponent.children| > 0 {
      var inner := BuildBlock(fuel, childComponent.children, comps, props, looksNumeric);
      content := Open(componentName, propsContent) + inner + Close(componentName);
    } else if cp.Some? && Truthy(ps[cp.value].derivedFromPropName) {
      content := Open(componentName, propsContent) + "{" + ps[cp.value].derivedFromPropName.value + "}" + Close(componentName);
    } else {
      content := "<" + componentName + " " + propsContent + " />";
    }
  }

  /** The `forEach` over a node's props that builds `propsContent`. */
  method BuildAttrs(fuel: nat, ctype: string, ps: seq<Prop>, comps: Tree, props: PropTable, looksNumeric: NumericFn)
    returns (propsContent: string)
    ensures propsContent == Attrs(fuel, ctype, ps, comps, props, looksNumeric)
    decreases fuel, 2
  {
    propsContent := "";
    var j := 0;
    while j < |ps|
      invariant 0 <= j <= |ps|
      invariant propsContent == Attrs(fuel, ctype, ps[..j], comps, props, looksNumeric)
    {
      assert ps[..j + 1][..j] == ps[..j];
      var text := BuildAttr(fuel, ctype, ps[j], comps, props, looksNumeric);
      propsContent := propsContent + text;
      j := j + 1;
    }
    assert ps[..j] == ps;
  }

  /** The body of that `forEach` for one prop. */
  method BuildAttr(fuel: nat, ctype: string, prop: Prop, comps: Tree, props: PropTable, looksNumeric: NumericFn)
    returns (text: string)
    ensures text == Attr(fuel, ctype, prop, comps, props, looksNumeric)
    decreases fuel, 1
  {
    text := "";
    if ValueTruthy(prop.value) || Truthy(prop.derivedFromPropName) {
      var value := Quoted(prop.value, looksNumeric);
      if prop.name != "children" {
        if Truthy(prop.derivedFromPropName) {
          value := "={" + prop.derivedFromPropName.value + "}";
        } else {
          value := IconProps(ctype, prop.name, JsString(prop.value), value);
          if JsString(prop.value) in comps {
            var inner := BuildBlock(fuel, comps[JsString(prop.value)].children, comps, props, looksNumeric);
            value := "={<Box>" + inner + "</Box>}";
          }
          if BooleanIsh(prop.value) {
            value := "";
          }
        }
        text := prop.name + value + " ";
      }
    }
  }

  /** The `forEach` over a rich-text value that builds `childrenValue`. */
  method BuildRuns(fuel: nat, runs: seq<string>, comps: Tree, props: PropTable, looksNumeric: NumericFn)
    returns (childrenValue: string)
    ensures childrenValue == RunsText(fuel, runs, comps, props, looksNumeric)
    decreases fuel, 2
  {
    childrenValue := "";
    var j := 0;
    while j < |runs|
      invariant 0 <= j <= |runs|
      invariant childrenValue == RunsText(fuel, runs[..j], comps, props, looksNumeric)
    {
      assert runs[..j + 1][..j] == runs[..j];
      var child := runs[j];
      if child in comps {
        var inner := BuildBlock(fuel, [child], comps, props, looksNumeric);
        childrenValue := childrenValue + inner;
      } else {
        childrenValue := childrenValue + child;
      }
      j := j + 1;
    }
    assert runs[..j] == runs;
  }
}
