/**
 * The document model: component records, prop records, the two universes
 * (per-page instance trees and the template registry) and the editor state
 * that holds them.
 *
 * Both prop-store shapes of the source abstract to one `PropTable`: the
 * props each component owns, in insertion order.
 *  - the flat `IProp[]` lists of components.ts are read per `componentId`
 *    (every scan there matches on `componentId` first);
 *  - the `{byId, byComponentId}` stores of moveComponent.ts and
 *    spanOperations.ts are `byComponentId[c]` resolved through `byId`.
 */
module Store {
  import opened Wrappers
  import opened Seqs

  /** A prop value: a string, a rich-text run sequence, or a boolean. */
  datatype Value = Str(s: string) | Runs(runs: seq<string>) | Flag(b: bool)

  datatype Prop = Prop(
    id: string,
    name: string,
    value: Value,
    derivedFromPropName: Option<string>,
    derivedFromComponentType: Option<string>)

  datatype Component = Component(id: string, ctype: string, parent: string, children: seq<string>)

  datatype Page = Page(id: string, name: string, componentsId: string, propsId: string)

  /** Components keyed by id (`IComponents`). */
  type Tree = map<string, Component>

  /** The props each component owns, in insertion order. */
  type PropTable = map<string, seq<Prop>>

  const DEFAULT_ID: string := "root"
  const DEFAULT_PAGE: string := "app"
  /** The tree and prop-store id of the secondary "Custom Page". */
  const CUSTOM_PAGE_STORE: string := "2"

  /** JavaScript truthiness of a nullable string: `null` and `""` are falsy. */
  predicate Truthy(o: Option<string>) {
    o.Some? && o.value != ""
  }

  /** JavaScript's `'' + value`: an array joins its elements with commas, a boolean spells itself. */
  function JsString(v: Value): string {
    match v
    case Str(s) => s
    case Runs(rs) => Join(rs, ",")
    case Flag(b) => if b then "true" else "false"
  }

  /** A prop with both alias fields null. */
  function PlainProp(id: string, name: string, value: Value): (p: Prop)
    ensures p.derivedFromPropName.None? && p.derivedFromComponentType.None?
    ensures p.id == id && p.name == name && p.value == value
  {
    Prop(id, name, value, None, None)
  }

  /** The props of `cid`; a component without props has none. */
  function PropsOf(t: PropTable, cid: string): seq<Prop> {
    if cid in t then t[cid] else []
  }

  /** `findIndex(prop => prop.name === name)`: the first prop of that name. */
  function FindProp(props: seq<Prop>, name: string): (r: Option<nat>)
    ensures r.Some? ==> r.value < |props| && props[r.value].name == name
    ensures r.Some? ==> forall j :: 0 <= j < r.value ==> props[j].name != name
    ensures r.None? <==> forall j :: 0 <= j < |props| ==> props[j].name != name
  {
    if |props| == 0 then None
    else if props[|props| - 1].name == name && FindProp(props[..|props| - 1], name).None? then Some(|props| - 1)
    else FindProp(props[..|props| - 1], name)
  }

  /** Lists with the same names, position by position, answer every name search alike. */
  lemma {:induction false} FindPropSameNames(a: seq<Prop>, b: seq<Prop>, name: string)
    requires |a| == |b| && forall i :: 0 <= i < |a| ==> a[i].name == b[i].name
    ensures FindProp(a, name) == FindProp(b, name)
  {
    if |a| > 0 {
      FindPropSameNames(a[..|a| - 1], b[..|b| - 1], name);
    }
  }

  /** Appending props never moves the first match of a name that was already there. */
  lemma {:induction false} FindPropConcat(a: seq<Prop>, b: seq<Prop>, name: string)
    ensures FindProp(a + b, name) ==
      if FindProp(a, name).Some? then FindProp(a, name)
      else if FindProp(b, name).Some? then Some(|a| + FindProp(b, name).value)
      else None
  {
    if |b| == 0 {
      assert a + b == a;
    } else {
      assert (a + b)[..|a + b| - 1] == a + b[..|b| - 1];
      FindPropConcat(a, b[..|b| - 1], name);
    }
  }

  /** The store's read accessor: (componentId, name) to the first prop of that name. */
  function Lookup(t: PropTable, cid: string, name: string): (r: Option<Prop>)
    ensures r.Some? ==> r.value in PropsOf(t, cid) && r.value.name == name
    ensures r.None? <==> forall j :: 0 <= j < |PropsOf(t, cid)| ==> PropsOf(t, cid)[j].name != name
  {
    var ps := PropsOf(t, cid);
    match FindProp(ps, name)
    case Some(i) => Some(ps[i])
    case None => None
  }

  /** How many props of the list carry `name`. */
  function CountNamed(props: seq<Prop>, name: string): nat {
    if |props| == 0 then 0
    else CountNamed(props[..|props| - 1], name) + (if props[|props| - 1].name == name then 1 else 0)
  }

  lemma {:induction false} CountNamedAppend(a: seq<Prop>, b: seq<Prop>, name: string)
    ensures CountNamed(a + b, name) == CountNamed(a, name) + CountNamed(b, name)
  {
    if |b| == 0 {
      assert a + b == a;
    } else {
      assert (a + b)[..|a + b| - 1] == a + b[..|b| - 1];
      CountNamedAppend(a, b[..|b| - 1], name);
    }
  }

  /** No name occurs twice in the list: at most one prop per (componentId, name). */
  predicate UniqueNames(props: seq<Prop>) {
    forall i, j :: 0 <= i < j < |props| ==> props[i].name != props[j].name
  }

  /** The ids of `order` are exactly `keys`, each once (an `Object.keys` / `Object.values` order). */
  ghost predicate Enumerates(order: seq<string>, keys: set<string>) {
    NoDup(order) && (forall k :: k in order <==> k in keys)
  }

  /**
   * The tree invariant: every record is stored under its own id, a parent's
   * `children` lists each child once, every listed child points back at that
   * parent, and every non-root node is listed by its parent.
   */
  ghost predicate Linked(t: Tree) {
    KeyedById(t) && ChildrenDistinct(t) && ChildrenPointBack(t) && ParentsList(t)
  }

  ghost predicate KeyedById(t: Tree) {
    forall x :: x in t ==> t[x].id == x
  }

  ghost predicate ChildrenDistinct(t: Tree) {
    forall x :: x in t ==> NoDup(t[x].children)
  }

  ghost predicate ChildrenPointBack(t: Tree) {
    forall x, c :: x in t && c in t[x].children ==> c in t && t[c].parent == x
  }

  ghost predicate ParentsList(t: Tree) {
    forall x :: x in t && t[x].parent != "" ==> t[x].parent in t && x in t[t[x].parent].children
  }

  /** Following `parent` links `k` times from `id` (stopping outside the tree). */
  ghost function Climb(t: Tree, id: string, k: nat): string
    decreases k
  {
    if k == 0 || id !in t then id else Climb(t, t[id].parent, k - 1)
  }

  /**
   * `root` is what `searchRootCustomComponent` returns for `id`: the template
   * root (empty `parent`) reached by following parents from `id`.
   * Assumed contract of that helper, which is not part of this model.
   */
  ghost predicate IsRootOf(t: Tree, root: string, id: string) {
    root in t && t[root].parent == "" && exists k: nat :: Climb(t, id, k) == root
  }

  /**
   * `sub` is the subtree of `id`: it holds `id`, every child of a member,
   * and every member but `id` has its parent inside. Assumed contract of the
   * recursive helpers (`deleteComp`, `moveComp`), which walk exactly this set.
   */
  ghost predicate SubtreeOf(t: Tree, id: string, sub: set<string>) {
    && id in sub && sub <= t.Keys
    && (forall x, c :: x in sub && c in t[x].children && c in t ==> c in sub)
    && (forall x :: x in sub && x != id ==> t[x].parent in sub)
  }

  /**
   * `m` is a detached subtree hanging from `id`: linked within itself,
   * every node but `id` listed by a parent inside `m`, and `id`'s own
   * parent outside it, as a subtree looks once cut out of its tree.
   */
  ghost predicate HangsFrom(m: Tree, id: string) {
    && id in m && m[id].parent !in m
    && KeyedById(m) && ChildrenDistinct(m) && ChildrenPointBack(m)
    && (forall x :: x in m && x != id ==> m[x].parent in m && x in m[m[x].parent].children)
  }

  /** The stores the source keeps in one state object. */
  datatype Stores = Stores(
    componentsById: map<string, Tree>,
    propsById: map<string, PropTable>,
    customComponents: Tree,
    customComponentsProps: PropTable)

  /** The state of the editor (`ComponentsState`), updated in place by the reducers. */
  class ComponentsState {
    var pages: map<string, Page>
    var componentsById: map<string, Tree>
    var propsById: map<string, PropTable>
    var customComponents: Tree
    var customComponentsProps: PropTable
    var selectedPage: string
    var selectedId: string
    var hoveredId: Option<string>
    /** The fresh-id generator: the next id handed out is `IdOf(idCounter)`. */
    var idCounter: nat

    /** The selected page and the stores it names exist. */
    ghost predicate Valid()
      reads this
    {
      && selectedPage in pages
      && pages[selectedPage].componentsId in componentsById
      && pages[selectedPage].propsId in propsById
    }

    function ComponentsId(): string
      reads this
      requires Valid()
    {
      pages[selectedPage].componentsId
    }

    function PropsId(): string
      reads this
      requires Valid()
    {
      pages[selectedPage].propsId
    }

    /** The selected page's tree. */
    function PageTree(): Tree
      reads this
      requires Valid()
    {
      componentsById[ComponentsId()]
    }

    /** The selected page's props. */
    function PageProps(): PropTable
      reads this
      requires Valid()
    {
      propsById[PropsId()]
    }

    function AllStores(): Stores
      reads this
    {
      Stores(componentsById, propsById, customComponents, customComponentsProps)
    }

    /** The initial state: pages `app` and `customPage`, each with an empty `root` Box. */
    constructor Initial()
      ensures Valid()
      ensures pages == InitialPages() && componentsById == InitialComponents()
      ensures propsById == map["1" := map[], "2" := map[]]
      ensures customComponents == map[] && customComponentsProps == map[]
      ensures selectedPage == DEFAULT_PAGE && selectedId == DEFAULT_ID && hoveredId == None
    {
      pages := InitialPages();
      componentsById := InitialComponents();
      propsById := map["1" := map[], "2" := map[]];
      customComponents := map[];
      customComponentsProps := map[];
      selectedPage := DEFAULT_PAGE;
      selectedId := DEFAULT_ID;
      hoveredId := None;
      idCounter := 0;
    }
  }

  function InitialPages(): map<string, Page> {
    map["app" := Page("app", "App", "1", "1"),
        "customPage" := Page("customPage", "Custom Page", "2", "2")]
  }

  function RootBox(): Component {
    Component(DEFAULT_ID, "Box", "", [])
  }

  function InitialComponents(): map<string, Tree> {
    map["1" := map[DEFAULT_ID := RootBox()], "2" := map[DEFAULT_ID := RootBox()]]
  }

  /** The initial trees satisfy the tree invariant. */
  lemma InitialLinked()
    ensures forall k :: k in InitialComponents() ==> Linked(InitialComponents()[k])
  {
  }

  /** The decimal digits of `n`. */
  function Digits(n: nat): (s: string)
    ensures |s| > 0
  {
    var d := ['0', '1', '2', '3', '4', '5', '6', '7', '8', '9'][n % 10];
    if n < 10 then [d] else Digits(n / 10) + [d]
  }

  /** The id that the generator's `n`-th call returns. */
  function IdOf(n: nat): string {
    "id-" + Digits(n)
  }

  /**
   * `generateId()`: hands out the next id. Collision freedom of the generated
   * ids is what callers state as `requires IdOf(st.idCounter) !in ...`.
   */
  method GenerateId(st: ComponentsState) returns (id: string)
    modifies st`idCounter
    ensures id == IdOf(old(st.idCounter)) && st.idCounter == old(st.idCounter) + 1
  {
    id := IdOf(st.idCounter);
    st.idCounter := st.idCounter + 1;
  }
}
