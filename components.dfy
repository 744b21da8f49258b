/**
 * The reducers of components.ts as methods on the editor state: each one
 * performs, step by step and with the source's `forEach` loops, the update
 * that modules ComponentProps and ComponentTree describe as functions, and
 * is proved to leave exactly that state.
 *
 * `checkIsChildOfCustomComponent(id, customComponents)` is the key test
 * `id in st.customComponents` (a registry record is a truthy object).
 */
module Components {
  import opened Wrappers
  import opened Seqs
  import opened Store
  import opened Recursive
  import opened ComponentProps
  import opened ComponentTree

  // ------------------------------------------------------------------ loops

  /**
   * The `forEach` over the instances of `ty` (visited in `order`) that
   * pushes a plain prop `name = value` onto each, drawing one generated id
   * per push.
   */
  method PushLoop(t: PropTable, nodes: Tree, order: seq<string>, ty: string, name: string, value: Value, counter: nat)
    returns (r: PropTable, next: nat)
    ensures (r, next) == PushToInstances(t, nodes, order, ty, name, value, counter)
  {
    r, next := t, counter;
    var i := 0;
    while i < |order|
      invariant 0 <= i <= |order|
      invariant (r, next) == PushToInstances(t, nodes, order[..i], ty, name, value, counter)
    {
      ghost var prefix := order[..i + 1];
      assert prefix[..|prefix| - 1] == order[..i] && prefix[|prefix| - 1] == order[i];
      var k := order[i];
      if k in nodes && nodes[k].ctype == ty {
        var cid := nodes[k].id;
        r := r[cid := PropsOf(r, cid) + [PlainProp(IdOf(next), name, value)]];
        next := next + 1;
      }
      i := i + 1;
    }
    assert order[..|order|] == order;
  }

  /**
   * The `forEach` over the instances of `ty` that splices out each one's
   * first prop named `name`.
   */
  method RemoveLoop(t: PropTable, nodes: Tree, order: seq<string>, ty: string, name: string) returns (r: PropTable)
    ensures r == RemoveFromInstances(t, nodes, order, ty, name)
  {
    r := t;
    var i := 0;
    while i < |order|
      invariant 0 <= i <= |order|
      invariant r == RemoveFromInstances(t, nodes, order[..i], ty, name)
    {
      ghost var prefix := order[..i + 1];
      assert prefix[..|prefix| - 1] == order[..i] && prefix[|prefix| - 1] == order[i];
      var k := order[i];
      if k in nodes && nodes[k].ctype == ty {
        var cid := nodes[k].id;
        r := r[cid := RemoveFirstNamed(PropsOf(r, cid), name)];
      }
      i := i + 1;
    }
    assert order[..|order|] == order;
  }

  /** The in-place `forEach((prop, index) => ...)` that un-aliases one list's props aliased as (ty, name). */
  method ClearAliasesInLoop(ps: seq<Prop>, ty: string, name: string) returns (r: seq<Prop>)
    ensures r == ClearAliasesIn(ps, ty, name)
  {
    r := [];
    var j := 0;
    while j < |ps|
      invariant 0 <= j <= |ps|
      invariant r == ClearAliasesIn(ps[..j], ty, name)
    {
      assert ps[..j + 1][..j] == ps[..j];
      r := r + [ClearAlias(ps[j], ty, name)];
      j := j + 1;
    }
    assert ps[..|ps|] == ps;
  }

  /** The same pass over every component's list of the registry, one component at a time. */
  method ClearAliasesLoop(t: PropTable, ty: string, name: string) returns (r: PropTable)
    ensures r == ClearAliases(t, ty, name)
  {
    r := t;
    var todo := t.Keys;
    while todo != {}
      invariant todo <= t.Keys && r.Keys == t.Keys
      invariant forall k :: k in t && k !in todo ==> r[k] == ClearAliasesIn(t[k], ty, name)
      invariant forall k :: k in todo ==> r[k] == t[k]
      decreases todo
    {
      var k :| k in todo;
      var l := ClearAliasesInLoop(r[k], ty, name);
      r := r[k := l];
      todo := todo - {k};
    }
    assert r == ClearAliases(t, ty, name);
  }

  /** `duplicateProps`: the `forEach` that copies each prop under the next generated id. */
  method DuplicatePropsLoop(ps: seq<Prop>, counter: nat) returns (r: seq<Prop>, next: nat)
    ensures r == DuplicateProps(ps, counter) && next == counter + |ps|
  {
    r, next := [], counter;
    var i := 0;
    while i < |ps|
      invariant 0 <= i <= |ps| && |r| == i && next == counter + i
      invariant forall j :: 0 <= j < i ==> r[j] == ps[j].(id := IdOf(counter + j))
    {
      r := r + [ps[i].(id := IdOf(next))];
      next := next + 1;
      i := i + 1;
    }
  }

  /** The `Object.keys(DEFAULT_PROPS[type]).forEach` of `addComponent`: one plain prop per default entry. */
  method DefaultPropsLoop(defaults: seq<(string, Value)>, counter: nat) returns (r: seq<Prop>, next: nat)
    ensures r == DefaultProps(defaults, counter) && next == counter + |defaults|
  {
    r, next := [], counter;
    var i := 0;
    while i < |defaults|
      invariant 0 <= i <= |defaults| && |r| == i && next == counter + i
      invariant forall j :: 0 <= j < i ==> r[j] == PlainProp(IdOf(counter + j), defaults[j].0, defaults[j].1)
    {
      r := r + [PlainProp(IdOf(next), defaults[i].0, defaults[i].1)];
      next := next + 1;
      i := i + 1;
    }
  }

  // ------------------------------------------------------------ prop reducers

  /** The props `updateProps(id, ...)` edits: the registry's for a template node, else the selected page's. */
  function PropsFor(st: ComponentsState, id: string): PropTable
    reads st
    requires st.Valid()
  {
    if id in st.customComponents then st.customComponentsProps else st.PageProps()
  }

  /**
   * `updateProps({id, name, value})`: in the registry for a template node,
   * else in the selected page's props, the prop (id, name) takes `value`
   * (appended under a generated id when missing).
   */
  method UpdateProps(st: ComponentsState, id: string, name: string, value: Value)
    requires st.Valid()
    modifies st
    ensures st.Valid()
    ensures unchanged(st`pages, st`componentsById, st`customComponents, st`selectedPage, st`selectedId, st`hoveredId)
    ensures id in st.customComponents ==>
      && st.customComponentsProps == UpdateProp(old(st.customComponentsProps), id, name, value, IdOf(old(st.idCounter)))
      && st.propsById == old(st.propsById)
    ensures id !in st.customComponents ==>
      && st.propsById == old(st.propsById)[st.PropsId() := UpdateProp(old(st.PageProps()), id, name, value, IdOf(old(st.idCounter)))]
      && st.customComponentsProps == old(st.customComponentsProps)
    ensures st.idCounter == old(st.idCounter) + if Lookup(old(PropsFor(st, id)), id, name).None? then 1 else 0
  {
    var t := PropsFor(st, id);
    var newPropId := "";
    if FindProp(PropsOf(t, id), name).None? {
      newPropId := GenerateId(st);
    }
    var r := UpdateProp(t, id, name, value, newPropId);
    if id in st.customComponents {
      st.customComponentsProps := r;
    } else {
      st.propsById := st.propsById[st.PropsId() := r];
    }
  }

  /**
   * `exposeProp({name, targetedProp})` on the selected node. Inside a
   * template (`root` is its root, as `searchRootCustomComponent` returns)
   * the targeted prop is aliased and, when the root lacks `name`, every
   * instance in the page and in the registry receives it; on a page node
   * only the targeted prop's `derivedFromPropName` is set. `pageOrder` and
   * `ccOrder` are the iteration orders of `Object.values`.
   */
  method ExposeProp(st: ComponentsState, name: string, targetedProp: string, root: string, pageOrder: seq<string>, ccOrder: seq<string>)
    requires st.Valid()
    requires st.selectedId in st.customComponents ==> IsRootOf(st.customComponents, root, st.selectedId)
    requires Enumerates(pageOrder, st.PageTree().Keys) && Enumerates(ccOrder, st.customComponents.Keys)
    modifies st
    ensures st.Valid()
    ensures unchanged(st`pages, st`componentsById, st`customComponents, st`selectedPage, st`selectedId, st`hoveredId)
    ensures st.selectedId in st.customComponents ==>
      var e := ExposeInTemplate(old(st.PageTree()), old(st.PageProps()), st.customComponents, old(st.customComponentsProps),
                                st.selectedId, root, name, targetedProp, pageOrder, ccOrder, old(st.idCounter));
      && st.propsById == old(st.propsById)[st.PropsId() := e.pageProps]
      && st.customComponentsProps == e.customProps
      && st.idCounter == e.counter
    ensures st.selectedId !in st.customComponents ==>
      && st.propsById == old(st.propsById)[st.PropsId() := ExposeOnPage(old(st.PageProps()), st.selectedId, name, targetedProp, IdOf(old(st.idCounter)))]
      && st.customComponentsProps == old(st.customComponentsProps)
      && st.idCounter == old(st.idCounter) + if Lookup(old(st.PageProps()), st.selectedId, targetedProp).None? then 1 else 0
  {
    var componentId := st.selectedId;
    var pid := st.PropsId();
    if componentId in st.customComponents {
      var e := ExposeInTemplateSteps(st.PageTree(), st.PageProps(), st.customComponents, st.customComponentsProps,
                                     componentId, root, name, targetedProp, pageOrder, ccOrder, st.idCounter);
      st.propsById := st.propsById[pid := e.pageProps];
      st.customComponentsProps := e.customProps;
      st.idCounter := e.counter;
    } else {
      var ps := PropsOf(st.PageProps(), componentId);
      match FindProp(ps, targetedProp)
      case Some(i) =>
        st.propsById := st.propsById[pid := st.PageProps()[componentId := ps[i := ps[i].(derivedFromPropName := Some(name))]]];
      case None =>
        var nid := GenerateId(st);
        st.propsById := st.propsById[pid := st.PageProps()[componentId := ps + [Prop(nid, targetedProp, Str(""), Some(name), None)]]];
    }
  }

  /** The template branch of `exposeProp`, on the stores it reads: alias, then the two instance loops. */
  method ExposeInTemplateSteps(
    tree: Tree, pageProps: PropTable, cc: Tree, ccProps: PropTable,
    componentId: string, root: string, name: string, targetedProp: string,
    pageOrder: seq<string>, ccOrder: seq<string>, counter: nat) returns (e: Exposed)
    requires root in cc
    ensures e == ExposeInTemplate(tree, pageProps, cc, ccProps, componentId, root, name, targetedProp, pageOrder, ccOrder, counter)
  {
    var rootType := cc[root].ctype;
    var ps := PropsOf(ccProps, componentId);
    var propValue := Str("");
    var props := ccProps;
    var next := counter;
    match FindProp(ps, targetedProp) {
      case Some(i) =>
        propValue := ps[i].value;
        props := ccProps[componentId := ps[i := ps[i].(derivedFromComponentType := Some(rootType), derivedFromPropName := Some(name))]];
      case None =>
        props := ccProps[componentId := ps + [Prop(IdOf(next), targetedProp, Str(""), Some(name), Some(rootType))]];
        next := next + 1;
    }
    assert (props, propValue, next) == AliasInRegistry(ccProps, componentId, name, targetedProp, rootType, counter);
    if FindProp(PropsOf(props, root), name).None? {
      var pp, n1 := PushLoop(pageProps, tree, pageOrder, root, name, propValue, next);
      var cp, n2 := PushLoop(props, cc, ccOrder, root, name, propValue, n1);
      e := Exposed(pp, cp, n2);
    } else {
      e := Exposed(pageProps, props, next);
    }
  }

  /**
   * `unexpose(targetedProp)` on the selected node. Inside a template the
   * prop's aliases are cleared and, when no registry prop still uses that
   * alias, every instance of the alias's type loses its prop of the custom
   * name; on a page node only `derivedFromPropName` is cleared. The source
   * indexes the found prop without checking, so it must exist.
   */
  method Unexpose(st: ComponentsState, targetedProp: string, pageOrder: seq<string>, ccOrder: seq<string>)
    requires st.Valid()
    requires st.selectedId in st.customComponents ==> FindProp(PropsOf(st.customComponentsProps, st.selectedId), targetedProp).Some?
    requires st.selectedId !in st.customComponents ==> FindProp(PropsOf(st.PageProps(), st.selectedId), targetedProp).Some?
    requires Enumerates(pageOrder, st.PageTree().Keys) && Enumerates(ccOrder, st.customComponents.Keys)
    modifies st
    ensures st.Valid()
    ensures unchanged(st`pages, st`componentsById, st`customComponents, st`selectedPage, st`selectedId, st`hoveredId, st`idCounter)
    ensures st.selectedId in st.customComponents ==>
      var r := UnexposeInTemplate(old(st.PageTree()), old(st.PageProps()), st.customComponents, old(st.customComponentsProps),
                                  st.selectedId, targetedProp, pageOrder, ccOrder);
      && st.propsById == old(st.propsById)[st.PropsId() := r.0]
      && st.customComponentsProps == r.1
    ensures st.selectedId !in st.customComponents ==>
      && st.propsById == old(st.propsById)[st.PropsId() := UnexposeOnPage(old(st.PageProps()), st.selectedId, targetedProp)]
      && st.customComponentsProps == old(st.customComponentsProps)
  {
    var componentId := st.selectedId;
    var pid := st.PropsId();
    if componentId in st.customComponents {
      var pp, cp := UnexposeInTemplateSteps(st.PageTree(), st.PageProps(), st.customComponents, st.customComponentsProps,
                                            componentId, targetedProp, pageOrder, ccOrder);
      st.propsById := st.propsById[pid := pp];
      st.customComponentsProps := cp;
    } else {
      var ps := PropsOf(st.PageProps(), componentId);
      var i := FindProp(ps, targetedProp).value;
      st.propsById := st.propsById[pid := st.PageProps()[componentId := ps[i := ps[i].(derivedFromPropName := None)]]];
    }
  }

  /** The template branch of `unexpose`, on the stores it reads. */
  method UnexposeInTemplateSteps(
    tree: Tree, pageProps: PropTable, cc: Tree, ccProps: PropTable,
    componentId: string, targetedProp: string, pageOrder: seq<string>, ccOrder: seq<string>) returns (pp: PropTable, cp: PropTable)
    requires FindProp(PropsOf(ccProps, componentId), targetedProp).Some?
    ensures (pp, cp) == UnexposeInTemplate(tree, pageProps, cc, ccProps, componentId, targetedProp, pageOrder, ccOrder)
  {
    var ps := PropsOf(ccProps, componentId);
    var i := FindProp(ps, targetedProp).value;
    var dn := ps[i].derivedFromPropName;
    var ct := ps[i].derivedFromComponentType;
    cp := ccProps[componentId := ps[i := ps[i].(derivedFromPropName := None, derivedFromComponentType := None)]];
    pp := pageProps;
    if !AliasUsed(cp, ct, dn) && ct.Some? && dn.Some? {
      pp := RemoveLoop(pageProps, tree, pageOrder, ct.value, dn.value);
      cp := RemoveLoop(cp, cc, ccOrder, ct.value, dn.value);
    }
  }

  /**
   * `deleteCustomProp(propName)` for the selected page node: every node of
   * its type, in the page and in the registry, loses its prop `propName`,
   * and registry props aliased to it are un-aliased. The source reads the
   * selected node's type without checking, so the node must exist.
   */
  method DeleteCustomProp(st: ComponentsState, propName: string, pageOrder: seq<string>, ccOrder: seq<string>)
    requires st.Valid() && st.selectedId in st.PageTree()
    requires Enumerates(pageOrder, st.PageTree().Keys) && Enumerates(ccOrder, st.customComponents.Keys)
    modifies st
    ensures st.Valid()
    ensures unchanged(st`pages, st`componentsById, st`customComponents, st`selectedPage, st`selectedId, st`hoveredId, st`idCounter)
    ensures var r := DeleteCustomPropSpec(old(st.PageTree()), old(st.PageProps()), st.customComponents, old(st.customComponentsProps),
                                          st.PageTree()[st.selectedId].ctype, propName, pageOrder, ccOrder);
      && st.propsById == old(st.propsById)[st.PropsId() := r.0]
      && st.customComponentsProps == r.1
  {
    var ty := st.PageTree()[st.selectedId].ctype;
    var pp, cp := DeleteCustomPropSteps(st.PageTree(), st.PageProps(), st.customComponents, st.customComponentsProps,
                                        ty, propName, pageOrder, ccOrder);
    st.propsById := st.propsById[st.PropsId() := pp];
    st.customComponentsProps := cp;
  }

  /** `deleteCustomProp`'s three loops, on the stores they read. */
  method DeleteCustomPropSteps(
    tree: Tree, pageProps: PropTable, cc: Tree, ccProps: PropTable,
    ty: string, propName: string, pageOrder: seq<string>, ccOrder: seq<string>) returns (pp: PropTable, cp: PropTable)
    ensures (pp, cp) == DeleteCustomPropSpec(tree, pageProps, cc, ccProps, ty, propName, pageOrder, ccOrder)
  {
    pp := RemoveLoop(pageProps, tree, pageOrder, ty, propName);
    cp := RemoveLoop(ccProps, cc, ccOrder, ty, propName);
    cp := ClearAliasesLoop(cp, ty, propName);
  }

  // ------------------------------------------------------------ tree reducers

  /** The tree a node id belongs to: the registry for a template node, else the selected page's. */
  function TreeFor(st: ComponentsState, id: string): Tree
    reads st
    requires st.Valid()
  {
    if id in st.customComponents then st.customComponents else st.PageTree()
  }

  /**
   * The stores with one universe replaced: the registry when `custom`,
   * else the page whose trees `page` names.
   */
  function Put(s: Stores, page: Page, custom: bool, t: Tree, p: PropTable): Stores {
    if custom then s.(customComponents := t, customComponentsProps := p)
    else s.(componentsById := s.componentsById[page.componentsId := t], propsById := s.propsById[page.propsId := p])
  }

  /** Writes the four stores and the id counter back into the state. */
  method Commit(st: ComponentsState, s: Stores, counter: nat)
    modifies st
    ensures st.AllStores() == s && st.idCounter == counter
    ensures unchanged(st`pages, st`selectedPage, st`selectedId, st`hoveredId)
  {
    st.componentsById, st.propsById := s.componentsById, s.propsById;
    st.customComponents, st.customComponentsProps := s.customComponents, s.customComponentsProps;
    st.idCounter := counter;
  }

  /** The cases in which `deleteComponent` returns the state unchanged: `root`, or an immediate child of a template root. */
  predicate DeleteRefused(cc: Tree, componentId: string) {
    || componentId == DEFAULT_ID
    || (componentId in cc && cc[componentId].parent in cc && cc[cc[componentId].parent].parent == "")
  }

  /**
   * `deleteComponent(componentId)`, with `sub` the subtree `deleteComp`
   * walks. Apart from the refused cases, the subtree and its props leave
   * the node's universe, the parent no longer lists `componentId`, and the
   * selection returns to `root`.
   */
  method DeleteComponent(st: ComponentsState, componentId: string, sub: set<string>)
    requires st.Valid()
    requires componentId != DEFAULT_ID ==>
      var t := TreeFor(st, componentId);
      && componentId in t && t[componentId].parent in t
      && SubtreeOf(t, componentId, sub) && t[componentId].parent !in sub
    modifies st
    ensures st.Valid()
    ensures DeleteRefused(old(st.customComponents), componentId) ==> unchanged(st)
    ensures !DeleteRefused(old(st.customComponents), componentId) ==>
      var t := old(TreeFor(st, componentId));
      var d := DeleteFrom(t, old(PropsFor(st, componentId)), componentId, sub);
      && st.AllStores() == Put(old(st.AllStores()), st.pages[st.selectedPage], componentId in old(st.customComponents), d.updatedComponents, d.updatedProps)
      && componentId !in d.updatedComponents[t[componentId].parent].children
      && st.selectedId == DEFAULT_ID
      && unchanged(st`pages, st`selectedPage, st`hoveredId, st`idCounter)
  {
    if DeleteRefused(st.customComponents, componentId) {
      return;
    }
    var t := TreeFor(st, componentId);
    var p := PropsFor(st, componentId);
    var d := DeleteFrom(t, p, componentId, sub);
    DeleteFromAt(t, p, componentId, sub, t[componentId].parent);
    Commit(st, Put(st.AllStores(), st.pages[st.selectedPage], componentId in st.customComponents, d.updatedComponents, d.updatedProps), st.idCounter);
    st.selectedId := DEFAULT_ID;
  }

  /** The stores with both the selected page's universe and the registry replaced. */
  function PutBoth(s: Stores, page: Page, tree: Tree, pageProps: PropTable, cc: Tree, ccProps: PropTable): Stores {
    Stores(s.componentsById[page.componentsId := tree], s.propsById[page.propsId := pageProps], cc, ccProps)
  }

  /**
   * What `moveComponent` needs of its arguments on each path it takes
   * (the source dereferences these records without checking): the old
   * parent exists, the new parent exists where the node is pushed, `root`
   * is the registry root above a template target, and `sub` is the
   * subtree `moveComponent` of utils/recursive carries across.
   */
  ghost predicate MoveReady(tree: Tree, cc: Tree, parentId: string, componentId: string, root: string, sub: set<string>) {
    parentId != componentId ==>
      if componentId in cc then
        var op := cc[componentId].parent;
        parentId != op ==>
          && op in cc
          && (cc[op].parent != "" && parentId !in cc ==>
                parentId in tree && SubtreeOf(cc, componentId, sub) && op !in sub && parentId !in sub)
      else
        && componentId in tree
        && var op := tree[componentId].parent;
           parentId != op ==>
             && op in tree
             && (parentId in cc ==> IsRootOf(cc, root, parentId))
             && (parentId in cc && cc[root].ctype != tree[componentId].ctype ==>
                   SubtreeOf(tree, componentId, sub) && op !in sub && parentId !in sub)
             && (parentId !in cc ==> parentId in tree)
  }

  /**
   * The stores after the old `moveComponent({parentId, componentId})`, or
   * `None` where it returns the state unchanged: a node moved onto itself
   * or to its current parent, an immediate child of a template root, and an
   * instance moved into its own template.
   */
  function MovedStores(s: Stores, page: Page, parentId: string, componentId: string, root: string, sub: set<string>): (r: Option<Stores>)
    requires page.componentsId in s.componentsById && page.propsId in s.propsById
    requires MoveReady(s.componentsById[page.componentsId], s.customComponents, parentId, componentId, root, sub)
    ensures r.Some? ==> page.componentsId in r.value.componentsById && page.propsId in r.value.propsById
  {
    var tree := s.componentsById[page.componentsId];
    var pageProps := s.propsById[page.propsId];
    var cc := s.customComponents;
    var ccProps := s.customComponentsProps;
    if parentId == componentId then None
    else if componentId in cc then
      var op := cc[componentId].parent;
      if parentId == op || cc[op].parent == "" then None
      else if parentId in cc then Some(s.(customComponents := MoveWithin(cc, componentId, parentId)))
      else
        var c := MoveAcross(cc, tree, ccProps, pageProps, componentId, parentId, sub);
        Some(PutBoth(s, page, c.to, c.toProps, c.from, c.fromProps))
    else
      var op := tree[componentId].parent;
      if parentId == op then None
      else if parentId in cc then
        if cc[root].ctype == tree[componentId].ctype then None
        else
          var c := MoveAcross(tree, cc, pageProps, ccProps, componentId, parentId, sub);
          Some(PutBoth(s, page, c.from, c.fromProps, c.to, c.toProps))
      else Some(Put(s, page, false, MoveWithin(tree, componentId, parentId), pageProps))
  }

  /** How an immer producer ends: with new stores, with the state unchanged, or by throwing. */
  datatype MoveOutcome = Moved(stores: Stores) | Unchanged | Throws

  /**
   * The page node `componentId` being moved into a template of its own
   * type, the case the old `moveComponent` refuses only after it has
   * spliced the node out of its old parent's children.
   */
  predicate IntoOwnTemplate(s: Stores, page: Page, parentId: string, componentId: string, root: string)
    requires page.componentsId in s.componentsById
  {
    var tree := s.componentsById[page.componentsId];
    && parentId != componentId && componentId !in s.customComponents && componentId in tree
    && parentId != tree[componentId].parent && parentId in s.customComponents && root in s.customComponents
    && s.customComponents[root].ctype == tree[componentId].ctype
  }

  /**
   * The old `moveComponent` as written. Into a template of its own type it
   * first splices the old parent's children (a `splice(indexOf, 1)` that
   * changes the list whenever the list is not empty) and then returns
   * `state`; an immer producer that changed its draft and returns another
   * value throws. Everywhere else it ends as `MovedStores` says.
   */
  function MovedAsWritten(s: Stores, page: Page, parentId: string, componentId: string, root: string, sub: set<string>): (r: MoveOutcome)
    requires page.componentsId in s.componentsById && page.propsId in s.propsById
    requires MoveReady(s.componentsById[page.componentsId], s.customComponents, parentId, componentId, root, sub)
    ensures r.Moved? ==> page.componentsId in r.stores.componentsById && page.propsId in r.stores.propsById
  {
    var tree := s.componentsById[page.componentsId];
    if IntoOwnTemplate(s, page, parentId, componentId, root) then
      if |tree[tree[componentId].parent].children| > 0 then Throws else Unchanged
    else
      match MovedStores(s, page, parentId, componentId, root, sub)
      case Some(v) => Moved(v)
      case None => Unchanged
  }

  /**
   * The old `moveComponent` as written throws exactly when a page node is
   * moved into a template of its own type and its old parent has children,
   * which in a linked page tree is always so, since the node is one of
   * them; the corrected `MovedStores` refuses that move with no change.
   * Everywhere else the two agree.
   */
  lemma MovedAsWrittenThrows(s: Stores, page: Page, parentId: string, componentId: string, root: string, sub: set<string>)
    requires page.componentsId in s.componentsById && page.propsId in s.propsById
    requires MoveReady(s.componentsById[page.componentsId], s.customComponents, parentId, componentId, root, sub)
    ensures var tree := s.componentsById[page.componentsId];
      var w := MovedAsWritten(s, page, parentId, componentId, root, sub);
      var r := MovedStores(s, page, parentId, componentId, root, sub);
      && (w.Throws? <==> IntoOwnTemplate(s, page, parentId, componentId, root) && |tree[tree[componentId].parent].children| > 0)
      && (IntoOwnTemplate(s, page, parentId, componentId, root) ==> r.None?)
      && (IntoOwnTemplate(s, page, parentId, componentId, root) && Linked(tree) && tree[componentId].parent != "" ==> w.Throws?)
      && (!IntoOwnTemplate(s, page, parentId, componentId, root) ==> (w.Moved? <==> r.Some?) && (r.Some? ==> w.stores == r.value))
  {
    var tree := s.componentsById[page.componentsId];
    if IntoOwnTemplate(s, page, parentId, componentId, root) && Linked(tree) && tree[componentId].parent != "" {
      assert componentId in tree[tree[componentId].parent].children;
    }
  }

  /**
   * The old `moveComponent` changes nothing exactly in its refused cases: a
   * node moved onto itself or to its current parent, an immediate child of
   * a template root, and a page node moved into a template of its own type.
   */
  lemma MovedStoresRefusals(s: Stores, page: Page, parentId: string, componentId: string, root: string, sub: set<string>)
    requires page.componentsId in s.componentsById && page.propsId in s.propsById
    requires MoveReady(s.componentsById[page.componentsId], s.customComponents, parentId, componentId, root, sub)
    ensures var r := MovedStores(s, page, parentId, componentId, root, sub);
      var tree := s.componentsById[page.componentsId];
      var cc := s.customComponents;
      && (parentId == componentId ==> r.None?)
      && (parentId != componentId && componentId in cc ==>
            (r.None? <==> parentId == cc[componentId].parent || cc[cc[componentId].parent].parent == ""))
      && (parentId != componentId && componentId !in cc ==>
            (r.None? <==> parentId == tree[componentId].parent || (parentId in cc && cc[root].ctype == tree[componentId].ctype)))
  {
  }

  /**
   * The old `moveComponent({parentId, componentId})` reducer: inside one
   * universe the node changes parent; between the page and the registry
   * its subtree and props cross over. Every completed move selects the
   * page root `DEFAULT_ID`.
   */
  method MoveComponent(st: ComponentsState, parentId: string, componentId: string, root: string, sub: set<string>)
    requires st.Valid()
    requires MoveReady(st.PageTree(), st.customComponents, parentId, componentId, root, sub)
    modifies st
    ensures unchanged(st`pages, st`selectedPage, st`hoveredId, st`idCounter)
    ensures st.Valid()
    ensures var r := MovedStores(old(st.AllStores()), st.pages[st.selectedPage], parentId, componentId, root, sub);
      && (r.None? ==> st.AllStores() == old(st.AllStores()) && st.selectedId == old(st.selectedId))
      && (r.Some? ==> st.AllStores() == r.value && st.selectedId == DEFAULT_ID)
  {
    var page := st.pages[st.selectedPage];
    var s := st.AllStores();
    var r := MovedStores(s, page, parentId, componentId, root, sub);
    if r.Some? {
      Commit(st, r.value, st.idCounter);
      st.selectedId := DEFAULT_ID;
    }
    assert s == old(st.AllStores()) && page == st.pages[st.selectedPage];
  }

  /**
   * `moveSelectedComponentChildren({fromIndex, toIndex})`: the selected
   * node's child at `fromIndex` is taken out and reinserted at `toIndex`
   * (both as `splice` reads them: a negative index counts from the end and
   * one below the start clamps to 0). When that position is at or past the
   * end (always, for an empty list), `splice` removes nothing and the source
   * reinserts `undefined`, which a list of ids cannot hold.
   */
  method MoveSelectedComponentChildren(st: ComponentsState, fromIndex: int, toIndex: int)
    requires st.Valid() && st.selectedId in TreeFor(st, st.selectedId)
    requires SpliceStart(fromIndex, |TreeFor(st, st.selectedId)[st.selectedId].children|) < |TreeFor(st, st.selectedId)[st.selectedId].children|
    modifies st
    ensures unchanged(st`pages, st`selectedPage, st`selectedId, st`hoveredId, st`idCounter)
    ensures st.Valid()
    ensures var t := old(TreeFor(st, st.selectedId));
      var c := t[st.selectedId];
      st.AllStores() == Put(old(st.AllStores()), st.pages[st.selectedPage], st.selectedId in st.customComponents,
                            t[st.selectedId := c.(children := Reorder(c.children, fromIndex, toIndex))], old(PropsFor(st, st.selectedId)))
  {
    var t := TreeFor(st, st.selectedId);
    var c := t[st.selectedId];
    var moved := Reorder(c.children, fromIndex, toIndex);
    Commit(st, Put(st.AllStores(), st.pages[st.selectedPage], st.selectedId in st.customComponents,
                   t[st.selectedId := c.(children := moved)], PropsFor(st, st.selectedId)), st.idCounter);
  }

  /** The universe `checkIsChildOfCustomComponent` picks for `id`: the registry when it holds `id`, else the page. */
  function UniverseOf(s: Stores, page: Page, id: string): Tree
    requires page.componentsId in s.componentsById
  {
    if id in s.customComponents then s.customComponents else s.componentsById[page.componentsId]
  }

  /** The props that go with `UniverseOf`. */
  function UniversePropsOf(s: Stores, page: Page, id: string): PropTable
    requires page.propsId in s.propsById
  {
    if id in s.customComponents then s.customComponentsProps else s.propsById[page.propsId]
  }

  /** The stores after a leaf `id` owning `newProps` is added under `parent` in the parent's universe. */
  function AddedStores(s: Stores, page: Page, parent: string, id: string, ctype: string, newProps: seq<Prop>): (r: Stores)
    requires page.componentsId in s.componentsById && page.propsId in s.propsById
    requires parent in UniverseOf(s, page, parent)
    ensures page.componentsId in r.componentsById && page.propsId in r.propsById
  {
    var a := AddNode(UniverseOf(s, page, parent), UniversePropsOf(s, page, parent), parent, id, ctype, newProps);
    Put(s, page, parent in s.customComponents, a.0, a.1)
  }

  /**
   * `addComponent({parentName, type})`: a fresh leaf of type `ctype` is
   * added under `parentName` (in the registry when the parent is a
   * template node) with the default props of its type, and selected.
   * `defaults` is the default-prop table of `ctype` in key order (empty
   * when the type has none). The component id is generated first, then
   * one id per default prop.
   */
  method AddComponent(st: ComponentsState, parentName: string, ctype: string, defaults: seq<(string, Value)>)
    requires st.Valid() && parentName in TreeFor(st, parentName)
    modifies st
    ensures unchanged(st`pages, st`selectedPage, st`hoveredId)
    ensures st.Valid()
    ensures st.AllStores() == AddedStores(old(st.AllStores()), st.pages[st.selectedPage], parentName, IdOf(old(st.idCounter)), ctype,
                                          DefaultProps(defaults, old(st.idCounter) + 1))
    ensures st.selectedId == IdOf(old(st.idCounter))
    ensures st.idCounter == old(st.idCounter) + 1 + |defaults|
  {
    var s := st.AllStores();
    var page := st.pages[st.selectedPage];
    var id := GenerateId(st);
    var props, next := DefaultPropsLoop(defaults, st.idCounter);
    Commit(st, AddedStores(s, page, parentName, id, ctype, props), next);
    st.selectedId := id;
  }

  /** `addCustomComponent` refuses an instance of a template inside that same template. */
  predicate SelfInstance(cc: Tree, parentId: string, ctype: string, root: string)
    requires parentId in cc ==> root in cc
  {
    parentId in cc && cc[root].ctype == ctype
  }

  /**
   * `addCustomComponent({parentId, type})`: an instance of template `ctype`
   * is added under `parentId` with copies of the template's props under
   * fresh ids, and selected. Inside a template whose root (`root`, as
   * `searchRootCustomComponent` returns) is `ctype` itself, nothing is
   * added: a template cannot contain its own instance. The id is generated
   * before that check, so the counter advances either way.
   */
  method AddCustomComponent(st: ComponentsState, parentId: string, ctype: string, root: string)
    requires st.Valid() && parentId in TreeFor(st, parentId)
    requires parentId in st.customComponents ==> IsRootOf(st.customComponents, root, parentId)
    modifies st
    ensures unchanged(st`pages, st`selectedPage, st`hoveredId)
    ensures st.Valid()
    ensures SelfInstance(old(st.customComponents), parentId, ctype, root) ==>
      && st.AllStores() == old(st.AllStores()) && st.selectedId == old(st.selectedId)
      && st.idCounter == old(st.idCounter) + 1
    ensures !SelfInstance(old(st.customComponents), parentId, ctype, root) ==>
      var copies := PropsOf(old(st.customComponentsProps), ctype);
      && st.AllStores() == old(AddedStores(st.AllStores(), st.pages[st.selectedPage], parentId, IdOf(st.idCounter), ctype,
                                           DuplicateProps(copies, st.idCounter + 1)))
      && st.selectedId == IdOf(old(st.idCounter))
      && st.idCounter == old(st.idCounter) + 1 + |copies|
  {
    var s := st.AllStores();
    var page := st.pages[st.selectedPage];
    var id := IdOf(st.idCounter);
    if SelfInstance(s.customComponents, parentId, ctype, root) {
      st.idCounter := st.idCounter + 1;
      return;
    }
    var copies, next := DuplicatePropsLoop(PropsOf(s.customComponentsProps, ctype), st.idCounter + 1);
    Commit(st, AddedStores(s, page, parentId, id, ctype, copies), next);
    st.selectedId := id;
  }

  /** `duplicate` refuses an immediate child of a template root. */
  predicate DuplicateRefused(cc: Tree, id: string)
    requires id in cc ==> cc[id].parent in cc
  {
    id in cc && cc[cc[id].parent].parent == ""
  }

  /**
   * `duplicate()`: the selected node's clone, as `duplicateComponent`
   * returns it (`newId`, `cloned`, `clonedProps`), joins its universe and
   * is listed last among the selected node's parent's children. The
   * selection stays on the original.
   */
  method Duplicate(st: ComponentsState, newId: string, cloned: Tree, clonedProps: PropTable)
    requires st.Valid() && st.selectedId in TreeFor(st, st.selectedId)
    requires TreeFor(st, st.selectedId)[st.selectedId].parent in TreeFor(st, st.selectedId)
    modifies st
    ensures unchanged(st`pages, st`selectedPage, st`selectedId, st`hoveredId, st`idCounter)
    ensures st.Valid()
    ensures DuplicateRefused(old(st.customComponents), st.selectedId) ==> st.AllStores() == old(st.AllStores())
    ensures !DuplicateRefused(old(st.customComponents), st.selectedId) ==>
      var t := old(TreeFor(st, st.selectedId));
      var d := DuplicateInto(t, old(PropsFor(st, st.selectedId)), t[st.selectedId].parent, newId, cloned, clonedProps);
      st.AllStores() == Put(old(st.AllStores()), st.pages[st.selectedPage], st.selectedId in old(st.customComponents), d.0, d.1)
  {
    var custom := st.selectedId in st.customComponents;
    var t := TreeFor(st, st.selectedId);
    var parent := t[st.selectedId].parent;
    if custom && t[parent].parent == "" {
      return;
    }
    var d := DuplicateInto(t, PropsFor(st, st.selectedId), parent, newId, cloned, clonedProps);
    Commit(st, Put(st.AllStores(), st.pages[st.selectedPage], custom, d.0, d.1), st.idCounter);
  }

  /**
   * `saveComponent(name)` on the selected page node: its subtree `sub`
   * becomes template `name` in the registry and an instance takes its
   * place. `rootParentProps` and `customProps` are what
   * `fetchAndUpdateExposedProps` returns. The instance id is generated
   * first, then one id per copied prop.
   */
  method SaveComponent(st: ComponentsState, name: string, sub: set<string>, rootParentProps: seq<Prop>, customProps: PropTable)
    requires st.Valid() && st.selectedId in st.PageTree() && SubtreeOf(st.PageTree(), st.selectedId, sub)
    requires st.PageTree()[st.selectedId].parent in st.PageTree() && st.PageTree()[st.selectedId].parent !in sub
    modifies st
    ensures unchanged(st`pages, st`selectedPage, st`selectedId, st`hoveredId)
    ensures st.Valid()
    ensures st.AllStores() == old(SavedStores(st.AllStores(), st.pages[st.selectedPage], st.selectedId, sub, name,
                                              rootParentProps, customProps, st.idCounter))
    ensures st.idCounter == old(st.idCounter) + 1 + |rootParentProps|
  {
    var r := SavedStores(st.AllStores(), st.pages[st.selectedPage], st.selectedId, sub, name, rootParentProps, customProps, st.idCounter);
    Commit(st, r, st.idCounter + 1 + |rootParentProps|);
  }

  /**
   * The stores after `saveComponent`: the instance id is `IdOf(counter)`
   * and the copied props take the ids that follow it.
   */
  function SavedStores(s: Stores, page: Page, componentId: string, sub: set<string>, name: string,
                       rootParentProps: seq<Prop>, customProps: PropTable, counter: nat): (r: Stores)
    requires page.componentsId in s.componentsById && page.propsId in s.propsById
    requires var tree := s.componentsById[page.componentsId];
      componentId in tree && componentId in sub && sub <= tree.Keys && tree[componentId].parent in tree && tree[componentId].parent !in sub
    ensures page.componentsId in r.componentsById && page.propsId in r.propsById
  {
    var v := SaveSpec(s.componentsById[page.componentsId], s.propsById[page.propsId], s.customComponents, s.customComponentsProps,
                      componentId, sub, name, IdOf(counter), rootParentProps, customProps, counter);
    PutBoth(s, page, v.tree, v.pageProps, v.cc, v.ccProps)
  }

  /**
   * `exportSelectedComponentToCustomPage()`: a clone of the selected page
   * node, as `duplicateComponent` returns it, is placed last under `root`
   * of the custom page's stores (`CUSTOM_PAGE_STORE`, whatever page is
   * selected).
   */
  method ExportSelectedComponentToCustomPage(st: ComponentsState, newId: string, cloned: Tree, clonedProps: PropTable)
    requires st.Valid() && st.selectedId in st.PageTree()
    requires CUSTOM_PAGE_STORE in st.componentsById && CUSTOM_PAGE_STORE in st.propsById
    requires DEFAULT_ID in st.componentsById[CUSTOM_PAGE_STORE] && newId in cloned
    modifies st
    ensures unchanged(st`pages, st`selectedPage, st`selectedId, st`hoveredId, st`idCounter, st`customComponents, st`customComponentsProps)
    ensures st.Valid()
    ensures var e := ExportSpec(old(st.componentsById[CUSTOM_PAGE_STORE]), old(st.propsById[CUSTOM_PAGE_STORE]), newId, cloned, clonedProps);
      && st.componentsById == old(st.componentsById)[CUSTOM_PAGE_STORE := e.0]
      && st.propsById == old(st.propsById)[CUSTOM_PAGE_STORE := e.1]
  {
    var e := ExportSpec(st.componentsById[CUSTOM_PAGE_STORE], st.propsById[CUSTOM_PAGE_STORE], newId, cloned, clonedProps);
    st.componentsById := st.componentsById[CUSTOM_PAGE_STORE := e.0];
    st.propsById := st.propsById[CUSTOM_PAGE_STORE := e.1];
  }

  /**
   * `deleteCustomComponent(type)`: the template rooted at `ty` (its nodes
   * are `sub`) is removed from the registry with all its props. Instances
   * on pages are left as they are.
   */
  method DeleteCustomComponent(st: ComponentsState, ty: string, sub: set<string>)
    requires st.Valid() && ty in st.customComponents && SubtreeOf(st.customComponents, ty, sub)
    modifies st`customComponents, st`customComponentsProps
    ensures st.Valid()
    ensures var d := DeleteComp(old(st.customComponents), old(st.customComponentsProps), sub);
      st.customComponents == d.updatedComponents && st.customComponentsProps == d.updatedProps
  {
    var d := DeleteComp(st.customComponents, st.customComponentsProps, sub);
    st.customComponents, st.customComponentsProps := d.updatedComponents, d.updatedProps;
  }

  /** `reset()`: every page's trees return to the initial `root` Box; props and the registry are kept. */
  method Reset(st: ComponentsState)
    modifies st`componentsById, st`selectedId
    ensures st.componentsById == InitialComponents() && st.selectedId == DEFAULT_ID
  {
    st.componentsById := InitialComponents();
    st.selectedId := DEFAULT_ID;
  }

  /** `select(id)`. */
  method Select(st: ComponentsState, id: string)
    modifies st`selectedId
    ensures st.selectedId == id
  {
    st.selectedId := id;
  }

  /** `unselect()`: the page root is selected. */
  method Unselect(st: ComponentsState)
    modifies st`selectedId
    ensures st.selectedId == DEFAULT_ID
  {
    st.selectedId := DEFAULT_ID;
  }

  /** `hover(id)`. */
  method Hover(st: ComponentsState, id: string)
    modifies st`hoveredId
    ensures st.hoveredId == Some(id)
  {
    st.hoveredId := Some(id);
  }

  /** `unhover()`. */
  method Unhover(st: ComponentsState)
    modifies st`hoveredId
    ensures st.hoveredId == None
  {
    st.hoveredId := None;
  }

  /** `switchPage(page)`: the page is taken as given; the state stays usable exactly when the page and its stores exist. */
  method SwitchPage(st: ComponentsState, page: string)
    modifies st`selectedPage
    ensures st.selectedPage == page
    ensures st.Valid() <==> page in st.pages && st.pages[page].componentsId in st.componentsById && st.pages[page].propsId in st.propsById
  {
    st.selectedPage := page;
  }
}
