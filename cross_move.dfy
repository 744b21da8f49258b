/**
 * The newer move reducer (moveComponent.ts), which also carries the alias
 * props (`derivedFromPropName` / `derivedFromComponentType`) across. Its
 * `{byId, byComponentId}` prop store is seen per component, as a
 * `PropTable`: `byComponentId[k]` resolved through `byId`.
 *
 * Four cases: inside a template, template to page, page to template and
 * inside the page. `deleteCustomPropInRootComponent` and the pair
 * `updateInAllInstances` / `addCustomPropsInAllComponentInstances` are not
 * part of this model; they are the two functions of a `Helpers` value, and
 * what the lemmas need of them is stated as explicit assumptions.
 */
module CrossMove {
  import opened Wrappers
  import opened Seqs
  import opened Store
  import opened Recursive
  import opened ComponentTree
  import opened Components

  /**
   * `deleteInRoot(p, s)`: the four stores `deleteCustomPropInRootComponent(p, ...)`
   * returns. `addToInstances(s, root, p, k)`: the stores after
   * `updateInAllInstances` has run `addCustomPropsInAllComponentInstances`
   * for alias `p` of component `k` on every instance of template `root`.
   */
  datatype Helpers = Helpers(
    deleteInRoot: (Prop, Stores) -> Stores,
    addToInstances: (Stores, string, Prop, string) -> Stores)

  /** Assumption: neither helper drops a page's component or prop store. */
  ghost predicate KeepsStores(h: Helpers) {
    && (forall p: Prop, s: Stores :: s.componentsById.Keys <= h.deleteInRoot(p, s).componentsById.Keys)
    && (forall p: Prop, s: Stores :: s.propsById.Keys <= h.deleteInRoot(p, s).propsById.Keys)
    && (forall s: Stores, root: string, p: Prop, k: string :: s.componentsById.Keys <= h.addToInstances(s, root, p, k).componentsById.Keys)
    && (forall s: Stores, root: string, p: Prop, k: string :: s.propsById.Keys <= h.addToInstances(s, root, p, k).propsById.Keys)
  }

  /**
   * Assumption: on the registry props of any component `r`, deleting an
   * alias adds no prop, and adding alias `p` to the instances adds at most
   * one prop, named after the alias.
   */
  ghost predicate AddsOnlyTheAlias(h: Helpers) {
    && (forall p: Prop, s: Stores, r: string, n: string :: CountNamed(PropsOf(h.deleteInRoot(p, s).customComponentsProps, r), n)
          <= CountNamed(PropsOf(s.customComponentsProps, r), n))
    && (forall s: Stores, root: string, p: Prop, k: string, r: string, n: string :: CountNamed(PropsOf(h.addToInstances(s, root, p, k).customComponentsProps, r), n)
          <= CountNamed(PropsOf(s.customComponentsProps, r), n) + (if p.derivedFromPropName == Some(n) then 1 else 0))
  }

  // ------------------------------------------------------------ prop lists

  /** The prop is an alias: `derivedFromPropName` is truthy. */
  predicate Aliased(p: Prop) {
    Truthy(p.derivedFromPropName)
  }

  /** Both alias fields are truthy. */
  predicate BothAliased(p: Prop) {
    Truthy(p.derivedFromPropName) && Truthy(p.derivedFromComponentType)
  }

  /** `ps.filter(keep)`. */
  function Filter(ps: seq<Prop>, keep: Prop -> bool): (r: seq<Prop>)
    ensures forall q :: q in r ==> q in ps && keep(q)
    ensures forall q :: q in ps && keep(q) ==> q in r
  {
    if ps == [] then []
    else Filter(ps[..|ps| - 1], keep) + (if keep(ps[|ps| - 1]) then [ps[|ps| - 1]] else [])
  }

  /**
   * The (owner, prop) pairs that
   * `Object.keys(moved.byComponentId).forEach(k => moved.byComponentId[k].filter(keep).forEach(...))`
   * visits, `order` being the key order.
   */
  function Listed(moved: PropTable, order: seq<string>, keep: Prop -> bool): (r: seq<(string, Prop)>)
    ensures forall i :: 0 <= i < |r| ==> r[i].1 in PropsOf(moved, r[i].0) && keep(r[i].1) && r[i].0 in order
  {
    if order == [] then []
    else
      var k := order[|order| - 1];
      var ps := Filter(PropsOf(moved, k), keep);
      Listed(moved, order[..|order| - 1], keep) + seq(|ps|, i requires 0 <= i < |ps| => (k, ps[i]))
  }

  /** `ps.map(f)` in place. */
  function MapProps(ps: seq<Prop>, f: Prop -> Prop): (r: seq<Prop>)
    ensures |r| == |ps| && forall i :: 0 <= i < |ps| ==> r[i] == f(ps[i])
  {
    seq(|ps|, i requires 0 <= i < |ps| => f(ps[i]))
  }

  /** The `forEach` that rewrites every prop of a list through `f`. */
  method MapPropsLoop(ps: seq<Prop>, f: Prop -> Prop) returns (r: seq<Prop>)
    ensures r == MapProps(ps, f)
  {
    r := ps;
    var i := 0;
    while i < |ps|
      invariant 0 <= i <= |ps| && |r| == |ps|
      invariant forall j :: 0 <= j < i ==> r[j] == f(ps[j])
      invariant forall j :: i <= j < |ps| ==> r[j] == ps[j]
    {
      r := r[i := f(r[i])];
      i := i + 1;
    }
  }

  /** Retargeting one prop at template `root`. */
  function PointAt(root: string): Prop -> Prop {
    (p: Prop) => p.(derivedFromComponentType := Some(root))
  }

  /**
   * The template-to-template retarget: in `byComponentId[k]`, the prop
   * with id `pid` takes `derivedFromComponentType = root`.
   */
  function RetargetOne(t: PropTable, k: string, pid: string, root: string): PropTable {
    if k in t then t[k := MapProps(t[k], (p: Prop) => if p.id == pid then PointAt(root)(p) else p)] else t
  }

  /** The page-to-template retarget of one prop: an alias is pointed at `root`. */
  function RetargetIfAliased(root: string): Prop -> Prop {
    (p: Prop) => if Aliased(p) then PointAt(root)(p) else p
  }

  /** The page-to-template retarget: every aliased moved prop takes `derivedFromComponentType = root`. */
  function RetargetAll(moved: PropTable, root: string): PropTable {
    map k | k in moved :: MapProps(moved[k], RetargetIfAliased(root))
  }

  /** The retarget applied to the owners in `keys`, one after the other. */
  function RetargetKeys(moved: PropTable, keys: seq<string>, root: string): PropTable
    decreases |keys|
  {
    if keys == [] then moved
    else
      var t := RetargetKeys(moved, keys[..|keys| - 1], root);
      var k := keys[|keys| - 1];
      if k in t then t[k := MapProps(t[k], RetargetIfAliased(root))] else t
  }

  /** Over distinct owners, each is retargeted once and the others are left alone. */
  lemma {:induction false} RetargetKeysEffect(moved: PropTable, keys: seq<string>, root: string)
    requires NoDup(keys)
    ensures RetargetKeys(moved, keys, root).Keys == moved.Keys
    ensures forall k :: k in moved ==>
      RetargetKeys(moved, keys, root)[k] == if k in keys then MapProps(moved[k], RetargetIfAliased(root)) else moved[k]
  {
    if keys != [] {
      var init := keys[..|keys| - 1];
      var k := keys[|keys| - 1];
      assert NoDup(init);
      RetargetKeysEffect(moved, init, root);
      assert k !in init by { NoDupAt(keys, |keys| - 1); }
      assert forall k' :: k' in keys <==> k' in init || k' == k;
    }
  }

  /** Enumerating every owner retargets them all. */
  lemma RetargetKeysAll(moved: PropTable, order: seq<string>, root: string)
    requires Enumerates(order, moved.Keys)
    ensures RetargetKeys(moved, order, root) == RetargetAll(moved, root)
  {
    RetargetKeysEffect(moved, order, root);
  }

  /** After a page-to-template retarget every moved alias points at `root`; names, values and the rest stay. */
  lemma RetargetAllEffect(moved: PropTable, root: string)
    ensures RetargetAll(moved, root).Keys == moved.Keys
    ensures forall k, i :: k in moved && 0 <= i < |moved[k]| ==>
      && |RetargetAll(moved, root)[k]| == |moved[k]|
      && RetargetAll(moved, root)[k][i].name == moved[k][i].name
      && RetargetAll(moved, root)[k][i].value == moved[k][i].value
      && RetargetAll(moved, root)[k][i].derivedFromPropName == moved[k][i].derivedFromPropName
      && RetargetAll(moved, root)[k][i].derivedFromComponentType
         == if Aliased(moved[k][i]) then Some(root) else moved[k][i].derivedFromComponentType
  {
    forall k, i | k in moved && 0 <= i < |moved[k]|
      ensures RetargetAll(moved, root)[k][i] == if Aliased(moved[k][i]) then PointAt(root)(moved[k][i]) else moved[k][i]
    {
    }
  }

  /** The nested key/prop loop of the page-to-template retarget, with `order` the key order. */
  method RetargetAllLoop(moved: PropTable, order: seq<string>, root: string) returns (r: PropTable)
    requires Enumerates(order, moved.Keys)
    ensures r == RetargetAll(moved, root)
  {
    r := moved;
    var i := 0;
    while i < |order|
      invariant 0 <= i <= |order| && r == RetargetKeys(moved, order[..i], root)
    {
      ghost var prefix := order[..i + 1];
      assert prefix[..|prefix| - 1] == order[..i] && prefix[|prefix| - 1] == order[i];
      var k := order[i];
      if k in r {
        var ps := MapPropsLoop(r[k], RetargetIfAliased(root));
        r := r[k := ps];
      }
      i := i + 1;
    }
    assert order[..i] == order;
    RetargetKeysAll(moved, order, root);
  }

  /** An element of a duplicate-free sequence is not among those before it. */
  lemma NoDupAt(s: seq<string>, i: nat)
    requires NoDup(s) && i < |s|
    ensures s[i] !in s[..i]
  {
  }

  /**
   * The template-to-page clean-up of the moved root's own props: those
   * with both alias fields truthy lose `derivedFromComponentType`.
   */
  function NullRootAliases(moved: PropTable, id: string): PropTable {
    if id in moved then moved[id := MapProps(moved[id], (p: Prop) => if BothAliased(p) then p.(derivedFromComponentType := None) else p)]
    else moved
  }

  /** After the clean-up no prop of the moved root carries both alias fields, and nothing else changed. */
  lemma NullRootAliasesEffect(moved: PropTable, id: string)
    ensures NullRootAliases(moved, id).Keys == moved.Keys
    ensures forall q :: q in PropsOf(NullRootAliases(moved, id), id) ==> !BothAliased(q)
    ensures |PropsOf(NullRootAliases(moved, id), id)| == |PropsOf(moved, id)|
    ensures forall i :: 0 <= i < |PropsOf(moved, id)| ==>
      PropsOf(NullRootAliases(moved, id), id)[i] == PropsOf(moved, id)[i].(derivedFromComponentType := PropsOf(NullRootAliases(moved, id), id)[i].derivedFromComponentType)
    ensures forall k :: k in moved && k != id ==> NullRootAliases(moved, id)[k] == moved[k]
  {
  }

  // ------------------------------------------------------------ alias steps

  /** `findIndex(prop => prop.name === alias) !== -1`: the list has a prop named after the alias. */
  predicate HasAlias(ps: seq<Prop>, alias: Option<string>) {
    alias.Some? && FindProp(ps, alias.value).Some?
  }

  /** Writing back what `deleteCustomPropInRootComponent` returned: three stores replaced, the registry props merged in. */
  function WriteBack(s: Stores, d: Stores): Stores {
    Stores(d.componentsById, d.propsById, d.customComponents, MergeProps(s.customComponentsProps, d.customComponentsProps))
  }

  /** `items.forEach(step)` over the stores. */
  function Fold(step: (Stores, (string, Prop)) -> Stores, s: Stores, items: seq<(string, Prop)>): Stores
    decreases |items|
  {
    if items == [] then s else step(Fold(step, s, items[..|items| - 1]), items[|items| - 1])
  }

  method FoldLoop(step: (Stores, (string, Prop)) -> Stores, s: Stores, items: seq<(string, Prop)>) returns (r: Stores)
    ensures r == Fold(step, s, items)
  {
    r := s;
    var i := 0;
    while i < |items|
      invariant 0 <= i <= |items| && r == Fold(step, s, items[..i])
    {
      ghost var prefix := items[..i + 1];
      assert prefix[..|prefix| - 1] == items[..i] && prefix[|prefix| - 1] == items[i];
      r := step(r, items[i]);
      i := i + 1;
    }
    assert items[..i] == items;
  }

  /**
   * One moved alias inside the registry (moveComponent.ts, template to
   * template): it is retargeted at `root`, its old alias is deleted, and
   * the instances receive it when the root has no prop of its name.
   */
  function StepWithin(h: Helpers, root: string, s: Stores, item: (string, Prop)): Stores {
    var (k, p) := item;
    var s1 := s.(customComponentsProps := RetargetOne(s.customComponentsProps, k, p.id, root));
    var s2 := WriteBack(s1, h.deleteInRoot(p, s1));
    if HasAlias(PropsOf(s2.customComponentsProps, root), p.derivedFromPropName) then s2
    else h.addToInstances(s2, root, p, k)
  }

  /** One moved alias leaving the registry: its custom prop is deleted. */
  function StepOut(h: Helpers, s: Stores, item: (string, Prop)): Stores {
    WriteBack(s, h.deleteInRoot(item.1, s))
  }

  /** One moved alias entering the registry: the instances receive it when the root has no prop of its name. */
  function StepIn(h: Helpers, root: string, s: Stores, item: (string, Prop)): Stores {
    if HasAlias(PropsOf(s.customComponentsProps, root), item.1.derivedFromPropName) then s
    else h.addToInstances(s, root, item.1, item.0)
  }

  function WithinStep(h: Helpers, root: string): (Stores, (string, Prop)) -> Stores {
    (x: Stores, it: (string, Prop)) => StepWithin(h, root, x, it)
  }

  function OutStep(h: Helpers): (Stores, (string, Prop)) -> Stores {
    (x: Stores, it: (string, Prop)) => StepOut(h, x, it)
  }

  function InStep(h: Helpers, root: string): (Stores, (string, Prop)) -> Stores {
    (x: Stores, it: (string, Prop)) => StepIn(h, root, x, it)
  }

  /** A step that keeps every page's component and prop store. */
  ghost predicate KeepsPages(step: (Stores, (string, Prop)) -> Stores) {
    forall x: Stores, it: (string, Prop) ::
      x.componentsById.Keys <= step(x, it).componentsById.Keys && x.propsById.Keys <= step(x, it).propsById.Keys
  }

  /** The three kinds of step keep the pages when the helpers do. */
  lemma StepsKeepPages(h: Helpers, root: string)
    requires KeepsStores(h)
    ensures KeepsPages(WithinStep(h, root)) && KeepsPages(OutStep(h)) && KeepsPages(InStep(h, root))
  {
    forall x: Stores, it: (string, Prop)
      ensures x.componentsById.Keys <= StepWithin(h, root, x, it).componentsById.Keys
      ensures x.propsById.Keys <= StepWithin(h, root, x, it).propsById.Keys
    {
      var s1 := x.(customComponentsProps := RetargetOne(x.customComponentsProps, it.0, it.1.id, root));
      var s2 := WriteBack(s1, h.deleteInRoot(it.1, s1));
      assert x.componentsById.Keys <= s2.componentsById.Keys && x.propsById.Keys <= s2.propsById.Keys;
    }
  }

  /** So does any sequence of them. */
  lemma {:induction false} FoldKeepsPages(step: (Stores, (string, Prop)) -> Stores, s: Stores, items: seq<(string, Prop)>)
    requires KeepsPages(step)
    ensures s.componentsById.Keys <= Fold(step, s, items).componentsById.Keys
    ensures s.propsById.Keys <= Fold(step, s, items).propsById.Keys
  {
    if items != [] {
      FoldKeepsPages(step, s, items[..|items| - 1]);
    }
  }

  /** A list without a prop named after the alias has no prop of that name. */
  lemma NoAliasNoneNamed(ps: seq<Prop>, n: string)
    requires !HasAlias(ps, Some(n))
    ensures CountNamed(ps, n) == 0
  {
    ComponentProps.CountAbsent(ps, n);
  }

  /** Retargeting keeps every name. */
  lemma {:induction false} RetargetOneNames(t: PropTable, k: string, pid: string, root: string, r: string, n: string)
    ensures CountNamed(PropsOf(RetargetOne(t, k, pid, root), r), n) == CountNamed(PropsOf(t, r), n)
  {
    if k in t && r == k {
      var m := MapProps(t[k], (p: Prop) => if p.id == pid then PointAt(root)(p) else p);
      forall i | 0 <= i < |t[k]| ensures m[i].name == t[k][i].name {
        assert m[i] == if t[k][i].id == pid then PointAt(root)(t[k][i]) else t[k][i];
      }
      SameNamesCount(t[k], m, n);
    }
  }

  lemma {:induction false} SameNamesCount(a: seq<Prop>, b: seq<Prop>, n: string)
    requires |a| == |b| && forall i :: 0 <= i < |a| ==> a[i].name == b[i].name
    ensures CountNamed(a, n) == CountNamed(b, n)
  {
    if |a| > 0 {
      SameNamesCount(a[..|a| - 1], b[..|b| - 1], n);
    }
  }

  /**
   * Entering the registry never gives the root a second prop named after
   * an alias: the instances are only updated when the root has none.
   */
  lemma {:induction false} StepsInKeepRootUnique(h: Helpers, root: string, s: Stores, items: seq<(string, Prop)>, n: string)
    requires AddsOnlyTheAlias(h)
    requires CountNamed(PropsOf(s.customComponentsProps, root), n) <= 1
    ensures CountNamed(PropsOf(Fold(InStep(h, root), s, items).customComponentsProps, root), n) <= 1
  {
    if items != [] {
      var step := InStep(h, root);
      var last := items[|items| - 1];
      StepsInKeepRootUnique(h, root, s, items[..|items| - 1], n);
      var before := Fold(step, s, items[..|items| - 1]);
      if !HasAlias(PropsOf(before.customComponentsProps, root), last.1.derivedFromPropName) && last.1.derivedFromPropName == Some(n) {
        NoAliasNoneNamed(PropsOf(before.customComponentsProps, root), n);
      }
    }
  }

  /**
   * Moving inside the registry never gives the root a second prop named
   * after an alias either: retargeting keeps names, deleting adds none and
   * the instances are only updated when the root has none.
   */
  lemma {:induction false} StepsWithinKeepRootUnique(h: Helpers, root: string, s: Stores, items: seq<(string, Prop)>, n: string)
    requires AddsOnlyTheAlias(h)
    requires CountNamed(PropsOf(s.customComponentsProps, root), n) <= 1
    ensures CountNamed(PropsOf(Fold(WithinStep(h, root), s, items).customComponentsProps, root), n) <= 1
  {
    if items != [] {
      var step := WithinStep(h, root);
      var (k, p) := items[|items| - 1];
      StepsWithinKeepRootUnique(h, root, s, items[..|items| - 1], n);
      var before := Fold(step, s, items[..|items| - 1]);
      var s1 := before.(customComponentsProps := RetargetOne(before.customComponentsProps, k, p.id, root));
      RetargetOneNames(before.customComponentsProps, k, p.id, root, root, n);
      var d := h.deleteInRoot(p, s1);
      var s2 := WriteBack(s1, d);
      assert CountNamed(PropsOf(d.customComponentsProps, root), n) <= CountNamed(PropsOf(s1.customComponentsProps, root), n);
      assert CountNamed(PropsOf(s2.customComponentsProps, root), n) <= 1;
      if !HasAlias(PropsOf(s2.customComponentsProps, root), p.derivedFromPropName) && p.derivedFromPropName == Some(n) {
        NoAliasNoneNamed(PropsOf(s2.customComponentsProps, root), n);
      }
    }
  }

  // ------------------------------------------------------------ trees

  /**
   * Inside the registry the node takes its new parent first and is then
   * spliced out of `oldParent`'s children (`splice(indexOf(id), 1)`).
   */
  function Reparented(t: Tree, id: string, oldParent: string, newParent: string): (r: Tree)
    requires id in t && oldParent in t
    ensures r.Keys == t.Keys
  {
    var t1 := t[id := t[id].(parent := newParent)];
    t1[oldParent := t1[oldParent].(children := SpliceOut(t1[oldParent].children, id))]
  }

  /** Inside the page: spliced out of `oldParent`'s children, new parent, pushed onto the new parent's children. */
  function Relink(t: Tree, id: string, oldParent: string, newParent: string): (r: Tree)
    requires id in t && oldParent in t && newParent in t
    ensures r.Keys == t.Keys
  {
    var t1 := t[oldParent := t[oldParent].(children := SpliceOut(t[oldParent].children, id))];
    Pushed(t1[id := t1[id].(parent := newParent)], newParent, id)
  }

  /**
   * When the payload's `oldParentId` is the node's parent and lists it, the
   * page-to-page move is the old reducer's move.
   */
  lemma RelinkIsMoveWithin(t: Tree, id: string, newParent: string)
    requires id in t && t[id].parent in t && newParent in t && id in t[t[id].parent].children
    ensures Relink(t, id, t[id].parent, newParent) == MoveWithin(t, id, newParent)
  {
  }

  /**
   * A stale `oldParentId` that does not list the node loses its last child:
   * `indexOf` gives -1 and `splice(-1, 1)` counts from the end. For the
   * `[b, c]` parent of a node `a` listed elsewhere, `c` is dropped.
   */
  lemma RelinkStaleDropsLast(t: Tree, id: string, oldParent: string, newParent: string)
    requires id in t && oldParent in t && newParent in t && oldParent != newParent
    requires id !in t[oldParent].children && |t[oldParent].children| > 0
    ensures Relink(t, id, oldParent, newParent)[oldParent].children
      == t[oldParent].children[..|t[oldParent].children| - 1]
  {
  }

  /**
   * The registry's order of steps gives the same tree as the page's, unless
   * the node is its own old parent.
   */
  lemma ReparentedThenPushed(t: Tree, id: string, oldParent: string, newParent: string)
    requires id in t && oldParent in t && newParent in t && id != oldParent
    ensures Pushed(Reparented(t, id, oldParent, newParent), newParent, id) == Relink(t, id, oldParent, newParent)
  {
    var a := Pushed(Reparented(t, id, oldParent, newParent), newParent, id);
    var b := Relink(t, id, oldParent, newParent);
    forall k | k in t ensures a[k] == b[k] {
    }
  }

  // ------------------------------------------------------------ the four cases

  /** `propsById[id]`, read as empty when missing. */
  function PropsAt(m: map<string, PropTable>, id: string): PropTable {
    if id in m then m[id] else map[]
  }

  /**
   * What the move needs on the path it takes: the records it dereferences
   * exist, `root` is the template root above a registry target, `sub` is
   * the moved node's subtree and `order` the key order of the moved props.
   */
  ghost predicate CrossMoveReady(
    tree: Tree, pageProps: PropTable, cc: Tree, ccProps: PropTable,
    componentId: string, newParentId: string, oldParentId: string, root: string, sub: set<string>, order: seq<string>)
  {
    if componentId in cc then
      && oldParentId in cc && SubtreeOf(cc, componentId, sub)
      && Enumerates(order, ccProps.Keys * sub)
      && (newParentId in cc ==> IsRootOf(cc, root, newParentId))
      && (newParentId !in cc ==> newParentId in tree)
    else
      && componentId in tree && oldParentId in tree
      && (newParentId in cc ==> IsRootOf(cc, root, newParentId))
      && (newParentId in cc && cc[root].ctype != tree[componentId].ctype ==>
            SubtreeOf(tree, componentId, sub) && Enumerates(order, pageProps.Keys * sub))
      && (newParentId !in cc ==> newParentId in tree)
  }

  /** `CrossMoveReady` on the stores of `page`. */
  ghost predicate ReadyToMove(s: Stores, page: Page, componentId: string, newParentId: string, oldParentId: string,
                              root: string, sub: set<string>, order: seq<string>)
  {
    && page.componentsId in s.componentsById
    && CrossMoveReady(s.componentsById[page.componentsId], PropsAt(s.propsById, page.propsId), s.customComponents,
                      s.customComponentsProps, componentId, newParentId, oldParentId, root, sub, order)
  }

  /** Template to template (moveComponent.ts, first branch). */
  function WithinTemplate(h: Helpers, s: Stores, componentId: string, newParentId: string, oldParentId: string,
                          root: string, sub: set<string>, order: seq<string>): Stores
    requires componentId in s.customComponents && oldParentId in s.customComponents && newParentId in s.customComponents
  {
    var cc2 := Reparented(s.customComponents, componentId, oldParentId, newParentId);
    var m := MoveComp(cc2, s.customComponentsProps, sub);
    Fold(WithinStep(h, root),
         s.(customComponents := Pushed(cc2, newParentId, componentId)),
         Listed(m.movedProps, order, BothAliased))
  }

  /** The page stores after leaving the registry, before any alias is deleted. */
  function LeftRegistry(s: Stores, page: Page, componentId: string, newParentId: string, oldParentId: string, sub: set<string>): Stores
    requires page.componentsId in s.componentsById
    requires componentId in s.customComponents && oldParentId in s.customComponents && componentId in sub
    requires newParentId in s.componentsById[page.componentsId]
  {
    var m := MoveComp(Reparented(s.customComponents, componentId, oldParentId, newParentId), s.customComponentsProps, sub);
    Stores(s.componentsById[page.componentsId := Grafted(s.componentsById[page.componentsId], m.movedComponents, componentId, newParentId)],
           s.propsById, m.updatedSourceComponents, MergeProps(s.customComponentsProps, m.updatedSourceProps))
  }

  /** Template to page (moveComponent.ts, second branch). */
  function TemplateToPage(h: Helpers, s: Stores, page: Page, componentId: string, newParentId: string, oldParentId: string,
                          sub: set<string>, order: seq<string>): Stores
    requires page.componentsId in s.componentsById
    requires componentId in s.customComponents && oldParentId in s.customComponents && componentId in sub
    requires newParentId in s.componentsById[page.componentsId]
  {
    var m := MoveComp(Reparented(s.customComponents, componentId, oldParentId, newParentId), s.customComponentsProps, sub);
    var s2 := Fold(OutStep(h),
                   LeftRegistry(s, page, componentId, newParentId, oldParentId, sub),
                   Listed(m.movedProps, order, Aliased));
    s2.(propsById := s2.propsById[page.propsId := MergeProps(PropsAt(s2.propsById, page.propsId), NullRootAliases(m.movedProps, componentId))])
  }

  /** `addCustomComponent`'s rule again: a template cannot receive its own instance. */
  predicate IntoOwnTemplate(tree: Tree, cc: Tree, componentId: string, root: string)
    requires componentId in tree && root in cc
  {
    cc[root].ctype == tree[componentId].ctype
  }

  /** Page to template (moveComponent.ts, third branch), after the self-instance check. */
  function PageToTemplate(h: Helpers, s: Stores, page: Page, componentId: string, newParentId: string, oldParentId: string,
                          root: string, sub: set<string>, order: seq<string>): Stores
    requires page.componentsId in s.componentsById
    requires var tree := s.componentsById[page.componentsId];
      componentId in tree && oldParentId in tree && componentId in sub && newParentId in s.customComponents
  {
    var m := LeftPage(s, page, componentId, oldParentId, sub);
    Fold(InStep(h, root), EnteredRegistry(s, page, componentId, newParentId, oldParentId, root, sub),
         Listed(RetargetAll(m.movedProps, root), order, Aliased))
  }

  /** The page's subtree, cut out after the node is spliced out of `oldParentId`'s children. */
  function LeftPage(s: Stores, page: Page, componentId: string, oldParentId: string, sub: set<string>): (r: Extracted)
    requires page.componentsId in s.componentsById && oldParentId in s.componentsById[page.componentsId]
    ensures r.movedComponents.Keys == s.componentsById[page.componentsId].Keys * sub
    ensures r.updatedSourceComponents.Keys == s.componentsById[page.componentsId].Keys - sub
  {
    var tree := s.componentsById[page.componentsId];
    MoveComp(tree[oldParentId := tree[oldParentId].(children := SpliceOut(tree[oldParentId].children, componentId))],
             PropsAt(s.propsById, page.propsId), sub)
  }

  /** The stores after entering the registry, before any instance is updated. */
  function EnteredRegistry(s: Stores, page: Page, componentId: string, newParentId: string, oldParentId: string,
                           root: string, sub: set<string>): (r: Stores)
    requires page.componentsId in s.componentsById
    requires var tree := s.componentsById[page.componentsId];
      componentId in tree && oldParentId in tree && componentId in sub && newParentId in s.customComponents
    ensures r.componentsById.Keys == s.componentsById.Keys && r.propsById.Keys == s.propsById.Keys + {page.propsId}
    ensures r.componentsById[page.componentsId].Keys == s.componentsById[page.componentsId].Keys - sub
    ensures r.customComponents.Keys == s.customComponents.Keys + s.componentsById[page.componentsId].Keys * sub
    ensures PlacedUnder(r.customComponents, componentId, newParentId)
  {
    var m := LeftPage(s, page, componentId, oldParentId, sub);
    assert m.updatedSourceComponents.Keys == s.componentsById[page.componentsId].Keys - sub;
    assert componentId in m.movedComponents;
    Stores(s.componentsById[page.componentsId := m.updatedSourceComponents],
           s.propsById[page.propsId := m.updatedSourceProps],
           Grafted(s.customComponents, m.movedComponents, componentId, newParentId),
           MergeProps(s.customComponentsProps, RetargetAll(m.movedProps, root)))
  }

  /**
   * The stores after `moveComponent(draftState, {componentId, newParentId, oldParentId})`,
   * or `None` when an instance is moved into its own template and the
   * draft is returned untouched.
   */
  function CrossMoved(h: Helpers, s: Stores, page: Page, componentId: string, newParentId: string, oldParentId: string,
                      root: string, sub: set<string>, order: seq<string>): Option<Stores>
    requires ReadyToMove(s, page, componentId, newParentId, oldParentId, root, sub, order)
  {
    var tree := s.componentsById[page.componentsId];
    var cc := s.customComponents;
    if componentId in cc then
      if newParentId in cc then Some(WithinTemplate(h, s, componentId, newParentId, oldParentId, root, sub, order))
      else Some(TemplateToPage(h, s, page, componentId, newParentId, oldParentId, sub, order))
    else if newParentId in cc then
      if IntoOwnTemplate(tree, cc, componentId, root) then None
      else Some(PageToTemplate(h, s, page, componentId, newParentId, oldParentId, root, sub, order))
    else Some(Put(s, page, false, Relink(tree, componentId, oldParentId, newParentId), PropsAt(s.propsById, page.propsId)))
  }

  /** Assumption: neither helper touches a component tree. */
  ghost predicate KeepsTrees(h: Helpers) {
    && (forall p: Prop, s: Stores :: h.deleteInRoot(p, s).componentsById == s.componentsById)
    && (forall p: Prop, s: Stores :: h.deleteInRoot(p, s).customComponents == s.customComponents)
    && (forall s: Stores, root: string, p: Prop, k: string :: h.addToInstances(s, root, p, k).componentsById == s.componentsById)
    && (forall s: Stores, root: string, p: Prop, k: string :: h.addToInstances(s, root, p, k).customComponents == s.customComponents)
  }

  /** A step that keeps both trees. */
  ghost predicate StepKeepsTrees(step: (Stores, (string, Prop)) -> Stores) {
    forall x: Stores, it: (string, Prop) ::
      step(x, it).componentsById == x.componentsById && step(x, it).customComponents == x.customComponents
  }

  lemma StepsKeepTrees(h: Helpers, root: string)
    requires KeepsTrees(h)
    ensures StepKeepsTrees(WithinStep(h, root)) && StepKeepsTrees(OutStep(h)) && StepKeepsTrees(InStep(h, root))
  {
    forall x: Stores, it: (string, Prop)
      ensures StepWithin(h, root, x, it).componentsById == x.componentsById
      ensures StepWithin(h, root, x, it).customComponents == x.customComponents
    {
      var s1 := x.(customComponentsProps := RetargetOne(x.customComponentsProps, it.0, it.1.id, root));
      var s2 := WriteBack(s1, h.deleteInRoot(it.1, s1));
      assert s2.componentsById == x.componentsById && s2.customComponents == x.customComponents;
    }
  }

  lemma {:induction false} FoldKeepsTrees(step: (Stores, (string, Prop)) -> Stores, s: Stores, items: seq<(string, Prop)>)
    requires StepKeepsTrees(step)
    ensures Fold(step, s, items).componentsById == s.componentsById
    ensures Fold(step, s, items).customComponents == s.customComponents
  {
    if items != [] {
      FoldKeepsTrees(step, s, items[..|items| - 1]);
    }
  }

  /** The node is `t[parent]`'s last child and points back at it. */
  predicate PlacedUnder(t: Tree, id: string, parent: string) {
    && id in t && parent in t && t[id].parent == parent
    && t[parent].children != [] && t[parent].children[|t[parent].children| - 1] == id
  }

  /** Template to template: the page is untouched and the registry keeps its nodes. */
  lemma WithinTemplatePlaces(h: Helpers, s: Stores, page: Page, componentId: string, newParentId: string, oldParentId: string,
                             root: string, sub: set<string>, order: seq<string>)
    requires KeepsTrees(h)
    requires componentId in s.customComponents && oldParentId in s.customComponents && newParentId in s.customComponents
    ensures var r := WithinTemplate(h, s, componentId, newParentId, oldParentId, root, sub, order);
      && r.componentsById == s.componentsById
      && r.customComponents.Keys == s.customComponents.Keys
      && PlacedUnder(r.customComponents, componentId, newParentId)
    ensures page.componentsId in s.componentsById ==>
      NodePlaced(s, WithinTemplate(h, s, componentId, newParentId, oldParentId, root, sub, order), page, componentId, newParentId)
  {
    var cc2 := Reparented(s.customComponents, componentId, oldParentId, newParentId);
    var m := MoveComp(cc2, s.customComponentsProps, sub);
    StepsKeepTrees(h, root);
    FoldKeepsTrees(WithinStep(h, root), s.(customComponents := Pushed(cc2, newParentId, componentId)), Listed(m.movedProps, order, BothAliased));
    assert cc2[componentId].parent == newParentId;
  }

  /** Template to page: the moved subtree leaves the registry for the page. */
  lemma TemplateToPagePlaces(h: Helpers, s: Stores, page: Page, componentId: string, newParentId: string, oldParentId: string,
                             sub: set<string>, order: seq<string>)
    requires KeepsTrees(h)
    requires page.componentsId in s.componentsById
    requires componentId in s.customComponents && oldParentId in s.customComponents && componentId in sub
    requires newParentId in s.componentsById[page.componentsId] && newParentId !in s.customComponents
    ensures var r := TemplateToPage(h, s, page, componentId, newParentId, oldParentId, sub, order);
      && page.componentsId in r.componentsById
      && r.componentsById[page.componentsId].Keys == s.componentsById[page.componentsId].Keys + s.customComponents.Keys * sub
      && r.customComponents.Keys == s.customComponents.Keys - sub
      && PlacedUnder(r.componentsById[page.componentsId], componentId, newParentId)
    ensures NodePlaced(s, TemplateToPage(h, s, page, componentId, newParentId, oldParentId, sub, order), page, componentId, newParentId)
  {
    var cc2 := Reparented(s.customComponents, componentId, oldParentId, newParentId);
    var m := MoveComp(cc2, s.customComponentsProps, sub);
    var s1 := LeftRegistry(s, page, componentId, newParentId, oldParentId, sub);
    StepsKeepTrees(h, "");
    FoldKeepsTrees(OutStep(h), s1, Listed(m.movedProps, order, Aliased));
    assert m.movedComponents[componentId] == cc2[componentId];
    assert cc2[componentId].parent == newParentId;
    assert m.updatedSourceComponents.Keys == cc2.Keys - sub;
    var tree := s.componentsById[page.componentsId];
    assert tree.Keys + s.customComponents.Keys * sub + (s.customComponents.Keys - sub) == tree.Keys + s.customComponents.Keys;
  }

  /** Page to template: the moved subtree leaves the page for the registry. */
  lemma PageToTemplatePlaces(h: Helpers, s: Stores, page: Page, componentId: string, newParentId: string, oldParentId: string,
                             root: string, sub: set<string>, order: seq<string>)
    requires KeepsTrees(h)
    requires page.componentsId in s.componentsById
    requires var tree := s.componentsById[page.componentsId];
      componentId in tree && oldParentId in tree && componentId in sub && newParentId in s.customComponents
    ensures var r := PageToTemplate(h, s, page, componentId, newParentId, oldParentId, root, sub, order);
      && page.componentsId in r.componentsById
      && r.componentsById[page.componentsId].Keys == s.componentsById[page.componentsId].Keys - sub
      && r.customComponents.Keys == s.customComponents.Keys + s.componentsById[page.componentsId].Keys * sub
      && PlacedUnder(r.customComponents, componentId, newParentId)
    ensures NodePlaced(s, PageToTemplate(h, s, page, componentId, newParentId, oldParentId, root, sub, order), page, componentId, newParentId)
  {
    var tree := s.componentsById[page.componentsId];
    var s1 := EnteredRegistry(s, page, componentId, newParentId, oldParentId, root, sub);
    var items := Listed(RetargetAll(LeftPage(s, page, componentId, oldParentId, sub).movedProps, root), order, Aliased);
    StepsKeepTrees(h, root);
    FoldKeepsTrees(InStep(h, root), s1, items);
    assert (tree.Keys - sub) + (s.customComponents.Keys + tree.Keys * sub) == tree.Keys + s.customComponents.Keys;
  }

  /**
   * No node is lost or created across the page and the registry, and the
   * moved node is the last child of `newParentId`, in the registry exactly
   * when `newParentId` was a registry node.
   */
  ghost predicate NodePlaced(s: Stores, r: Stores, page: Page, componentId: string, newParentId: string)
    requires page.componentsId in s.componentsById
  {
    && page.componentsId in r.componentsById
    && r.componentsById[page.componentsId].Keys + r.customComponents.Keys
       == s.componentsById[page.componentsId].Keys + s.customComponents.Keys
    && PlacedUnder(if newParentId in s.customComponents then r.customComponents else r.componentsById[page.componentsId],
                   componentId, newParentId)
  }

  /** Page to page: the registry is untouched and the page keeps its nodes. */
  lemma WithinPagePlaces(s: Stores, page: Page, componentId: string, newParentId: string, oldParentId: string)
    requires page.componentsId in s.componentsById
    requires var tree := s.componentsById[page.componentsId];
      componentId in tree && oldParentId in tree && newParentId in tree && newParentId !in s.customComponents
    ensures NodePlaced(s, Put(s, page, false, Relink(s.componentsById[page.componentsId], componentId, oldParentId, newParentId),
                              PropsAt(s.propsById, page.propsId)), page, componentId, newParentId)
  {
  }

  /** Whatever branch the move takes, when the helpers leave the trees alone, the node is placed. */
  lemma CrossMovedPlacesNode(h: Helpers, s: Stores, page: Page, componentId: string, newParentId: string, oldParentId: string,
                             root: string, sub: set<string>, order: seq<string>)
    requires KeepsTrees(h)
    requires ReadyToMove(s, page, componentId, newParentId, oldParentId, root, sub, order)
    ensures var r := CrossMoved(h, s, page, componentId, newParentId, oldParentId, root, sub, order);
      r.Some? ==> NodePlaced(s, r.value, page, componentId, newParentId)
  {
    var tree := s.componentsById[page.componentsId];
    var cc := s.customComponents;
    if componentId in cc {
      if newParentId in cc {
        WithinTemplatePlaces(h, s, page, componentId, newParentId, oldParentId, root, sub, order);
      } else {
        TemplateToPagePlaces(h, s, page, componentId, newParentId, oldParentId, sub, order);
      }
    } else if newParentId in cc {
      if !IntoOwnTemplate(tree, cc, componentId, root) {
        PageToTemplatePlaces(h, s, page, componentId, newParentId, oldParentId, root, sub, order);
      }
    } else {
      WithinPagePlaces(s, page, componentId, newParentId, oldParentId);
    }
  }

  // ------------------------------------------------------------ linked trees

  /** A graft ignores the moved root's own parent link, which it overwrites. */
  lemma GraftedIgnoresRootParent(dst: Tree, m: Tree, m': Tree, id: string, newParent: string)
    requires id in m && m'.Keys == m.Keys && newParent in dst
    requires forall k :: k in m && k != id ==> m'[k] == m[k]
    requires m'[id] == m[id].(parent := m'[id].parent)
    ensures Grafted(dst, m', id, newParent) == Grafted(dst, m, id, newParent)
  {
    var a := dst + m;
    var b := dst + m';
    assert a[id := a[id].(parent := newParent)] == b[id := b[id].(parent := newParent)];
  }

  /** Leaving the registry cuts the subtree out of it and grafts it onto the page. */
  lemma LeftRegistryIsCutAndGraft(s: Stores, page: Page, componentId: string, newParentId: string, oldParentId: string, sub: set<string>)
    requires page.componentsId in s.componentsById
    requires componentId in s.customComponents && oldParentId == s.customComponents[componentId].parent
    requires oldParentId in s.customComponents && oldParentId !in sub && componentId in sub && sub <= s.customComponents.Keys
    requires componentId in s.customComponents[oldParentId].children
    requires newParentId in s.componentsById[page.componentsId]
    ensures var r := LeftRegistry(s, page, componentId, newParentId, oldParentId, sub);
      && r.customComponents == CutRest(s.customComponents, componentId, sub)
      && r.componentsById == s.componentsById[page.componentsId :=
           Grafted(s.componentsById[page.componentsId], RestrictTree(s.customComponents, sub), componentId, newParentId)]
  {
    var cc := s.customComponents;
    var cc2 := Reparented(cc, componentId, oldParentId, newParentId);
    ReparentedCut(cc, componentId, oldParentId, newParentId, sub);
    GraftedIgnoresRootParent(s.componentsById[page.componentsId], RestrictTree(cc, sub), RestrictTree(cc2, sub), componentId, newParentId);
  }

  /** Reparenting before the cut leaves the same rest, and the same subtree but for the root's parent link. */
  lemma ReparentedCut(cc: Tree, componentId: string, oldParentId: string, newParentId: string, sub: set<string>)
    requires componentId in cc && oldParentId == cc[componentId].parent && oldParentId in cc
    requires oldParentId !in sub && componentId in sub && componentId in cc[oldParentId].children
    ensures Reparented(cc, componentId, oldParentId, newParentId) - sub == CutRest(cc, componentId, sub)
    ensures var m := RestrictTree(cc, sub);
      var m' := RestrictTree(Reparented(cc, componentId, oldParentId, newParentId), sub);
      && m'.Keys == m.Keys
      && (forall k :: k in m && k != componentId ==> m'[k] == m[k])
      && m'[componentId] == m[componentId].(parent := m'[componentId].parent)
  {
    ReparentedRest(cc, componentId, oldParentId, newParentId, sub);
  }

  lemma ReparentedRest(cc: Tree, componentId: string, oldParentId: string, newParentId: string, sub: set<string>)
    requires componentId in cc && oldParentId == cc[componentId].parent && oldParentId in cc
    requires oldParentId !in sub && componentId in sub && componentId in cc[oldParentId].children
    ensures Reparented(cc, componentId, oldParentId, newParentId) - sub == CutRest(cc, componentId, sub)
  {
    var a := Reparented(cc, componentId, oldParentId, newParentId) - sub;
    var b := CutRest(cc, componentId, sub);
    assert SpliceOut(cc[oldParentId].children, componentId) == RemoveFirst(cc[oldParentId].children, componentId);
    assert a.Keys == b.Keys;
    forall k | k in a ensures a[k] == b[k] {
      CutRestAt(cc, componentId, sub, k);
    }
  }

  /** Entering the registry cuts the subtree out of the page and grafts it onto the registry. */
  lemma EnteredRegistryIsCutAndGraft(s: Stores, page: Page, componentId: string, newParentId: string, oldParentId: string,
                                     root: string, sub: set<string>)
    requires page.componentsId in s.componentsById
    requires var tree := s.componentsById[page.componentsId];
      && componentId in tree && oldParentId == tree[componentId].parent && oldParentId in tree && oldParentId !in sub
      && componentId in sub && newParentId in s.customComponents && componentId in tree[oldParentId].children
    ensures var r := EnteredRegistry(s, page, componentId, newParentId, oldParentId, root, sub);
      var tree := s.componentsById[page.componentsId];
      && r.componentsById == s.componentsById[page.componentsId := CutRest(tree, componentId, sub)]
      && r.customComponents == Grafted(s.customComponents, RestrictTree(tree, sub), componentId, newParentId)
  {
    var tree := s.componentsById[page.componentsId];
    var m := LeftPage(s, page, componentId, oldParentId, sub);
    SplicedRest(tree, componentId, oldParentId, sub);
    assert m.updatedSourceComponents == CutRest(tree, componentId, sub);
    assert m.movedComponents == RestrictTree(tree, sub);
  }

  /** Splicing the node out of its listing parent and then cutting leaves the cut's rest. */
  lemma SplicedRest(tree: Tree, componentId: string, oldParentId: string, sub: set<string>)
    requires componentId in tree && oldParentId == tree[componentId].parent && oldParentId in tree && oldParentId !in sub
    requires componentId in sub && componentId in tree[oldParentId].children
    ensures tree[oldParentId := tree[oldParentId].(children := SpliceOut(tree[oldParentId].children, componentId))] - sub
      == CutRest(tree, componentId, sub)
  {
    var a := tree[oldParentId := tree[oldParentId].(children := SpliceOut(tree[oldParentId].children, componentId))] - sub;
    assert SpliceOut(tree[oldParentId].children, componentId) == RemoveFirst(tree[oldParentId].children, componentId);
    forall k | k in a ensures a[k] == CutRest(tree, componentId, sub)[k] {
      CutRestAt(tree, componentId, sub, k);
    }
  }

  /**
   * Template to template within the old parent's children keeps the
   * registry linked, when the helpers leave the trees alone.
   */
  lemma WithinTemplateLinked(h: Helpers, s: Stores, componentId: string, newParentId: string, oldParentId: string,
                             root: string, sub: set<string>, order: seq<string>)
    requires KeepsTrees(h) && Linked(s.customComponents)
    requires componentId in s.customComponents && oldParentId == s.customComponents[componentId].parent
    requires oldParentId in s.customComponents && newParentId in s.customComponents && oldParentId != ""
    requires oldParentId != componentId && newParentId != oldParentId && newParentId != componentId
    ensures var r := WithinTemplate(h, s, componentId, newParentId, oldParentId, root, sub, order);
      r.componentsById == s.componentsById && Linked(r.customComponents)
  {
    var cc := s.customComponents;
    assert componentId in cc[oldParentId].children;
    var cc2 := Reparented(cc, componentId, oldParentId, newParentId);
    var m := MoveComp(cc2, s.customComponentsProps, sub);
    StepsKeepTrees(h, root);
    FoldKeepsTrees(WithinStep(h, root), s.(customComponents := Pushed(cc2, newParentId, componentId)), Listed(m.movedProps, order, BothAliased));
    ReparentedThenPushed(cc, componentId, oldParentId, newParentId);
    RelinkIsMoveWithin(cc, componentId, newParentId);
    MoveWithinLinked(cc, componentId, newParentId);
  }

  /** Template to page keeps both trees linked, when the helpers leave the trees alone. */
  lemma TemplateToPageLinked(h: Helpers, s: Stores, page: Page, componentId: string, newParentId: string, oldParentId: string,
                             sub: set<string>, order: seq<string>)
    requires KeepsTrees(h)
    requires page.componentsId in s.componentsById
    requires Linked(s.componentsById[page.componentsId]) && Linked(s.customComponents)
    requires SubtreeOf(s.customComponents, componentId, sub) && "" !in sub && sub !! s.componentsById[page.componentsId].Keys
    requires oldParentId == s.customComponents[componentId].parent && oldParentId in s.customComponents && oldParentId !in sub
    requires newParentId in s.componentsById[page.componentsId] && oldParentId != ""
    ensures var r := TemplateToPage(h, s, page, componentId, newParentId, oldParentId, sub, order);
      && page.componentsId in r.componentsById
      && Linked(r.componentsById[page.componentsId]) && Linked(r.customComponents)
  {
    var cc := s.customComponents;
    assert componentId in cc[oldParentId].children;
    var m := MoveComp(Reparented(cc, componentId, oldParentId, newParentId), s.customComponentsProps, sub);
    var s1 := LeftRegistry(s, page, componentId, newParentId, oldParentId, sub);
    StepsKeepTrees(h, "");
    FoldKeepsTrees(OutStep(h), s1, Listed(m.movedProps, order, Aliased));
    LeftRegistryIsCutAndGraft(s, page, componentId, newParentId, oldParentId, sub);
    CutLinked(cc, componentId, sub);
    GraftedLinked(s.componentsById[page.componentsId], RestrictTree(cc, sub), componentId, newParentId);
  }

  /** Page to template keeps both trees linked, when the helpers leave the trees alone. */
  lemma PageToTemplateLinked(h: Helpers, s: Stores, page: Page, componentId: string, newParentId: string, oldParentId: string,
                             root: string, sub: set<string>, order: seq<string>)
    requires KeepsTrees(h)
    requires page.componentsId in s.componentsById
    requires Linked(s.componentsById[page.componentsId]) && Linked(s.customComponents)
    requires var tree := s.componentsById[page.componentsId];
      && SubtreeOf(tree, componentId, sub) && "" !in sub && sub !! s.customComponents.Keys
      && oldParentId == tree[componentId].parent && oldParentId in tree && oldParentId !in sub
    requires newParentId in s.customComponents && oldParentId != ""
    ensures var r := PageToTemplate(h, s, page, componentId, newParentId, oldParentId, root, sub, order);
      && page.componentsId in r.componentsById
      && Linked(r.componentsById[page.componentsId]) && Linked(r.customComponents)
  {
    var tree := s.componentsById[page.componentsId];
    assert componentId in tree[oldParentId].children;
    var s1 := EnteredRegistry(s, page, componentId, newParentId, oldParentId, root, sub);
    var items := Listed(RetargetAll(LeftPage(s, page, componentId, oldParentId, sub).movedProps, root), order, Aliased);
    StepsKeepTrees(h, root);
    FoldKeepsTrees(InStep(h, root), s1, items);
    EnteredRegistryIsCutAndGraft(s, page, componentId, newParentId, oldParentId, root, sub);
    CutLinked(tree, componentId, sub);
    GraftedLinked(s.customComponents, RestrictTree(tree, sub), componentId, newParentId);
  }

  /**
   * Whatever branch the move takes, two linked universes with distinct ids
   * stay linked, when `oldParentId` is the node's parent, the node moves to
   * another parent, and the helpers leave the trees alone.
   */
  lemma CrossMovedLinked(h: Helpers, s: Stores, page: Page, componentId: string, newParentId: string, oldParentId: string,
                         root: string, sub: set<string>, order: seq<string>)
    requires KeepsTrees(h)
    requires ReadyToMove(s, page, componentId, newParentId, oldParentId, root, sub, order)
    requires var tree := s.componentsById[page.componentsId];
      && Linked(tree) && Linked(s.customComponents) && tree.Keys !! s.customComponents.Keys
      && (componentId in s.customComponents ==> oldParentId == s.customComponents[componentId].parent)
      && (componentId !in s.customComponents ==> oldParentId == tree[componentId].parent)
    requires oldParentId !in sub && "" !in sub && oldParentId != ""
    requires oldParentId != componentId && newParentId != oldParentId && newParentId != componentId
    ensures var r := CrossMoved(h, s, page, componentId, newParentId, oldParentId, root, sub, order);
      r.Some? ==>
        && page.componentsId in r.value.componentsById
        && Linked(r.value.componentsById[page.componentsId]) && Linked(r.value.customComponents)
  {
    var tree := s.componentsById[page.componentsId];
    var cc := s.customComponents;
    if componentId in cc {
      if newParentId in cc {
        WithinTemplateLinked(h, s, componentId, newParentId, oldParentId, root, sub, order);
      } else {
        TemplateToPageLinked(h, s, page, componentId, newParentId, oldParentId, sub, order);
      }
    } else if newParentId in cc {
      if !IntoOwnTemplate(tree, cc, componentId, root) {
        PageToTemplateLinked(h, s, page, componentId, newParentId, oldParentId, root, sub, order);
      }
    } else {
      assert componentId in tree[oldParentId].children;
      RelinkIsMoveWithin(tree, componentId, newParentId);
      MoveWithinLinked(tree, componentId, newParentId);
    }
  }

  /** The template-to-template branch, with its loops. */
  method WithinTemplateSteps(h: Helpers, s: Stores, componentId: string, newParentId: string, oldParentId: string,
                             root: string, sub: set<string>, order: seq<string>) returns (r: Stores)
    requires KeepsStores(h)
    requires componentId in s.customComponents && oldParentId in s.customComponents && newParentId in s.customComponents
    ensures r == WithinTemplate(h, s, componentId, newParentId, oldParentId, root, sub, order)
    ensures s.componentsById.Keys <= r.componentsById.Keys && s.propsById.Keys <= r.propsById.Keys
  {
    var cc2 := Reparented(s.customComponents, componentId, oldParentId, newParentId);
    var m := MoveComp(cc2, s.customComponentsProps, sub);
    var s1 := s.(customComponents := Pushed(cc2, newParentId, componentId));
    var items := Listed(m.movedProps, order, BothAliased);
    r := FoldLoop(WithinStep(h, root), s1, items);
    StepsKeepPages(h, root);
    FoldKeepsPages(WithinStep(h, root), s1, items);
  }

  /** The template-to-page branch, with its loops. */
  method TemplateToPageSteps(h: Helpers, s: Stores, page: Page, componentId: string, newParentId: string, oldParentId: string,
                             sub: set<string>, order: seq<string>) returns (r: Stores)
    requires KeepsStores(h)
    requires page.componentsId in s.componentsById
    requires componentId in s.customComponents && oldParentId in s.customComponents && componentId in sub
    requires newParentId in s.componentsById[page.componentsId]
    ensures r == TemplateToPage(h, s, page, componentId, newParentId, oldParentId, sub, order)
    ensures page.componentsId in r.componentsById && page.propsId in r.propsById
  {
    var m := MoveComp(Reparented(s.customComponents, componentId, oldParentId, newParentId), s.customComponentsProps, sub);
    var s1 := LeftRegistry(s, page, componentId, newParentId, oldParentId, sub);
    var items := Listed(m.movedProps, order, Aliased);
    var s2 := FoldLoop(OutStep(h), s1, items);
    StepsKeepPages(h, "");
    FoldKeepsPages(OutStep(h), s1, items);
    r := s2.(propsById := s2.propsById[page.propsId := MergeProps(PropsAt(s2.propsById, page.propsId), NullRootAliases(m.movedProps, componentId))]);
  }

  /** The page-to-template branch, with its loops. */
  method PageToTemplateSteps(h: Helpers, s: Stores, page: Page, componentId: string, newParentId: string, oldParentId: string,
                             root: string, sub: set<string>, order: seq<string>) returns (r: Stores)
    requires KeepsStores(h)
    requires page.componentsId in s.componentsById
    requires var tree := s.componentsById[page.componentsId];
      componentId in tree && oldParentId in tree && SubtreeOf(tree, componentId, sub) && newParentId in s.customComponents
    requires Enumerates(order, PropsAt(s.propsById, page.propsId).Keys * sub)
    ensures r == PageToTemplate(h, s, page, componentId, newParentId, oldParentId, root, sub, order)
    ensures page.componentsId in r.componentsById && page.propsId in r.propsById
  {
    var m := LeftPage(s, page, componentId, oldParentId, sub);
    var moved := RetargetAllLoop(m.movedProps, order, root);
    var s1 := EnteredRegistry(s, page, componentId, newParentId, oldParentId, root, sub);
    var items := Listed(moved, order, Aliased);
    r := FoldLoop(InStep(h, root), s1, items);
    StepsKeepPages(h, root);
    FoldKeepsPages(InStep(h, root), s1, items);
  }

  /** `CrossMoved`, computed with the loops of the source. */
  method CrossMovedSteps(h: Helpers, s: Stores, page: Page, componentId: string, newParentId: string, oldParentId: string,
                         root: string, sub: set<string>, order: seq<string>) returns (r: Option<Stores>)
    requires KeepsStores(h)
    requires page.propsId in s.propsById && ReadyToMove(s, page, componentId, newParentId, oldParentId, root, sub, order)
    ensures r == CrossMoved(h, s, page, componentId, newParentId, oldParentId, root, sub, order)
    ensures r.Some? ==> page.componentsId in r.value.componentsById && page.propsId in r.value.propsById
  {
    var tree := s.componentsById[page.componentsId];
    var cc := s.customComponents;
    if componentId in cc {
      if newParentId in cc {
        var t := WithinTemplateSteps(h, s, componentId, newParentId, oldParentId, root, sub, order);
        r := Some(t);
      } else {
        var t := TemplateToPageSteps(h, s, page, componentId, newParentId, oldParentId, sub, order);
        r := Some(t);
      }
    } else if newParentId in cc {
      if IntoOwnTemplate(tree, cc, componentId, root) {
        r := None;
      } else {
        var t := PageToTemplateSteps(h, s, page, componentId, newParentId, oldParentId, root, sub, order);
        r := Some(t);
      }
    } else {
      r := Some(Put(s, page, false, Relink(tree, componentId, oldParentId, newParentId), PropsAt(s.propsById, page.propsId)));
    }
  }

  /**
   * `moveComponent({componentId, newParentId, oldParentId})` on the
   * selected page: the stores become `CrossMoved`'s, and the moved node is
   * selected; a move into the node's own template changes nothing.
   */
  method MoveComponent(st: ComponentsState, componentId: string, newParentId: string, oldParentId: string,
                       root: string, sub: set<string>, order: seq<string>, h: Helpers)
    requires st.Valid() && KeepsStores(h)
    requires ReadyToMove(st.AllStores(), st.pages[st.selectedPage], componentId, newParentId, oldParentId, root, sub, order)
    modifies st
    ensures unchanged(st`pages, st`selectedPage, st`hoveredId, st`idCounter)
    ensures st.Valid()
    ensures old(CrossMoved(h, st.AllStores(), st.pages[st.selectedPage], componentId, newParentId, oldParentId, root, sub, order)).None? ==>
      st.AllStores() == old(st.AllStores()) && st.selectedId == old(st.selectedId)
    ensures old(CrossMoved(h, st.AllStores(), st.pages[st.selectedPage], componentId, newParentId, oldParentId, root, sub, order)).Some? ==>
      && st.AllStores() == old(CrossMoved(h, st.AllStores(), st.pages[st.selectedPage], componentId, newParentId, oldParentId, root, sub, order)).value
      && st.selectedId == componentId
  {
    var page := st.pages[st.selectedPage];
    var r := CrossMovedSteps(h, st.AllStores(), page, componentId, newParentId, oldParentId, root, sub, order);
    if r.Some? {
      Commit(st, r.value, st.idCounter);
      st.selectedId := componentId;
    }
  }
}
