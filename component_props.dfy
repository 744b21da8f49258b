/**
 * The prop-store side of the components.ts reducers, as functions of the
 * stores they read: `updateProps`, `exposeProp`, `unexpose`,
 * `deleteCustomProp` and `duplicateProps`, with what each promises.
 * The reducers in module Components perform these updates on the state.
 */
module ComponentProps {
  import opened Wrappers
  import opened Seqs
  import opened Store

  // ---------------------------------------------------------------- updateProps

  /**
   * `updateProps` on the chosen store: the first prop of `id` named `name`
   * gets the new value; with none, one plain prop is appended.
   */
  function UpdateProp(t: PropTable, id: string, name: string, value: Value, newPropId: string): PropTable {
    var ps := PropsOf(t, id);
    match FindProp(ps, name)
    case Some(i) => t[id := ps[i := ps[i].(value := value)]]
    case None => t[id := ps + [PlainProp(newPropId, name, value)]]
  }

  /**
   * After `updateProps` the prop (id, name) holds the value: an existing one
   * keeps its id and aliases, a missing one is appended with null aliases.
   * No other component's props and no other name's lookup change.
   */
  lemma UpdatePropEffect(t: PropTable, id: string, name: string, value: Value, newPropId: string)
    ensures var r := UpdateProp(t, id, name, value, newPropId);
      && (forall c :: c != id ==> PropsOf(r, c) == PropsOf(t, c))
      && (Lookup(t, id, name).Some? ==>
            Lookup(r, id, name) == Some(Lookup(t, id, name).value.(value := value))
            && |PropsOf(r, id)| == |PropsOf(t, id)|)
      && (Lookup(t, id, name).None? ==>
            Lookup(r, id, name) == Some(PlainProp(newPropId, name, value))
            && PropsOf(r, id) == PropsOf(t, id) + [PlainProp(newPropId, name, value)])
      && (forall n :: n != name ==> Lookup(r, id, n) == Lookup(t, id, n))
  {
    var ps := PropsOf(t, id);
    var r := UpdateProp(t, id, name, value, newPropId);
    match FindProp(ps, name)
    case Some(i) =>
      forall n ensures FindProp(PropsOf(r, id), n) == FindProp(ps, n) {
        FindPropSameNames(PropsOf(r, id), ps, n);
      }
    case None =>
      forall n ensures FindProp(PropsOf(r, id), n) == if n == name then Some(|ps|) else FindProp(ps, n) {
        FindPropConcat(ps, [PlainProp(newPropId, name, value)], n);
      }
  }

  /** `updateProps` keeps at most one prop per (componentId, name). */
  lemma UpdatePropKeepsUnique(t: PropTable, id: string, name: string, value: Value, newPropId: string)
    requires UniqueNames(PropsOf(t, id))
    ensures UniqueNames(PropsOf(UpdateProp(t, id, name, value, newPropId), id))
    ensures CountNamed(PropsOf(UpdateProp(t, id, name, value, newPropId), id), name) == 1
  {
    var ps := PropsOf(t, id);
    var r := PropsOf(UpdateProp(t, id, name, value, newPropId), id);
    match FindProp(ps, name)
    case Some(i) =>
      CountUniqueFound(r, name, i);
    case None =>
      CountNamedAppend(ps, [PlainProp(newPropId, name, value)], name);
      CountAbsent(ps, name);
      assert [PlainProp(newPropId, name, value)][..0] == [];
  }

  lemma {:induction false} CountAbsent(ps: seq<Prop>, name: string)
    requires forall j :: 0 <= j < |ps| ==> ps[j].name != name
    ensures CountNamed(ps, name) == 0
  {
    if |ps| > 0 { CountAbsent(ps[..|ps| - 1], name); }
  }

  lemma {:induction false} CountUniqueFound(ps: seq<Prop>, name: string, i: nat)
    requires UniqueNames(ps) && i < |ps| && ps[i].name == name
    ensures CountNamed(ps, name) == 1
  {
    var n := |ps| - 1;
    if i == n {
      CountAbsent(ps[..n], name);
    } else {
      assert ps[n].name != name;
      CountUniqueFound(ps[..n], name, i);
    }
  }

  /** Two identical `updateProps` calls do what one does. */
  lemma UpdatePropIdempotent(t: PropTable, id: string, name: string, value: Value, p1: string, p2: string)
    ensures UpdateProp(UpdateProp(t, id, name, value, p1), id, name, value, p2) == UpdateProp(t, id, name, value, p1)
  {
    var ps := PropsOf(t, id);
    match FindProp(ps, name)
    case Some(i) => UpdateFoundAgain(t, id, name, value, p2, ps[i := ps[i].(value := value)], i);
    case None => UpdateFoundAgain(t, id, name, value, p2, ps + [PlainProp(p1, name, value)], |ps|);
  }

  /** Updating a table whose `id` entry is `l`, where `name` is first found at `i` and already holds `value`, changes nothing. */
  lemma UpdateFoundAgain(t: PropTable, id: string, name: string, value: Value, p2: string, l: seq<Prop>, i: nat)
    requires i < |l| && l[i].name == name && l[i].value == value
    requires forall j :: 0 <= j < i ==> l[j].name != name
    ensures UpdateProp(t[id := l], id, name, value, p2) == t[id := l]
  {
    var r := t[id := l];
    assert PropsOf(r, id) == l;
    assert FindProp(l, name) == Some(i);
    assert l[i := l[i].(value := value)] == l;
  }

  // ------------------------------------------------------------ instance loops

  /**
   * The `forEach` over `Object.values(nodes)` (visited in `order`) that
   * appends a plain prop `name = value` to every node whose type is `ty`;
   * each appended prop takes the next generated id. Returns the table and
   * the generator's next counter.
   */
  function PushToInstances(t: PropTable, nodes: Tree, order: seq<string>, ty: string, name: string, value: Value, counter: nat): (r: (PropTable, nat))
    ensures r.1 >= counter
    decreases |order|
  {
    if |order| == 0 then (t, counter)
    else
      var prev := PushToInstances(t, nodes, order[..|order| - 1], ty, name, value, counter);
      var k := order[|order| - 1];
      if k in nodes && nodes[k].ctype == ty then
        var cid := nodes[k].id;
        (prev.0[cid := PropsOf(prev.0, cid) + [PlainProp(IdOf(prev.1), name, value)]], prev.1 + 1)
      else prev
  }

  /** The nodes of `nodes` whose type is `ty`. */
  ghost function Instances(nodes: Tree, ty: string): set<string> {
    set k | k in nodes && nodes[k].ctype == ty
  }

  /** Pushing only appends: every list of the input is a prefix of the output's. */
  lemma {:induction false} PushToInstancesExtends(t: PropTable, nodes: Tree, order: seq<string>, ty: string, name: string, value: Value, counter: nat, c: string)
    ensures var r := PushToInstances(t, nodes, order, ty, name, value, counter).0;
      |PropsOf(t, c)| <= |PropsOf(r, c)| && PropsOf(r, c)[..|PropsOf(t, c)|] == PropsOf(t, c)
    decreases |order|
  {
    if |order| > 0 {
      PushToInstancesExtends(t, nodes, order[..|order| - 1], ty, name, value, counter, c);
    }
  }

  /** After the push, every visited instance has a prop named `name`. */
  lemma {:induction false} PushToInstancesProvides(t: PropTable, nodes: Tree, order: seq<string>, ty: string, name: string, value: Value, counter: nat, k: string)
    requires k in order && k in nodes && nodes[k].ctype == ty
    ensures FindProp(PropsOf(PushToInstances(t, nodes, order, ty, name, value, counter).0, nodes[k].id), name).Some?
    decreases |order|
  {
    var n := |order| - 1;
    var prev := PushToInstances(t, nodes, order[..n], ty, name, value, counter);
    var last := order[n];
    if last in nodes && nodes[last].ctype == ty {
      var cid := nodes[last].id;
      var q := PlainProp(IdOf(prev.1), name, value);
      FindPropConcat(PropsOf(prev.0, cid), [q], name);
      if cid != nodes[k].id {
        assert k in order[..n];
        PushToInstancesProvides(t, nodes, order[..n], ty, name, value, counter, k);
      }
    } else {
      assert k in order[..n];
      PushToInstancesProvides(t, nodes, order[..n], ty, name, value, counter, k);
    }
  }

  /**
   * When every node is keyed by its id and each is visited once, the push
   * appends exactly one plain prop `name = value` to each instance of `ty`
   * and leaves every other component's props as they were.
   */
  lemma {:induction false} PushToInstancesEffect(t: PropTable, nodes: Tree, order: seq<string>, ty: string, name: string, value: Value, counter: nat, c: string)
    requires NoDup(order)
    requires forall k :: k in nodes ==> nodes[k].id == k
    ensures var r := PushToInstances(t, nodes, order, ty, name, value, counter).0;
      if c in order && c in nodes && nodes[c].ctype == ty then
        |PropsOf(r, c)| == |PropsOf(t, c)| + 1
        && PropsOf(r, c)[..|PropsOf(t, c)|] == PropsOf(t, c)
        && PropsOf(r, c)[|PropsOf(t, c)|].name == name
        && PropsOf(r, c)[|PropsOf(t, c)|].value == value
        && PropsOf(r, c)[|PropsOf(t, c)|].derivedFromPropName.None?
        && PropsOf(r, c)[|PropsOf(t, c)|].derivedFromComponentType.None?
      else PropsOf(r, c) == PropsOf(t, c)
    decreases |order|
  {
    if |order| > 0 {
      var n := |order| - 1;
      assert NoDup(order[..n]) by {
        forall i, j | 0 <= i < j < n ensures order[..n][i] != order[..n][j] { assert order[i] != order[j]; }
      }
      PushToInstancesEffect(t, nodes, order[..n], ty, name, value, counter, c);
      assert c in order <==> c in order[..n] || c == order[n];
      if c == order[n] {
        assert c !in order[..n] by {
          forall i | 0 <= i < n ensures order[..n][i] != c { assert order[i] != order[n]; }
        }
      }
    }
  }

  /** The surviving list after `splice(findIndex(prop => prop.name === name), 1)`, treating not-found as no change. */
  function RemoveFirstNamed(ps: seq<Prop>, name: string): (r: seq<Prop>)
    ensures FindProp(ps, name).None? ==> r == ps
    ensures FindProp(ps, name).Some? ==> |r| == |ps| - 1
  {
    match FindProp(ps, name)
    case Some(i) => RemoveAt(ps, i)
    case None => ps
  }

  /** Removing the first prop of a name keeps only props of the list. */
  lemma RemoveFirstNamedSub(ps: seq<Prop>, name: string)
    ensures forall p :: p in RemoveFirstNamed(ps, name) ==> p in ps
  {
    match FindProp(ps, name)
    case Some(i) =>
      forall p | p in RemoveAt(ps, i) ensures p in ps {
        var j :| 0 <= j < |RemoveAt(ps, i)| && RemoveAt(ps, i)[j] == p;
        if j < i { assert p == ps[j]; } else { assert p == ps[j + 1]; }
      }
    case None =>
  }

  /** Removing the first prop of a name keeps every prop of another name. */
  lemma RemoveFirstNamedKeeps(ps: seq<Prop>, name: string)
    ensures forall i :: 0 <= i < |ps| && ps[i].name != name ==> ps[i] in RemoveFirstNamed(ps, name)
  {
    match FindProp(ps, name)
    case Some(i) =>
      var r := RemoveAt(ps, i);
      forall m | 0 <= m < |ps| && ps[m].name != name ensures ps[m] in r {
        if m < i { assert r[m] == ps[m]; } else { assert r[m - 1] == ps[m]; }
      }
    case None =>
  }

  /** With at most one prop per name, removing the named one leaves none of that name and keeps all others in order. */
  lemma RemoveFirstNamedUnique(ps: seq<Prop>, name: string)
    requires UniqueNames(ps)
    ensures forall p :: p in RemoveFirstNamed(ps, name) ==> p.name != name
    ensures forall i :: 0 <= i < |ps| && ps[i].name != name ==> ps[i] in RemoveFirstNamed(ps, name)
    ensures UniqueNames(RemoveFirstNamed(ps, name))
  {
    match FindProp(ps, name)
    case Some(i) =>
      var r := RemoveAt(ps, i);
      forall p | p in r ensures p.name != name {
        var j :| 0 <= j < |r| && r[j] == p;
        if j < i { assert r[j] == ps[j]; } else { assert r[j] == ps[j + 1]; }
      }
      forall m | 0 <= m < |ps| && ps[m].name != name ensures ps[m] in r {
        if m < i { assert r[m] == ps[m]; } else { assert r[m - 1] == ps[m]; }
      }
    case None =>
  }

  /**
   * The `forEach` over `Object.values(nodes)` that removes, from every node
   * whose type is `ty`, its first prop named `name`.
   */
  function RemoveFromInstances(t: PropTable, nodes: Tree, order: seq<string>, ty: string, name: string): PropTable
    decreases |order|
  {
    if |order| == 0 then t
    else
      var prev := RemoveFromInstances(t, nodes, order[..|order| - 1], ty, name);
      var k := order[|order| - 1];
      if k in nodes && nodes[k].ctype == ty then
        var cid := nodes[k].id;
        prev[cid := RemoveFirstNamed(PropsOf(prev, cid), name)]
      else prev
  }

  /**
   * When every node is keyed by its id and visited once, each instance of
   * `ty` loses its first prop named `name`; no other component is touched.
   */
  lemma {:induction false} RemoveFromInstancesEffect(t: PropTable, nodes: Tree, order: seq<string>, ty: string, name: string, c: string)
    requires NoDup(order)
    requires forall k :: k in nodes ==> nodes[k].id == k
    ensures var r := RemoveFromInstances(t, nodes, order, ty, name);
      if c in order && c in nodes && nodes[c].ctype == ty then PropsOf(r, c) == RemoveFirstNamed(PropsOf(t, c), name)
      else PropsOf(r, c) == PropsOf(t, c)
    decreases |order|
  {
    if |order| > 0 {
      var n := |order| - 1;
      assert NoDup(order[..n]) by {
        forall i, j | 0 <= i < j < n ensures order[..n][i] != order[..n][j] { assert order[i] != order[j]; }
      }
      RemoveFromInstancesEffect(t, nodes, order[..n], ty, name, c);
      assert c in order <==> c in order[..n] || c == order[n];
      if c == order[n] {
        assert c !in order[..n] by {
          forall i | 0 <= i < n ensures order[..n][i] != c { assert order[i] != order[n]; }
        }
      }
    }
  }

  // ------------------------------------------------------------------ exposeProp

  /** What `exposeProp` leaves in the page props, the registry props and the id generator. */
  datatype Exposed = Exposed(pageProps: PropTable, customProps: PropTable, counter: nat)

  /**
   * The first half of `exposeProp` inside a template: the targeted prop of
   * `componentId` in the registry is aliased under `customName` at type
   * `rootType`, or added so aliased with an empty value under the next
   * generated id. Returns the registry props, the value to seed instances
   * with, and the generator's next counter.
   */
  function AliasInRegistry(ccProps: PropTable, componentId: string, customName: string, targeted: string, rootType: string, counter: nat): (r: (PropTable, Value, nat))
    ensures r.2 >= counter
  {
    var ps := PropsOf(ccProps, componentId);
    match FindProp(ps, targeted)
    case Some(i) =>
      (ccProps[componentId := ps[i := ps[i].(derivedFromComponentType := Some(rootType), derivedFromPropName := Some(customName))]], ps[i].value, counter)
    case None =>
      (ccProps[componentId := ps + [Prop(IdOf(counter), targeted, Str(""), Some(customName), Some(rootType))]], Str(""), counter + 1)
  }

  /** Aliasing leaves the targeted prop present and aliased as (rootType, customName), and touches no other component. */
  lemma AliasInRegistryEffect(ccProps: PropTable, componentId: string, customName: string, targeted: string, rootType: string, counter: nat)
    ensures var r := AliasInRegistry(ccProps, componentId, customName, targeted, rootType, counter).0;
      var i := FindProp(PropsOf(r, componentId), targeted);
      && i.Some?
      && PropsOf(r, componentId)[i.value].derivedFromPropName == Some(customName)
      && PropsOf(r, componentId)[i.value].derivedFromComponentType == Some(rootType)
      && (forall c :: c != componentId ==> PropsOf(r, c) == PropsOf(ccProps, c))
  {
    var ps := PropsOf(ccProps, componentId);
    var r := AliasInRegistry(ccProps, componentId, customName, targeted, rootType, counter).0;
    match FindProp(ps, targeted)
    case Some(i) =>
      FindPropSameNames(PropsOf(r, componentId), ps, targeted);
    case None =>
      FindPropConcat(ps, [Prop(IdOf(counter), targeted, Str(""), Some(customName), Some(rootType))], targeted);
  }

  /**
   * `exposeProp` on a node inside a template: the targeted prop is aliased
   * under `customName` at the template root's type (or added so aliased,
   * with an empty value); then, only if the root has no prop named
   * `customName`, every instance of the template, in the page and in the
   * registry, gets a plain prop `customName` seeded with the targeted
   * prop's value.
   */
  function ExposeInTemplate(
    tree: Tree, pageProps: PropTable, cc: Tree, ccProps: PropTable,
    componentId: string, root: string, customName: string, targeted: string,
    pageOrder: seq<string>, ccOrder: seq<string>, counter: nat): Exposed
    requires root in cc
  {
    var a := AliasInRegistry(ccProps, componentId, customName, targeted, cc[root].ctype, counter);
    if FindProp(PropsOf(a.0, root), customName).None? then
      var pp := PushToInstances(pageProps, tree, pageOrder, root, customName, a.1, a.2);
      var cp := PushToInstances(a.0, cc, ccOrder, root, customName, a.1, pp.1);
      Exposed(pp.0, cp.0, cp.1)
    else Exposed(pageProps, a.0, a.2)
  }

  /**
   * Exposing inside a template marks the targeted prop as aliased under
   * `customName` at the root's type, whether it existed or was added, and
   * afterwards the root (an instance of its own type, as every template
   * root is) has a prop named `customName`.
   */
  lemma ExposeInTemplateAliases(
    tree: Tree, pageProps: PropTable, cc: Tree, ccProps: PropTable,
    componentId: string, root: string, customName: string, targeted: string,
    pageOrder: seq<string>, ccOrder: seq<string>, counter: nat)
    requires root in cc && cc[root].id == root && cc[root].ctype == root && root in ccOrder
    ensures var e := ExposeInTemplate(tree, pageProps, cc, ccProps, componentId, root, customName, targeted, pageOrder, ccOrder, counter);
      var i := FindProp(PropsOf(e.customProps, componentId), targeted);
      && i.Some?
      && PropsOf(e.customProps, componentId)[i.value].derivedFromPropName == Some(customName)
      && PropsOf(e.customProps, componentId)[i.value].derivedFromComponentType == Some(cc[root].ctype)
      && FindProp(PropsOf(e.customProps, root), customName).Some?
  {
    var a := AliasInRegistry(ccProps, componentId, customName, targeted, cc[root].ctype, counter);
    AliasInRegistryEffect(ccProps, componentId, customName, targeted, cc[root].ctype, counter);
    if FindProp(PropsOf(a.0, root), customName).None? {
      var pp := PushToInstances(pageProps, tree, pageOrder, root, customName, a.1, a.2);
      PushKeepsFound(a.0, cc, ccOrder, root, customName, a.1, pp.1, componentId, targeted);
      PushToInstancesProvides(a.0, cc, ccOrder, root, customName, a.1, pp.1, root);
    }
  }

  /**
   * When the template root had no prop `customName`, every instance of the
   * template, in the page and in the registry, has one afterwards and the
   * other components keep their props; when it had one, no instance gets
   * anything.
   */
  lemma ExposeInTemplatePropagates(
    tree: Tree, pageProps: PropTable, cc: Tree, ccProps: PropTable,
    componentId: string, root: string, customName: string, targeted: string,
    pageOrder: seq<string>, ccOrder: seq<string>, counter: nat, c: string)
    requires root in cc
    requires NoDup(pageOrder) && forall k :: k in tree ==> tree[k].id == k
    requires NoDup(ccOrder) && forall k :: k in cc ==> cc[k].id == k
    ensures var a := AliasInRegistry(ccProps, componentId, customName, targeted, cc[root].ctype, counter);
      var e := ExposeInTemplate(tree, pageProps, cc, ccProps, componentId, root, customName, targeted, pageOrder, ccOrder, counter);
      && (FindProp(PropsOf(a.0, root), customName).None? ==>
            && (if c in pageOrder && c in tree && tree[c].ctype == root
                then FindProp(PropsOf(e.pageProps, c), customName).Some?
                else PropsOf(e.pageProps, c) == PropsOf(pageProps, c))
            && (if c in ccOrder && c in cc && cc[c].ctype == root
                then FindProp(PropsOf(e.customProps, c), customName).Some?
                else PropsOf(e.customProps, c) == PropsOf(a.0, c)))
      && (FindProp(PropsOf(a.0, root), customName).Some? ==> e.pageProps == pageProps && e.customProps == a.0)
  {
    var a := AliasInRegistry(ccProps, componentId, customName, targeted, cc[root].ctype, counter);
    if FindProp(PropsOf(a.0, root), customName).None? {
      var pp := PushToInstances(pageProps, tree, pageOrder, root, customName, a.1, a.2);
      PushReaches(pageProps, tree, pageOrder, root, customName, a.1, a.2, c);
      PushReaches(a.0, cc, ccOrder, root, customName, a.1, pp.1, c);
    }
  }

  /** A push gives each visited instance a prop of the name and leaves every other component's props alone. */
  lemma PushReaches(t: PropTable, nodes: Tree, order: seq<string>, ty: string, name: string, value: Value, counter: nat, c: string)
    requires NoDup(order) && forall k :: k in nodes ==> nodes[k].id == k
    ensures var r := PushToInstances(t, nodes, order, ty, name, value, counter).0;
      if c in order && c in nodes && nodes[c].ctype == ty
      then FindProp(PropsOf(r, c), name).Some?
      else PropsOf(r, c) == PropsOf(t, c)
  {
    if c in order && c in nodes && nodes[c].ctype == ty {
      PushToInstancesProvides(t, nodes, order, ty, name, value, counter, c);
    } else {
      PushToInstancesEffect(t, nodes, order, ty, name, value, counter, c);
    }
  }

  /** The table with no props, onto which pushes show what they append. */
  const NoProps: PropTable := map[]

  /**
   * What a push appends to a list does not depend on the table: each list
   * is extended by exactly what the same push appends onto an empty table,
   * and the generator ends at the same counter.
   */
  lemma {:induction false} PushToInstancesSplit(t: PropTable, nodes: Tree, order: seq<string>, ty: string, name: string, value: Value, counter: nat, k: string)
    ensures PushToInstances(t, nodes, order, ty, name, value, counter).1 == PushToInstances(NoProps, nodes, order, ty, name, value, counter).1
    ensures PropsOf(PushToInstances(t, nodes, order, ty, name, value, counter).0, k)
      == PropsOf(t, k) + PropsOf(PushToInstances(NoProps, nodes, order, ty, name, value, counter).0, k)
    decreases |order|
  {
    if |order| == 0 {
      assert PropsOf(t, k) + PropsOf(NoProps, k) == PropsOf(t, k);
    } else {
      PushToInstancesSplit(t, nodes, order[..|order| - 1], ty, name, value, counter, k);
    }
  }

  /** Onto an empty table, a push gives each visited instance one plain prop `name` and nothing to anyone else. */
  lemma PushedOntoNothing(nodes: Tree, order: seq<string>, ty: string, name: string, value: Value, counter: nat, k: string)
    requires NoDup(order) && forall x :: x in nodes ==> nodes[x].id == x
    ensures var l := PropsOf(PushToInstances(NoProps, nodes, order, ty, name, value, counter).0, k);
      if k in order && k in nodes && nodes[k].ctype == ty
      then |l| == 1 && l[0].name == name && l[0].derivedFromPropName.None? && l[0].derivedFromComponentType.None?
      else l == []
  {
    PushToInstancesEffect(NoProps, nodes, order, ty, name, value, counter, k);
  }

  /** Removing the first prop of a name from a list that gained one at its end gives the list back. */
  lemma RemoveLastNamed(l: seq<Prop>, q: Prop)
    requires FindProp(l, q.name).None?
    ensures RemoveFirstNamed(l + [q], q.name) == l
  {
    FindPropConcat(l, [q], q.name);
    assert FindProp([q], q.name) == Some(0);
    assert (l + [q])[..|l|] == l;
  }

  /** A list extended by what a push onto an empty table appends loses it again when the name is removed from instances. */
  lemma PushedThenRemoved(orig: seq<Prop>, added: seq<Prop>, instance: bool, name: string)
    requires instance ==> |added| == 1 && added[0].name == name && FindProp(orig, name).None?
    requires !instance ==> added == []
    ensures (if instance then RemoveFirstNamed(orig + added, name) else orig + added) == orig
  {
    if instance {
      assert added == [added[0]];
      RemoveLastNamed(orig, added[0]);
    } else {
      assert orig + added == orig;
    }
  }

  /**
   * Once the push is done, putting the targeted prop back as it was leaves
   * every registry list as its old one followed by what the push appended.
   */
  lemma ReAliasedLists(ccProps: PropTable, a0: PropTable, pushed: PropTable, added: PropTable, componentId: string, l: seq<Prop>, i: nat, q: Prop)
    requires i < |l| && PropsOf(ccProps, componentId) == l[i := q]
    requires a0 == ccProps[componentId := l]
    requires forall k :: PropsOf(pushed, k) == PropsOf(a0, k) + PropsOf(added, k)
    requires PropsOf(pushed, componentId) == l + PropsOf(added, componentId)
    ensures forall k :: PropsOf(pushed[componentId := PropsOf(pushed, componentId)[i := q]], k) == PropsOf(ccProps, k) + PropsOf(added, k)
  {
    forall k ensures PropsOf(pushed[componentId := PropsOf(pushed, componentId)[i := q]], k) == PropsOf(ccProps, k) + PropsOf(added, k) {
      if k == componentId {
        assert PropsOf(pushed, k) == l + PropsOf(added, k);
        assert (l + PropsOf(added, k))[i := q] == l[i := q] + PropsOf(added, k);
      }
    }
  }

  /** No list of the table holds a prop with a component-type alias. */
  predicate PlainLists(t: PropTable) {
    forall k, j :: k in t && 0 <= j < |t[k]| ==> t[k][j].derivedFromComponentType.None?
  }

  /** A push onto a table of plain lists keeps them plain. */
  lemma {:induction false} PushedPlain(t: PropTable, nodes: Tree, order: seq<string>, ty: string, name: string, value: Value, counter: nat)
    requires PlainLists(t)
    ensures PlainLists(PushToInstances(t, nodes, order, ty, name, value, counter).0)
    decreases |order|
  {
    if |order| > 0 {
      var n := |order| - 1;
      PushedPlain(t, nodes, order[..n], ty, name, value, counter);
      var prev := PushToInstances(t, nodes, order[..n], ty, name, value, counter);
      var last := order[n];
      if last in nodes && nodes[last].ctype == ty {
        var cid := nodes[last].id;
        var l := PropsOf(prev.0, cid) + [PlainProp(IdOf(prev.1), name, value)];
        assert forall j :: 0 <= j < |l| ==> l[j].derivedFromComponentType.None? by {
          forall j | 0 <= j < |l| ensures l[j].derivedFromComponentType.None? {
            if j < |PropsOf(prev.0, cid)| { assert l[j] == prev.0[cid][j]; }
          }
        }
      }
    }
  }

  /** Extending each list by props without aliases does not create a use of an alias. */
  lemma ExtendedNoAlias(t: PropTable, t2: PropTable, added: PropTable, ty: string, name: string)
    requires PlainLists(added)
    requires forall k :: PropsOf(t2, k) == PropsOf(t, k) + PropsOf(added, k)
    requires !AliasUsed(t, Some(ty), Some(name))
    ensures !AliasUsed(t2, Some(ty), Some(name))
  {
    forall k: string, j: int | k in t2 && 0 <= j < |t2[k]|
      ensures t2[k][j].derivedFromComponentType != Some(ty) || t2[k][j].derivedFromPropName != Some(name)
    {
      var l := PropsOf(t, k);
      assert t2[k] == l + PropsOf(added, k);
      if j < |l| {
        assert k in t && t2[k][j] == t[k][j];
      } else {
        assert k in added && t2[k][j] == added[k][j - |l|];
      }
    }
  }

  /** Aliasing a prop that exists rewrites it in place, uses no id, and changes no name search. */
  lemma AliasFound(ccProps: PropTable, componentId: string, customName: string, targeted: string, rootType: string, counter: nat)
    requires FindProp(PropsOf(ccProps, componentId), targeted).Some?
    ensures var ps := PropsOf(ccProps, componentId);
      var i := FindProp(ps, targeted).value;
      var a := AliasInRegistry(ccProps, componentId, customName, targeted, rootType, counter);
      && a == (ccProps[componentId := ps[i := ps[i].(derivedFromComponentType := Some(rootType), derivedFromPropName := Some(customName))]], ps[i].value, counter)
      && forall c, n :: FindProp(PropsOf(a.0, c), n) == FindProp(PropsOf(ccProps, c), n)
  {
    var ps := PropsOf(ccProps, componentId);
    var i := FindProp(ps, targeted).value;
    var l := ps[i := ps[i].(derivedFromComponentType := Some(rootType), derivedFromPropName := Some(customName))];
    forall n ensures FindProp(l, n) == FindProp(ps, n) {
      FindPropSameNames(l, ps, n);
    }
  }

  /**
   * Inside a template, unexposing right after exposing gives every
   * component, in the page and in the registry, its props back, when the
   * targeted prop existed unaliased, no registry prop used the alias yet,
   * no instance of the template had a prop of the custom name, and the
   * custom name differs from the targeted prop's.
   */
  lemma ExposeThenUnexposeInTemplate(
    tree: Tree, pageProps: PropTable, cc: Tree, ccProps: PropTable,
    componentId: string, root: string, customName: string, targeted: string,
    pageOrder: seq<string>, ccOrder: seq<string>, counter: nat, c: string)
    requires root in cc && cc[root].ctype == root
    requires NoDup(pageOrder) && forall k :: k in tree ==> tree[k].id == k
    requires NoDup(ccOrder) && forall k :: k in cc ==> cc[k].id == k
    requires customName != targeted
    requires FindProp(PropsOf(ccProps, componentId), targeted).Some?
    requires PropsOf(ccProps, componentId)[FindProp(PropsOf(ccProps, componentId), targeted).value].derivedFromPropName.None?
    requires PropsOf(ccProps, componentId)[FindProp(PropsOf(ccProps, componentId), targeted).value].derivedFromComponentType.None?
    requires !AliasUsed(ccProps, Some(root), Some(customName))
    requires forall k :: k in tree && tree[k].ctype == root ==> FindProp(PropsOf(pageProps, k), customName).None?
    requires forall k :: k in cc && cc[k].ctype == root ==> FindProp(PropsOf(ccProps, k), customName).None?
    ensures var e := ExposeInTemplate(tree, pageProps, cc, ccProps, componentId, root, customName, targeted, pageOrder, ccOrder, counter);
      && FindProp(PropsOf(e.customProps, componentId), targeted).Some?
      && PropsOf(UnexposeInTemplate(tree, e.pageProps, cc, e.customProps, componentId, targeted, pageOrder, ccOrder).0, c) == PropsOf(pageProps, c)
      && PropsOf(UnexposeInTemplate(tree, e.pageProps, cc, e.customProps, componentId, targeted, pageOrder, ccOrder).1, c) == PropsOf(ccProps, c)
  {
    var ps := PropsOf(ccProps, componentId);
    var i := FindProp(ps, targeted).value;
    var al := ps[i].(derivedFromComponentType := Some(root), derivedFromPropName := Some(customName));
    var a := AliasInRegistry(ccProps, componentId, customName, targeted, root, counter);
    AliasFound(ccProps, componentId, customName, targeted, root, counter);
    var pp := PushToInstances(pageProps, tree, pageOrder, root, customName, a.1, a.2);
    var cp := PushToInstances(a.0, cc, ccOrder, root, customName, a.1, pp.1);
    var e := ExposeInTemplate(tree, pageProps, cc, ccProps, componentId, root, customName, targeted, pageOrder, ccOrder, counter);
    assert e == Exposed(pp.0, cp.0, cp.1);
    PushKeepsFound(a.0, cc, ccOrder, root, customName, a.1, pp.1, componentId, targeted);
    var ps2 := PropsOf(cp.0, componentId);
    assert FindProp(ps2, targeted) == Some(i) && ps2[i] == al;
    assert al.(derivedFromPropName := None, derivedFromComponentType := None) == ps[i];
    var cp1 := cp.0[componentId := ps2[i := ps[i]]];
    var added := PushToInstances(NoProps, cc, ccOrder, root, customName, a.1, pp.1).0;
    forall k ensures PropsOf(cp.0, k) == PropsOf(a.0, k) + PropsOf(added, k) {
      PushToInstancesSplit(a.0, cc, ccOrder, root, customName, a.1, pp.1, k);
    }
    assert ps[i := al][i := ps[i]] == ps;
    assert PropsOf(cp.0, componentId) == ps[i := al] + PropsOf(added, componentId);
    ReAliasedLists(ccProps, a.0, cp.0, added, componentId, ps[i := al], i, ps[i]);
    PushedPlain(NoProps, cc, ccOrder, root, customName, a.1, pp.1);
    ExtendedNoAlias(ccProps, cp1, added, root, customName);
    var r := UnexposeInTemplate(tree, e.pageProps, cc, e.customProps, componentId, targeted, pageOrder, ccOrder);
    assert r == (RemoveFromInstances(pp.0, tree, pageOrder, root, customName), RemoveFromInstances(cp1, cc, ccOrder, root, customName));
    forall k ensures PropsOf(pp.0, k) == PropsOf(pageProps, k) + PropsOf(PushToInstances(NoProps, tree, pageOrder, root, customName, a.1, a.2).0, k) {
      PushToInstancesSplit(pageProps, tree, pageOrder, root, customName, a.1, a.2, k);
    }
    RemoveAfterPush(pageProps, pp.0, tree, pageOrder, root, customName, a.1, a.2, c);
    RemoveAfterPush(ccProps, cp1, cc, ccOrder, root, customName, a.1, pp.1, c);
  }

  /**
   * A table whose lists are those of `t` followed by what a push of `name`
   * appends gets `t`'s lists back when `name` is removed from the same
   * instances, provided no instance held a prop `name` before.
   */
  lemma RemoveAfterPush(t: PropTable, t2: PropTable, nodes: Tree, order: seq<string>, ty: string, name: string, value: Value, counter: nat, c: string)
    requires NoDup(order) && forall x :: x in nodes ==> nodes[x].id == x
    requires forall k :: PropsOf(t2, k) == PropsOf(t, k) + PropsOf(PushToInstances(NoProps, nodes, order, ty, name, value, counter).0, k)
    requires c in nodes && nodes[c].ctype == ty ==> FindProp(PropsOf(t, c), name).None?
    ensures PropsOf(RemoveFromInstances(t2, nodes, order, ty, name), c) == PropsOf(t, c)
  {
    PushedOntoNothing(nodes, order, ty, name, value, counter, c);
    RemoveFromInstancesEffect(t2, nodes, order, ty, name, c);
    PushedThenRemoved(PropsOf(t, c), PropsOf(PushToInstances(NoProps, nodes, order, ty, name, value, counter).0, c),
                      c in order && c in nodes && nodes[c].ctype == ty, name);
  }

  /** Pushing to instances leaves every earlier prop where it was, so a prop found before is still the one found. */
  lemma PushKeepsFound(t: PropTable, nodes: Tree, order: seq<string>, ty: string, name: string, value: Value, counter: nat, c: string, n: string)
    requires FindProp(PropsOf(t, c), n).Some?
    ensures var l := PropsOf(PushToInstances(t, nodes, order, ty, name, value, counter).0, c);
      var i := FindProp(PropsOf(t, c), n).value;
      FindProp(l, n) == Some(i) && i < |l| && l[i] == PropsOf(t, c)[i]
  {
    PushToInstancesExtends(t, nodes, order, ty, name, value, counter, c);
    var l1 := PropsOf(t, c);
    var l := PropsOf(PushToInstances(t, nodes, order, ty, name, value, counter).0, c);
    assert l == l1 + l[|l1|..];
    FindPropConcat(l1, l[|l1|..], n);
  }

  /**
   * A second identical `exposeProp` inside a template changes nothing and
   * adds no instance props.
   */
  lemma ExposeInTemplateIdempotent(
    tree: Tree, pageProps: PropTable, cc: Tree, ccProps: PropTable,
    componentId: string, root: string, customName: string, targeted: string,
    pageOrder: seq<string>, ccOrder: seq<string>, counter: nat)
    requires root in cc && cc[root].id == root && cc[root].ctype == root && root in ccOrder
    ensures var e := ExposeInTemplate(tree, pageProps, cc, ccProps, componentId, root, customName, targeted, pageOrder, ccOrder, counter);
      ExposeInTemplate(tree, e.pageProps, cc, e.customProps, componentId, root, customName, targeted, pageOrder, ccOrder, e.counter) == e
  {
    var e := ExposeInTemplate(tree, pageProps, cc, ccProps, componentId, root, customName, targeted, pageOrder, ccOrder, counter);
    ExposeInTemplateAliases(tree, pageProps, cc, ccProps, componentId, root, customName, targeted, pageOrder, ccOrder, counter);
    AliasInRegistryFoundNoop(e.customProps, componentId, customName, targeted, cc[root].ctype, e.counter);
  }

  /** Aliasing a prop that is already aliased as wanted returns the same props and uses no id. */
  lemma AliasInRegistryFoundNoop(ccProps: PropTable, componentId: string, customName: string, targeted: string, rootType: string, counter: nat)
    requires FindProp(PropsOf(ccProps, componentId), targeted).Some?
    requires PropsOf(ccProps, componentId)[FindProp(PropsOf(ccProps, componentId), targeted).value].derivedFromPropName == Some(customName)
    requires PropsOf(ccProps, componentId)[FindProp(PropsOf(ccProps, componentId), targeted).value].derivedFromComponentType == Some(rootType)
    ensures AliasInRegistry(ccProps, componentId, customName, targeted, rootType, counter).0 == ccProps
    ensures AliasInRegistry(ccProps, componentId, customName, targeted, rootType, counter).2 == counter
  {
    var l := PropsOf(ccProps, componentId);
    var i := FindProp(l, targeted).value;
    assert l[i := l[i].(derivedFromComponentType := Some(rootType), derivedFromPropName := Some(customName))] == l;
    assert ccProps[componentId := l] == ccProps;
  }

  /**
   * `exposeProp` on a plain page node: only the targeted prop's
   * `derivedFromPropName` is set, or one prop is appended with that alias
   * and a null `derivedFromComponentType`. Nothing is propagated.
   */
  function ExposeOnPage(pageProps: PropTable, componentId: string, customName: string, targeted: string, newPropId: string): PropTable {
    var ps := PropsOf(pageProps, componentId);
    match FindProp(ps, targeted)
    case Some(i) => pageProps[componentId := ps[i := ps[i].(derivedFromPropName := Some(customName))]]
    case None => pageProps[componentId := ps + [Prop(newPropId, targeted, Str(""), Some(customName), None)]]
  }

  /** `unexpose` on a plain page node: the targeted prop's `derivedFromPropName` is cleared. */
  function UnexposeOnPage(pageProps: PropTable, componentId: string, targeted: string): PropTable
    requires FindProp(PropsOf(pageProps, componentId), targeted).Some?
  {
    var ps := PropsOf(pageProps, componentId);
    var i := FindProp(ps, targeted).value;
    pageProps[componentId := ps[i := ps[i].(derivedFromPropName := None)]]
  }

  /**
   * On a page node, unexposing right after exposing restores the props when
   * the targeted prop existed unaliased.
   */
  lemma ExposeThenUnexposeRestores(pageProps: PropTable, componentId: string, customName: string, targeted: string, newPropId: string)
    requires componentId in pageProps
    requires FindProp(PropsOf(pageProps, componentId), targeted).Some?
    requires PropsOf(pageProps, componentId)[FindProp(PropsOf(pageProps, componentId), targeted).value].derivedFromPropName.None?
    ensures FindProp(PropsOf(ExposeOnPage(pageProps, componentId, customName, targeted, newPropId), componentId), targeted).Some?
    ensures UnexposeOnPage(ExposeOnPage(pageProps, componentId, customName, targeted, newPropId), componentId, targeted) == pageProps
  {
    var ps := PropsOf(pageProps, componentId);
    var i := FindProp(ps, targeted).value;
    var e := ExposeOnPage(pageProps, componentId, customName, targeted, newPropId);
    var l := PropsOf(e, componentId);
    FindPropSameNames(l, ps, targeted);
    assert l[i := l[i].(derivedFromPropName := None)] == ps;
    assert pageProps[componentId := ps] == pageProps;
  }

  /**
   * When exposing on a page node had to add the targeted prop, unexposing
   * leaves that prop behind with its alias cleared and an empty value.
   */
  lemma ExposeThenUnexposeLeavesAdded(pageProps: PropTable, componentId: string, customName: string, targeted: string, newPropId: string)
    requires FindProp(PropsOf(pageProps, componentId), targeted).None?
    ensures FindProp(PropsOf(ExposeOnPage(pageProps, componentId, customName, targeted, newPropId), componentId), targeted).Some?
    ensures UnexposeOnPage(ExposeOnPage(pageProps, componentId, customName, targeted, newPropId), componentId, targeted)
      == pageProps[componentId := PropsOf(pageProps, componentId) + [Prop(newPropId, targeted, Str(""), None, None)]]
  {
    var ps := PropsOf(pageProps, componentId);
    var q := Prop(newPropId, targeted, Str(""), Some(customName), None);
    var l := ps + [q];
    assert ExposeOnPage(pageProps, componentId, customName, targeted, newPropId) == pageProps[componentId := l];
    assert PropsOf(pageProps[componentId := l], componentId) == l;
    assert FindProp(l, targeted) == Some(|ps|);
    UpdateLast(ps, q, q.(derivedFromPropName := None));
  }

  lemma UpdateLast<T>(a: seq<T>, x: T, y: T)
    ensures (a + [x])[|a| := y] == a + [y]
  {
  }

  // -------------------------------------------------------------------- unexpose

  /** Some prop anywhere in `t` is aliased as (ct, dn): the `checkExposedPropInstance` search. */
  predicate AliasUsed(t: PropTable, ct: Option<string>, dn: Option<string>) {
    exists k, j :: k in t && 0 <= j < |t[k]| && t[k][j].derivedFromComponentType == ct && t[k][j].derivedFromPropName == dn
  }

  /**
   * `unexpose` on a node inside a template: the targeted prop's aliases are
   * cleared; if no prop of the registry still uses that (type, name) alias,
   * every instance of the type, in the page and in the registry, loses its
   * prop of the custom name. Returns (page props, registry props).
   */
  function UnexposeInTemplate(
    tree: Tree, pageProps: PropTable, cc: Tree, ccProps: PropTable,
    componentId: string, targeted: string, pageOrder: seq<string>, ccOrder: seq<string>): (PropTable, PropTable)
    requires FindProp(PropsOf(ccProps, componentId), targeted).Some?
  {
    var ps := PropsOf(ccProps, componentId);
    var i := FindProp(ps, targeted).value;
    var dn := ps[i].derivedFromPropName;
    var ct := ps[i].derivedFromComponentType;
    var cp1 := ccProps[componentId := ps[i := ps[i].(derivedFromPropName := None, derivedFromComponentType := None)]];
    if !AliasUsed(cp1, ct, dn) && ct.Some? && dn.Some? then
      (RemoveFromInstances(pageProps, tree, pageOrder, ct.value, dn.value),
       RemoveFromInstances(cp1, cc, ccOrder, ct.value, dn.value))
    else (pageProps, cp1)
  }

  /**
   * Unexposing inside a template clears the targeted prop's aliases. When
   * another registry prop still uses the alias, nothing else changes. When
   * none does, each instance of the type, in the page and in the registry,
   * loses its first prop of the custom name, non-instances keep theirs, and
   * no registry prop is left aliased as (type, name). In both cases the
   * un-aliased prop stays in its component's list, unless it is itself
   * named after the alias and so is one the removal may take.
   */
  lemma UnexposeInTemplateEffect(
    tree: Tree, pageProps: PropTable, cc: Tree, ccProps: PropTable,
    componentId: string, targeted: string, pageOrder: seq<string>, ccOrder: seq<string>, c: string)
    requires FindProp(PropsOf(ccProps, componentId), targeted).Some?
    requires NoDup(pageOrder) && forall k :: k in tree ==> tree[k].id == k
    requires NoDup(ccOrder) && forall k :: k in cc ==> cc[k].id == k
    ensures var ps := PropsOf(ccProps, componentId);
      var p := ps[FindProp(ps, targeted).value];
      var r := UnexposeInTemplate(tree, pageProps, cc, ccProps, componentId, targeted, pageOrder, ccOrder);
      var cp1 := ccProps[componentId := ps[FindProp(ps, targeted).value := p.(derivedFromPropName := None, derivedFromComponentType := None)]];
      && (AliasUsed(cp1, p.derivedFromComponentType, p.derivedFromPropName) ==> r == (pageProps, cp1))
      && (!AliasUsed(cp1, p.derivedFromComponentType, p.derivedFromPropName) && p.derivedFromComponentType.Some? && p.derivedFromPropName.Some? ==>
            && (if c in pageOrder && c in tree && tree[c].ctype == p.derivedFromComponentType.value
                then PropsOf(r.0, c) == RemoveFirstNamed(PropsOf(pageProps, c), p.derivedFromPropName.value)
                else PropsOf(r.0, c) == PropsOf(pageProps, c))
            && (if c in ccOrder && c in cc && cc[c].ctype == p.derivedFromComponentType.value
                then PropsOf(r.1, c) == RemoveFirstNamed(PropsOf(cp1, c), p.derivedFromPropName.value)
                else PropsOf(r.1, c) == PropsOf(cp1, c))
            && !AliasUsed(r.1, p.derivedFromComponentType, p.derivedFromPropName))
      && (p.derivedFromPropName != Some(targeted) ==>
            p.(derivedFromPropName := None, derivedFromComponentType := None) in PropsOf(r.1, componentId))
  {
    var ps := PropsOf(ccProps, componentId);
    var i := FindProp(ps, targeted).value;
    var p := ps[i];
    var q := p.(derivedFromPropName := None, derivedFromComponentType := None);
    var cp1 := ccProps[componentId := ps[i := q]];
    var r := UnexposeInTemplate(tree, pageProps, cc, ccProps, componentId, targeted, pageOrder, ccOrder);
    assert PropsOf(cp1, componentId)[i] == q;
    if !AliasUsed(cp1, p.derivedFromComponentType, p.derivedFromPropName) && p.derivedFromComponentType.Some? && p.derivedFromPropName.Some? {
      var ct := p.derivedFromComponentType.value;
      var dn := p.derivedFromPropName.value;
      RemoveFromInstancesEffect(pageProps, tree, pageOrder, ct, dn, c);
      RemoveFromInstancesEffect(cp1, cc, ccOrder, ct, dn, c);
      RemoveFromInstancesNoAlias(cp1, cc, ccOrder, ct, dn, p.derivedFromComponentType, p.derivedFromPropName);
      RemoveFromInstancesEffect(cp1, cc, ccOrder, ct, dn, componentId);
      if p.derivedFromPropName != Some(targeted) {
        RemoveFirstNamedKeeps(PropsOf(cp1, componentId), dn);
      }
    }
  }

  /** Removing props from instances never adds an alias: one absent before stays absent. */
  lemma RemoveFromInstancesNoAlias(t: PropTable, nodes: Tree, order: seq<string>, ty: string, name: string, ct: Option<string>, dn: Option<string>)
    requires NoDup(order) && forall k :: k in nodes ==> nodes[k].id == k
    requires !AliasUsed(t, ct, dn)
    ensures !AliasUsed(RemoveFromInstances(t, nodes, order, ty, name), ct, dn)
  {
    var r: PropTable := RemoveFromInstances(t, nodes, order, ty, name);
    forall k: string, j: int | k in r && 0 <= j < |r[k]|
      ensures !(r[k][j].derivedFromComponentType == ct && r[k][j].derivedFromPropName == dn)
    {
      RemoveFromInstancesEffect(t, nodes, order, ty, name, k);
      RemoveFirstNamedSub(PropsOf(t, k), name);
      assert r[k][j] in PropsOf(t, k);
      var j' :| 0 <= j' < |PropsOf(t, k)| && PropsOf(t, k)[j'] == r[k][j];
    }
  }

  // ------------------------------------------------------------ deleteCustomProp

  /** Clears the aliases of every prop of the list aliased as (ty, name). */
  function ClearAliasesIn(ps: seq<Prop>, ty: string, name: string): (r: seq<Prop>)
    ensures |r| == |ps|
    ensures forall j :: 0 <= j < |r| ==> r[j].name == ps[j].name && r[j].value == ps[j].value && r[j].id == ps[j].id
    ensures forall j :: 0 <= j < |r| ==>
      if ps[j].derivedFromComponentType == Some(ty) && ps[j].derivedFromPropName == Some(name)
      then r[j].derivedFromPropName.None? && r[j].derivedFromComponentType.None?
      else r[j] == ps[j]
  {
    if |ps| == 0 then []
    else ClearAliasesIn(ps[..|ps| - 1], ty, name) + [ClearAlias(ps[|ps| - 1], ty, name)]
  }

  /** One prop of the pass: both alias fields nulled when it is aliased as (ty, name). */
  function ClearAlias(q: Prop, ty: string, name: string): Prop {
    if q.derivedFromComponentType == Some(ty) && q.derivedFromPropName == Some(name)
    then q.(derivedFromPropName := None, derivedFromComponentType := None) else q
  }

  /** The final `forEach` of `deleteCustomProp`: every prop aliased to the deleted one is un-aliased. */
  function ClearAliases(t: PropTable, ty: string, name: string): (r: PropTable)
    ensures r.Keys == t.Keys
    ensures forall k :: k in t ==> r[k] == ClearAliasesIn(t[k], ty, name)
  {
    map k | k in t :: ClearAliasesIn(t[k], ty, name)
  }

  /**
   * `deleteCustomProp(propName)` for the selected node's type `ty`: the prop
   * is removed from every node of that type in the page and in the
   * registry, then registry aliases of (ty, propName) are cleared.
   * Returns (page props, registry props).
   */
  function DeleteCustomPropSpec(
    tree: Tree, pageProps: PropTable, cc: Tree, ccProps: PropTable,
    ty: string, propName: string, pageOrder: seq<string>, ccOrder: seq<string>): (PropTable, PropTable)
  {
    (RemoveFromInstances(pageProps, tree, pageOrder, ty, propName),
     ClearAliases(RemoveFromInstances(ccProps, cc, ccOrder, ty, propName), ty, propName))
  }

  /**
   * After `deleteCustomProp` no registry prop is aliased to (ty, propName);
   * every node of type `ty`, in the page and in the registry, with at most
   * one prop per name no longer has a prop `propName`; the other page nodes
   * keep their props and the other registry nodes keep theirs up to the
   * cleared aliases.
   */
  lemma DeleteCustomPropEffect(
    tree: Tree, pageProps: PropTable, cc: Tree, ccProps: PropTable,
    ty: string, propName: string, pageOrder: seq<string>, ccOrder: seq<string>, c: string)
    requires forall k :: k in tree ==> tree[k].id == k
    requires Enumerates(pageOrder, tree.Keys)
    requires forall k :: k in cc ==> cc[k].id == k
    requires Enumerates(ccOrder, cc.Keys)
    ensures var r := DeleteCustomPropSpec(tree, pageProps, cc, ccProps, ty, propName, pageOrder, ccOrder);
      && !AliasUsed(r.1, Some(ty), Some(propName))
      && (c in tree && tree[c].ctype == ty && UniqueNames(PropsOf(pageProps, c)) ==>
            forall p :: p in PropsOf(r.0, c) ==> p.name != propName)
      && (c !in tree || tree[c].ctype != ty ==> PropsOf(r.0, c) == PropsOf(pageProps, c))
      && (c in cc && cc[c].ctype == ty && UniqueNames(PropsOf(ccProps, c)) ==>
            forall p :: p in PropsOf(r.1, c) ==> p.name != propName)
      && (c !in cc || cc[c].ctype != ty ==> PropsOf(r.1, c) == ClearAliasesIn(PropsOf(ccProps, c), ty, propName))
  {
    var r := DeleteCustomPropSpec(tree, pageProps, cc, ccProps, ty, propName, pageOrder, ccOrder);
    RemoveFromInstancesEffect(pageProps, tree, pageOrder, ty, propName, c);
    if c in tree && tree[c].ctype == ty && UniqueNames(PropsOf(pageProps, c)) {
      RemoveFirstNamedUnique(PropsOf(pageProps, c), propName);
    }
    DeleteCustomPropRegistry(cc, ccProps, ty, propName, ccOrder, c);
  }

  /** The registry half of `deleteCustomProp`'s effect on one component `c`. */
  lemma DeleteCustomPropRegistry(cc: Tree, ccProps: PropTable, ty: string, propName: string, ccOrder: seq<string>, c: string)
    requires forall k :: k in cc ==> cc[k].id == k
    requires Enumerates(ccOrder, cc.Keys)
    ensures var r := ClearAliases(RemoveFromInstances(ccProps, cc, ccOrder, ty, propName), ty, propName);
      && (c in cc && cc[c].ctype == ty && UniqueNames(PropsOf(ccProps, c)) ==>
            forall p :: p in PropsOf(r, c) ==> p.name != propName)
      && (c !in cc || cc[c].ctype != ty ==> PropsOf(r, c) == ClearAliasesIn(PropsOf(ccProps, c), ty, propName))
  {
    var removed := RemoveFromInstances(ccProps, cc, ccOrder, ty, propName);
    var r := ClearAliases(removed, ty, propName);
    RemoveFromInstancesEffect(ccProps, cc, ccOrder, ty, propName, c);
    assert PropsOf(r, c) == ClearAliasesIn(PropsOf(removed, c), ty, propName);
    if c in cc && cc[c].ctype == ty && UniqueNames(PropsOf(ccProps, c)) {
      RemoveFirstNamedUnique(PropsOf(ccProps, c), propName);
      forall p | p in PropsOf(r, c) ensures p.name != propName {
        var j :| 0 <= j < |PropsOf(r, c)| && PropsOf(r, c)[j] == p;
        assert PropsOf(removed, c)[j] in PropsOf(removed, c);
      }
    }
  }

  // -------------------------------------------------------------- duplicateProps

  /** `duplicateProps(props, componentId)`: a copy of each prop under the next generated ids. */
  function DuplicateProps(ps: seq<Prop>, counter: nat): (r: seq<Prop>)
    ensures |r| == |ps|
  {
    seq(|ps|, i requires 0 <= i < |ps| => ps[i].(id := IdOf(counter + i)))
  }

  /** A duplicated prop agrees with its original in everything but its id. */
  lemma DuplicatePropsCopies(ps: seq<Prop>, counter: nat)
    ensures forall i :: 0 <= i < |ps| ==>
      DuplicateProps(ps, counter)[i] == ps[i].(id := IdOf(counter + i))
    ensures forall name :: FindProp(DuplicateProps(ps, counter), name) == FindProp(ps, name)
  {
    forall name ensures FindProp(DuplicateProps(ps, counter), name) == FindProp(ps, name) {
      FindPropSameNames(DuplicateProps(ps, counter), ps, name);
    }
  }
}
