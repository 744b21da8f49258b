/**
 * The tree-walking helpers the reducers call (`deleteComp`, `moveComp`,
 * `duplicateComponent`, `mergeProps`), whose source is not part of this
 * model. `deleteComp`, `moveComp`, the five-argument `moveComponent` and
 * `mergeProps` are defined here as the functions their call sites rely on
 * (what the unseen code is taken to compute, not a proof about it); what
 * `duplicateComponent` returns is a parameter, described by the predicate
 * `DuplicateContract`. The subtree a helper walks is passed in as a set
 * satisfying `Store.SubtreeOf`.
 */
module Recursive {
  import opened Store

  /** The part of `t` whose ids are in `sub`. */
  function RestrictTree(t: Tree, sub: set<string>): (r: Tree)
    ensures r.Keys == t.Keys * sub
    ensures forall k :: k in r ==> r[k] == t[k]
  {
    map k | k in t && k in sub :: t[k]
  }

  /** The props of the components in `sub`. */
  function RestrictProps(t: PropTable, sub: set<string>): (r: PropTable)
    ensures r.Keys == t.Keys * sub
    ensures forall k :: k in r ==> r[k] == t[k]
  {
    map k | k in t && k in sub :: t[k]
  }

  /**
   * Appending one flat prop list to another (`[...a, ...b]`), seen per
   * component: each component's props of `a`, then its props of `b`.
   */
  function AppendTables(a: PropTable, b: PropTable): (r: PropTable)
    ensures r.Keys == a.Keys + b.Keys
    ensures forall k :: PropsOf(r, k) == PropsOf(a, k) + PropsOf(b, k)
  {
    map k | k in a.Keys + b.Keys :: PropsOf(a, k) + PropsOf(b, k)
  }

  /**
   * `mergeProps(target, source)`: defined to copy the entries of `source`
   * over those of `target` (both `byId` and `byComponentId`); it removes
   * nothing from `target`.
   */
  function MergeProps(target: PropTable, source: PropTable): (r: PropTable)
    ensures r.Keys == target.Keys + source.Keys
    ensures forall k :: k in source ==> r[k] == source[k]
    ensures forall k :: k in target && k !in source ==> r[k] == target[k]
  {
    target + source
  }

  /** What `deleteComp(components[id], components, props)` returns. */
  datatype Deleted = Deleted(updatedComponents: Tree, updatedProps: PropTable)

  /** The subtree `sub` and the props its components own are dropped. */
  function DeleteComp(components: Tree, props: PropTable, sub: set<string>): (r: Deleted)
    ensures r.updatedComponents.Keys == components.Keys - sub
    ensures forall k :: k in r.updatedComponents ==> r.updatedComponents[k] == components[k]
    ensures forall k :: k !in sub ==> PropsOf(r.updatedProps, k) == PropsOf(props, k)
    ensures forall k :: k in sub ==> PropsOf(r.updatedProps, k) == []
  {
    Deleted(components - sub, props - sub)
  }

  /** What the five-argument `moveComponent` of utils/recursive returns (used by components.ts). */
  datatype MovedBetween = MovedBetween(
    updatedSourceComponents: Tree,
    updatedDestinationComponents: Tree,
    updatedSourceProps: PropTable,
    updatedDestinationProps: PropTable)

  /**
   * The subtree `sub` and its props leave the source universe and join the
   * destination; the moved props are appended to the destination list.
   */
  function MoveCompBetween(src: Tree, dst: Tree, srcProps: PropTable, dstProps: PropTable, sub: set<string>): (r: MovedBetween)
    ensures r.updatedSourceComponents.Keys == src.Keys - sub
    ensures r.updatedDestinationComponents.Keys == dst.Keys + (src.Keys * sub)
    ensures forall k :: k in sub && k in src ==> r.updatedDestinationComponents[k] == src[k]
    ensures forall k :: k in sub ==> PropsOf(r.updatedDestinationProps, k) == PropsOf(dstProps, k) + PropsOf(srcProps, k)
    ensures forall k :: k in sub ==> PropsOf(r.updatedSourceProps, k) == []
    ensures forall k :: k !in sub ==> PropsOf(r.updatedSourceProps, k) == PropsOf(srcProps, k)
  {
    MovedBetween(
      src - sub,
      dst + RestrictTree(src, sub),
      srcProps - sub,
      AppendTables(dstProps, RestrictProps(srcProps, sub)))
  }

  /** What the three-argument `moveComp` returns (used by moveComponent.ts). */
  datatype Extracted = Extracted(
    updatedSourceComponents: Tree,
    updatedSourceProps: PropTable,
    movedComponents: Tree,
    movedProps: PropTable)

  /** The subtree `sub` is split out of one universe, with its props. */
  function MoveComp(src: Tree, srcProps: PropTable, sub: set<string>): (r: Extracted)
    ensures r.updatedSourceComponents.Keys !! r.movedComponents.Keys
    ensures r.updatedSourceComponents + r.movedComponents == src
    ensures r.updatedSourceProps.Keys !! r.movedProps.Keys
    ensures r.updatedSourceProps + r.movedProps == srcProps
    ensures r.movedComponents.Keys == src.Keys * sub && r.movedProps.Keys == srcProps.Keys * sub
  {
    var r := Extracted(src - sub, srcProps - sub, RestrictTree(src, sub), RestrictProps(srcProps, sub));
    assert r.updatedSourceComponents + r.movedComponents == src;
    assert r.updatedSourceProps + r.movedProps == srcProps;
    r
  }

  /**
   * `b` is `a` copied prop by prop (`{...prop, id: generateId()}` in
   * `duplicateProps`): same length, every field but the id kept.
   */
  predicate PropsCopied(a: seq<Prop>, b: seq<Prop>) {
    |a| == |b| && forall i :: 0 <= i < |a| ==> b[i] == a[i].(id := b[i].id)
  }

  /**
   * What `duplicateComponent(components[id], components, props)` is taken
   * to return: `copy` sends each node of the subtree `sub` of `id` to its
   * clone, one to one, and hits exactly the keys of `cloned`; the clone's
   * root `newId` keeps the original's parent, the clone hangs from it as a
   * detached subtree, every clone has its original's type, its children
   * are the clones of its original's children in order, and its props are
   * copies of its original's. The clone's ids are all fresh.
   */
  ghost predicate DuplicateContract(
    components: Tree, props: PropTable, id: string, sub: set<string>,
    newId: string, cloned: Tree, clonedProps: PropTable, copy: map<string, string>)
    requires id in components
  {
    && SubtreeOf(components, id, sub)
    && CloneHangs(components, props, id, newId, cloned, clonedProps)
    && copy.Keys == sub && id in copy && copy[id] == newId && copy.Values == cloned.Keys
    && (forall a, b :: a in copy && b in copy && a != b ==> copy[a] != copy[b])
    && (forall a :: a in copy ==>
          && cloned[copy[a]].ctype == components[a].ctype
          && (forall c :: c in components[a].children ==> c in copy)
          && cloned[copy[a]].children == Renamed(copy, components[a].children)
          && PropsCopied(PropsOf(props, a), PropsOf(clonedProps, copy[a])))
  }

  /**
   * The clone's shape as the duplicate uses it: fresh ids, a detached
   * subtree hanging from `newId`, which keeps the original's parent, and
   * props for cloned components only.
   */
  ghost predicate CloneHangs(components: Tree, props: PropTable, id: string, newId: string, cloned: Tree, clonedProps: PropTable)
    requires id in components
  {
    && HangsFrom(cloned, newId)
    && cloned.Keys !! components.Keys
    && clonedProps.Keys <= cloned.Keys
    && cloned.Keys !! props.Keys
    && cloned[newId].parent == components[id].parent
  }

  /** The list `s` with every id replaced by its image under `copy`. */
  function Renamed(copy: map<string, string>, s: seq<string>): seq<string>
    requires forall c :: c in s ==> c in copy
  {
    seq(|s|, i requires 0 <= i < |s| => copy[s[i]])
  }
}
