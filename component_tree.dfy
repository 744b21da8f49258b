/**
 * The tree side of the components.ts reducers, as functions of the stores
 * they read: removing a subtree, moving a node inside one universe or
 * across universes, adding nodes, duplicating, saving a subtree as a
 * template and exporting to the custom page, each with the invariant or
 * inverse it is proved against.
 */
module ComponentTree {
  import opened Wrappers
  import opened Seqs
  import opened Store
  import opened Recursive
  import opened ComponentProps

  // ------------------------------------------------------------------- delete

  /**
   * `deleteComponent` inside one universe: the subtree `sub` of `id` and its
   * props are dropped, and `id` is filtered out of its parent's children.
   */
  function DeleteFrom(t: Tree, props: PropTable, id: string, sub: set<string>): Deleted
    requires id in t && t[id].parent in t && t[id].parent !in sub
  {
    var d := DeleteComp(t, props, sub);
    var p := t[id].parent;
    Deleted(d.updatedComponents[p := d.updatedComponents[p].(children := RemoveAll(d.updatedComponents[p].children, id))], d.updatedProps)
  }

  /** A node outside the deleted subtree survives; only the parent's record changes, losing `id` from its children. */
  lemma DeleteFromAt(t: Tree, props: PropTable, id: string, sub: set<string>, k: string)
    requires id in t && t[id].parent in t && t[id].parent !in sub
    requires k in t && k !in sub
    ensures k in DeleteFrom(t, props, id, sub).updatedComponents
    ensures DeleteFrom(t, props, id, sub).updatedComponents[k]
      == if k == t[id].parent then t[k].(children := RemoveAll(t[k].children, id)) else t[k]
  {
  }

  /**
   * Deleting a subtree keeps exactly the other nodes, drops the subtree's
   * props and keeps every other component's.
   */
  lemma DeleteFromEffect(t: Tree, props: PropTable, id: string, sub: set<string>)
    requires id in t && t[id].parent in t && t[id].parent !in sub
    ensures DeleteFrom(t, props, id, sub).updatedComponents.Keys == t.Keys - sub
    ensures forall k :: k in sub ==> PropsOf(DeleteFrom(t, props, id, sub).updatedProps, k) == []
    ensures forall k :: k !in sub ==> PropsOf(DeleteFrom(t, props, id, sub).updatedProps, k) == PropsOf(props, k)
  {
  }

  /** Deleting a subtree leaves a linked tree in which the parent no longer lists `id`. */
  lemma DeleteFromLinked(t: Tree, props: PropTable, id: string, sub: set<string>)
    requires Linked(t) && SubtreeOf(t, id, sub)
    requires t[id].parent in t && t[id].parent !in sub
    ensures Linked(DeleteFrom(t, props, id, sub).updatedComponents)
    ensures id !in DeleteFrom(t, props, id, sub).updatedComponents[t[id].parent].children
  {
    var r := DeleteFrom(t, props, id, sub).updatedComponents;
    DeleteFromEffect(t, props, id, sub);
    DeleteFromAt(t, props, id, sub, t[id].parent);
    forall x | x in r ensures r[x].id == x && NoDup(r[x].children) {
      DeleteFromAt(t, props, id, sub, x);
      RemoveAllNoDup(t[x].children, id);
    }
    forall x, c | x in r && c in r[x].children ensures c in r && r[c].parent == x {
      DeletePointBackAt(t, props, id, sub, x, c);
    }
    forall x | x in r && r[x].parent != "" ensures r[x].parent in r && x in r[r[x].parent].children {
      DeleteParentAt(t, props, id, sub, x);
    }
  }

  lemma DeletePointBackAt(t: Tree, props: PropTable, id: string, sub: set<string>, x: string, c: string)
    requires ChildrenPointBack(t) && SubtreeOf(t, id, sub)
    requires t[id].parent in t && t[id].parent !in sub
    requires x in t && x !in sub && c in DeleteFrom(t, props, id, sub).updatedComponents[x].children
    ensures c in DeleteFrom(t, props, id, sub).updatedComponents
    ensures DeleteFrom(t, props, id, sub).updatedComponents[c].parent == x
  {
    DeleteFromAt(t, props, id, sub, x);
    assert c in t[x].children && t[c].parent == x;
    assert c != id;
    DeleteFromAt(t, props, id, sub, c);
  }

  lemma DeleteParentAt(t: Tree, props: PropTable, id: string, sub: set<string>, x: string)
    requires ParentsList(t) && SubtreeOf(t, id, sub)
    requires t[id].parent in t && t[id].parent !in sub
    requires x in t && x !in sub && t[x].parent != ""
    ensures t[x].parent in DeleteFrom(t, props, id, sub).updatedComponents
    ensures x in DeleteFrom(t, props, id, sub).updatedComponents[t[x].parent].children
  {
    var q := t[x].parent;
    assert q in t && x in t[q].children;
    DeleteFromAt(t, props, id, sub, q);
  }

  /**
   * `deleteCustomComponent`: removing a whole template, a subtree whose
   * root has no parent record, keeps a linked registry linked.
   */
  lemma DeleteTemplateLinked(cc: Tree, props: PropTable, ty: string, sub: set<string>)
    requires Linked(cc) && SubtreeOf(cc, ty, sub) && cc[ty].parent !in cc
    ensures Linked(DeleteComp(cc, props, sub).updatedComponents)
    ensures DeleteComp(cc, props, sub).updatedComponents.Keys == cc.Keys - sub
  {
    var r := DeleteComp(cc, props, sub).updatedComponents;
    forall x | x in r ensures forall c :: c in r[x].children ==> c in r && r[c].parent == x {
      forall c | c in r[x].children ensures c in r && r[c].parent == x {
        assert c in cc && cc[c].parent == x;
        assert c != ty;
      }
    }
    forall x | x in r && r[x].parent != "" ensures r[x].parent in r && x in r[r[x].parent].children {
      var q := cc[x].parent;
      assert q in cc && x in cc[q].children;
    }
  }

  /**
   * `moveSelectedComponentChildren`: reordering one node's children keeps
   * a linked tree linked.
   */
  lemma ReorderLinked(t: Tree, id: string, fromIndex: int, toIndex: int)
    requires Linked(t) && id in t && SpliceStart(fromIndex, |t[id].children|) < |t[id].children|
    ensures Linked(t[id := t[id].(children := Reorder(t[id].children, fromIndex, toIndex))])
  {
    var cs := t[id].children;
    ReorderPermutes(cs, fromIndex, toIndex);
    PermutationNoDup(cs, Reorder(cs, fromIndex, toIndex));
    RelistedLinked(t, id, Reorder(cs, fromIndex, toIndex));
  }

  /** Replacing a node's children by a duplicate-free list of the same ids keeps a linked tree linked. */
  lemma RelistedLinked(t: Tree, id: string, cs: seq<string>)
    requires Linked(t) && id in t && NoDup(cs) && forall c :: c in cs <==> c in t[id].children
    ensures Linked(t[id := t[id].(children := cs)])
  {
    var r := t[id := t[id].(children := cs)];
    forall x | x in r ensures forall c :: c in r[x].children ==> c in r && r[c].parent == x {
      forall c | c in r[x].children ensures c in r && r[c].parent == x {
        assert c in t[x].children;
      }
    }
  }

  // ------------------------------------------------------------- move within

  /**
   * `moveComponent` inside one universe: `id` leaves its old parent's
   * children, takes `newParent` as parent and is pushed onto its children.
   */
  function MoveWithin(t: Tree, id: string, newParent: string): (r: Tree)
    requires id in t && t[id].parent in t && newParent in t
    ensures r.Keys == t.Keys
  {
    var op := t[id].parent;
    var t1 := t[op := t[op].(children := RemoveFirst(t[op].children, id))];
    var t2 := t1[id := t1[id].(parent := newParent)];
    t2[newParent := t2[newParent].(children := t2[newParent].children + [id])]
  }

  /**
   * Moving to another parent changes three records only: `id` takes the new
   * parent, the old parent's children lose `id` (the rest in order) and the
   * new parent's gain it at the end.
   */
  lemma MoveWithinShape(t: Tree, id: string, newParent: string)
    requires id in t && t[id].parent in t && newParent in t
    requires newParent != t[id].parent && newParent != id
    ensures forall k :: k in MoveWithin(t, id, newParent) <==> k in t
    ensures MoveWithin(t, id, newParent)[id].parent == newParent
    ensures MoveWithin(t, id, newParent)[newParent].children == t[newParent].children + [id]
    ensures MoveWithin(t, id, newParent)[t[id].parent].children == RemoveFirst(t[t[id].parent].children, id)
    ensures forall k :: k in t && k != id && k != newParent && k != t[id].parent ==> MoveWithin(t, id, newParent)[k] == t[k]
  {
    var op := t[id].parent;
    MoveWithinAt(t, id, newParent, id);
    MoveWithinAt(t, id, newParent, newParent);
    MoveWithinAt(t, id, newParent, op);
    forall k | k in t && k != id && k != newParent && k != op ensures MoveWithin(t, id, newParent)[k] == t[k] {
      MoveWithinAt(t, id, newParent, k);
    }
  }

  /** One record after the move. */
  lemma MoveWithinAt(t: Tree, id: string, newParent: string, k: string)
    requires id in t && t[id].parent in t && newParent in t
    requires newParent != t[id].parent && newParent != id && k in t
    ensures k in MoveWithin(t, id, newParent)
    ensures MoveWithin(t, id, newParent)[k]
      == if k == newParent then t[k].(children := t[k].children + [id])
         else if k == id then (if k == t[id].parent then t[k].(children := RemoveFirst(t[k].children, id)) else t[k]).(parent := newParent)
         else if k == t[id].parent then t[k].(children := RemoveFirst(t[k].children, id))
         else t[k]
  {
    var op := t[id].parent;
    var t1 := t[op := t[op].(children := RemoveFirst(t[op].children, id))];
    var t2 := t1[id := t1[id].(parent := newParent)];
    var r := t2[newParent := t2[newParent].(children := t2[newParent].children + [id])];
    assert MoveWithin(t, id, newParent) == r;
    if k == newParent {
      assert r[k] == t[k].(children := t[k].children + [id]);
    } else if k == id {
      assert r[k] == t1[k].(parent := newParent);
    } else {
      assert r[k] == t1[k];
    }
  }

  /** Moving to another parent keeps the tree linked: `id` is listed once, by its new parent only. */
  lemma MoveWithinLinked(t: Tree, id: string, newParent: string)
    requires Linked(t) && id in t && t[id].parent in t && newParent in t
    requires newParent != t[id].parent && newParent != id
    ensures Linked(MoveWithin(t, id, newParent))
  {
    MoveWithinShape(t, id, newParent);
    MoveWithinDistinct(t, id, newParent);
    MoveWithinPointBack(t, id, newParent);
    MoveWithinParents(t, id, newParent);
  }

  lemma MoveWithinDistinct(t: Tree, id: string, newParent: string)
    requires Linked(t) && id in t && t[id].parent in t && newParent in t
    requires newParent != t[id].parent && newParent != id
    ensures ChildrenDistinct(MoveWithin(t, id, newParent))
  {
    var r := MoveWithin(t, id, newParent);
    assert id !in t[newParent].children;
    forall x | x in r ensures NoDup(r[x].children) {
      MoveWithinAt(t, id, newParent, x);
      RemoveFirstNoDup(t[x].children, id);
      if x == newParent { AppendFreshNoDup(t[x].children, id); }
    }
  }

  lemma MoveWithinPointBack(t: Tree, id: string, newParent: string)
    requires Linked(t) && id in t && t[id].parent in t && newParent in t
    requires newParent != t[id].parent && newParent != id
    ensures ChildrenPointBack(MoveWithin(t, id, newParent))
  {
    var r := MoveWithin(t, id, newParent);
    forall x, c | x in r && c in r[x].children ensures c in r && r[c].parent == x {
      MoveWithinPointBackAt(t, id, newParent, x, c);
    }
  }

  lemma MoveWithinPointBackAt(t: Tree, id: string, newParent: string, x: string, c: string)
    requires Linked(t) && id in t && t[id].parent in t && newParent in t
    requires newParent != t[id].parent && newParent != id
    requires x in t && c in MoveWithin(t, id, newParent)[x].children
    ensures c in MoveWithin(t, id, newParent) && MoveWithin(t, id, newParent)[c].parent == x
  {
    var op := t[id].parent;
    MoveWithinAt(t, id, newParent, x);
    if x == newParent && c == id {
      MoveWithinAt(t, id, newParent, id);
    } else {
      // `c` was already a child of `x`, and it is not the moved node
      if x == op {
        RemoveFirstNoDup(t[x].children, id);
      }
      assert c in t[x].children && c != id;
      MoveWithinAt(t, id, newParent, c);
    }
  }

  lemma MoveWithinParents(t: Tree, id: string, newParent: string)
    requires ChildrenDistinct(t) && ParentsList(t) && id in t && t[id].parent in t && newParent in t
    requires newParent != t[id].parent && newParent != id
    ensures ParentsList(MoveWithin(t, id, newParent))
  {
    var r := MoveWithin(t, id, newParent);
    forall x | x in r && r[x].parent != "" ensures r[x].parent in r && x in r[r[x].parent].children {
      MoveWithinParentOf(t, id, newParent, x);
    }
  }

  /** One node's entry in its parent's children after the move. */
  lemma MoveWithinParentOf(t: Tree, id: string, newParent: string, x: string)
    requires ChildrenDistinct(t) && ParentsList(t) && id in t && t[id].parent in t && newParent in t
    requires newParent != t[id].parent && newParent != id
    requires x in t && MoveWithin(t, id, newParent)[x].parent != ""
    ensures var r := MoveWithin(t, id, newParent); r[x].parent in r && x in r[r[x].parent].children
  {
    var op := t[id].parent;
    var t1 := t[op := t[op].(children := RemoveFirst(t[op].children, id))];
    var t2 := t1[id := t1[id].(parent := newParent)];
    var r := t2[newParent := t2[newParent].(children := t2[newParent].children + [id])];
    assert r == MoveWithin(t, id, newParent);
    if x != id {
      assert r[x].parent == t[x].parent;
      var q := t[x].parent;
      assert q in t && x in t[q].children;
      if q == newParent {
      } else if q == op {
        RemoveFirstNoDup(t[op].children, id);
        assert r[q].children == t1[q].children;
      } else {
        assert r[q].children == t[q].children;
      }
    }
  }

  /**
   * Moving back to the former parent restores the tree, except that the
   * former parent now lists `id` last among its children.
   */
  lemma MoveWithinReturns(t: Tree, id: string, newParent: string)
    requires ChildrenPointBack(t) && id in t && t[id].parent in t && newParent in t
    requires newParent != t[id].parent && newParent != id && t[id].parent != id
    ensures MoveWithin(MoveWithin(t, id, newParent), id, t[id].parent)
      == t[t[id].parent := t[t[id].parent].(children := RemoveFirst(t[t[id].parent].children, id) + [id])]
  {
    var op := t[id].parent;
    var back := MoveWithin(MoveWithin(t, id, newParent), id, op);
    var want := t[op := t[op].(children := RemoveFirst(t[op].children, id) + [id])];
    forall k | k in t ensures k in back && back[k] == want[k] {
      MoveWithinReturnsAt(t, id, newParent, k);
    }
  }

  lemma MoveWithinReturnsAt(t: Tree, id: string, newParent: string, k: string)
    requires ChildrenPointBack(t) && id in t && t[id].parent in t && newParent in t
    requires newParent != t[id].parent && newParent != id && t[id].parent != id
    requires k in t
    ensures var op := t[id].parent;
      MoveWithin(MoveWithin(t, id, newParent), id, op)[k]
      == t[op := t[op].(children := RemoveFirst(t[op].children, id) + [id])][k]
  {
    var op := t[id].parent;
    var r := MoveWithin(t, id, newParent);
    MoveWithinAt(t, id, newParent, id);
    MoveWithinAt(t, id, newParent, k);
    MoveWithinAt(r, id, op, k);
    if k == newParent {
      assert id !in t[newParent].children;
      RemoveFirstAppended(t[newParent].children, id);
    }
  }

  lemma {:induction false} RemoveFirstAppended<T>(s: seq<T>, x: T)
    requires x !in s
    ensures RemoveFirst(s + [x], x) == s
  {
    if |s| > 0 {
      assert (s + [x])[1..] == s[1..] + [x];
      RemoveFirstAppended(s[1..], x);
    }
  }

  // ------------------------------------------------------- move across universes

  /** What the old `moveComponent` leaves when a node crosses between universes. */
  datatype Crossed = Crossed(from: Tree, to: Tree, fromProps: PropTable, toProps: PropTable)

  /**
   * A node crossing universes: it is detached from its old parent, its
   * subtree and props move over (`moveComponent` of utils/recursive), and it
   * is pushed onto the children of `newParent` in the destination.
   */
  function MoveAcross(src: Tree, dst: Tree, srcProps: PropTable, dstProps: PropTable, id: string, newParent: string, sub: set<string>): Crossed
    requires id in src && src[id].parent in src && src[id].parent !in sub
    requires newParent in dst && newParent !in sub
  {
    var op := src[id].parent;
    var s1 := src[op := src[op].(children := RemoveFirst(src[op].children, id))];
    var s2 := s1[id := s1[id].(parent := newParent)];
    var m := MoveCompBetween(s2, dst, srcProps, dstProps, sub);
    var d := m.updatedDestinationComponents;
    Crossed(m.updatedSourceComponents, d[newParent := d[newParent].(children := d[newParent].children + [id])], m.updatedSourceProps, m.updatedDestinationProps)
  }

  /**
   * After crossing, the source keeps everything outside the subtree and
   * the destination gains exactly the subtree.
   */
  lemma MoveAcrossKeys(src: Tree, dst: Tree, srcProps: PropTable, dstProps: PropTable, id: string, newParent: string, sub: set<string>)
    requires id in src && src[id].parent in src && src[id].parent !in sub
    requires newParent in dst && newParent !in sub && id in sub && sub <= src.Keys
    ensures MoveAcross(src, dst, srcProps, dstProps, id, newParent, sub).from.Keys == src.Keys - sub
    ensures MoveAcross(src, dst, srcProps, dstProps, id, newParent, sub).to.Keys == dst.Keys + sub
  {
  }

  /**
   * A destination record after crossing: `newParent` lists `id` last,
   * `id` points at `newParent`, the rest of the subtree is copied
   * unchanged and the destination's own records are kept.
   */
  lemma MoveAcrossTo(src: Tree, dst: Tree, srcProps: PropTable, dstProps: PropTable, id: string, newParent: string, sub: set<string>, k: string)
    requires id in src && src[id].parent in src && src[id].parent !in sub
    requires newParent in dst && newParent !in sub && id in sub && sub <= src.Keys
    requires k in dst || k in sub
    ensures k in MoveAcross(src, dst, srcProps, dstProps, id, newParent, sub).to
    ensures MoveAcross(src, dst, srcProps, dstProps, id, newParent, sub).to[k]
      == if k == newParent then dst[k].(children := dst[k].children + [id])
         else if k == id then src[id].(parent := newParent)
         else if k in sub then src[k]
         else dst[k]
  {
    var op := src[id].parent;
    var s1 := src[op := src[op].(children := RemoveFirst(src[op].children, id))];
    var s2 := s1[id := s1[id].(parent := newParent)];
    var d := dst + RestrictTree(s2, sub);
    assert MoveAcross(src, dst, srcProps, dstProps, id, newParent, sub).to == d[newParent := d[newParent].(children := d[newParent].children + [id])];
    if k != newParent {
      if k in sub { assert d[k] == s2[k]; } else { assert d[k] == dst[k]; }
    }
  }

  /** A source record after crossing: only the old parent changes, losing `id`. */
  lemma MoveAcrossFrom(src: Tree, dst: Tree, srcProps: PropTable, dstProps: PropTable, id: string, newParent: string, sub: set<string>, k: string)
    requires id in src && src[id].parent in src && src[id].parent !in sub
    requires newParent in dst && newParent !in sub
    requires id in sub && k in src && k !in sub
    ensures k in MoveAcross(src, dst, srcProps, dstProps, id, newParent, sub).from
    ensures MoveAcross(src, dst, srcProps, dstProps, id, newParent, sub).from[k]
      == if k == src[id].parent then src[k].(children := RemoveFirst(src[k].children, id)) else src[k]
  {
    var op := src[id].parent;
    var s1 := src[op := src[op].(children := RemoveFirst(src[op].children, id))];
    var s2 := s1[id := s1[id].(parent := newParent)];
    assert MoveAcross(src, dst, srcProps, dstProps, id, newParent, sub).from == s2 - sub;
    assert (s2 - sub)[k] == s1[k];
  }

  /** Each moved component's props follow it; every other component's props stay where they were. */
  lemma MoveAcrossProps(src: Tree, dst: Tree, srcProps: PropTable, dstProps: PropTable, id: string, newParent: string, sub: set<string>)
    requires id in src && src[id].parent in src && src[id].parent !in sub
    requires newParent in dst && newParent !in sub
    ensures forall k :: k in sub ==> PropsOf(MoveAcross(src, dst, srcProps, dstProps, id, newParent, sub).toProps, k) == PropsOf(dstProps, k) + PropsOf(srcProps, k)
    ensures forall k :: k in sub ==> PropsOf(MoveAcross(src, dst, srcProps, dstProps, id, newParent, sub).fromProps, k) == []
    ensures forall k :: k !in sub ==> PropsOf(MoveAcross(src, dst, srcProps, dstProps, id, newParent, sub).fromProps, k) == PropsOf(srcProps, k)
    ensures forall k :: k !in sub ==> PropsOf(MoveAcross(src, dst, srcProps, dstProps, id, newParent, sub).toProps, k) == PropsOf(dstProps, k)
  {
    var c := MoveAcross(src, dst, srcProps, dstProps, id, newParent, sub);
    assert c.toProps == AppendTables(dstProps, RestrictProps(srcProps, sub));
    assert c.fromProps == srcProps - sub;
    forall k | k !in sub ensures PropsOf(c.toProps, k) == PropsOf(dstProps, k) {
      assert PropsOf(RestrictProps(srcProps, sub), k) == [];
    }
  }

  // ------------------------------------------------------------------- graft

  /** `t[parent].children.push(id)`. */
  function Pushed(t: Tree, parent: string, id: string): (r: Tree)
    requires parent in t
    ensures r.Keys == t.Keys
  {
    t[parent := t[parent].(children := t[parent].children + [id])]
  }

  /**
   * The moved subtree joins the destination: `{...dst, ...moved}`, the
   * moved root takes `newParent` and is pushed onto its children.
   */
  function Grafted(dst: Tree, moved: Tree, id: string, newParent: string): (r: Tree)
    requires id in moved && newParent in dst + moved
    ensures r.Keys == dst.Keys + moved.Keys
  {
    var t1 := dst + moved;
    Pushed(t1[id := t1[id].(parent := newParent)], newParent, id)
  }

  /**
   * After grafting, the moved root points at `newParent`, which lists it
   * last, and every other record is the moved one or the destination's.
   */
  lemma GraftedEffect(dst: Tree, moved: Tree, id: string, newParent: string)
    requires id in moved && newParent in dst && newParent !in moved && newParent != id
    ensures Grafted(dst, moved, id, newParent)[id] == moved[id].(parent := newParent)
    ensures Grafted(dst, moved, id, newParent)[newParent].children == dst[newParent].children + [id]
    ensures forall k :: k in moved && k != id ==> Grafted(dst, moved, id, newParent)[k] == moved[k]
    ensures forall k :: k in dst && k !in moved && k != newParent ==> Grafted(dst, moved, id, newParent)[k] == dst[k]
  {
  }

  /** One record of a graft. */
  lemma GraftedAt(dst: Tree, m: Tree, id: string, newParent: string, k: string)
    requires id in m && newParent in dst && newParent !in m && (k in dst || k in m)
    ensures k in Grafted(dst, m, id, newParent)
    ensures Grafted(dst, m, id, newParent)[k]
      == if k == newParent then dst[k].(children := dst[k].children + [id])
         else if k == id then m[id].(parent := newParent)
         else if k in m then m[k]
         else dst[k]
  {
  }

  /** Grafting a detached subtree under a node of a linked tree with other ids gives a linked tree. */
  lemma GraftedLinked(dst: Tree, m: Tree, id: string, newParent: string)
    requires Linked(dst) && HangsFrom(m, id) && dst.Keys !! m.Keys && newParent in dst
    ensures Linked(Grafted(dst, m, id, newParent))
  {
    var r := Grafted(dst, m, id, newParent);
    forall x | x in r ensures r[x].id == x && NoDup(r[x].children) {
      GraftedDistinctAt(dst, m, id, newParent, x);
    }
    forall x, c | x in r && c in r[x].children ensures c in r && r[c].parent == x {
      GraftedPointBackAt(dst, m, id, newParent, x, c);
    }
    forall x | x in r && r[x].parent != "" ensures r[x].parent in r && x in r[r[x].parent].children {
      GraftedParentAt(dst, m, id, newParent, x);
    }
  }

  lemma GraftedDistinctAt(dst: Tree, m: Tree, id: string, newParent: string, x: string)
    requires Linked(dst) && HangsFrom(m, id) && dst.Keys !! m.Keys && newParent in dst
    requires x in dst || x in m
    ensures Grafted(dst, m, id, newParent)[x].id == x && NoDup(Grafted(dst, m, id, newParent)[x].children)
  {
    GraftedAt(dst, m, id, newParent, x);
    if x == newParent {
      assert id !in dst[newParent].children;
      AppendFreshNoDup(dst[x].children, id);
    }
  }

  lemma GraftedPointBackAt(dst: Tree, m: Tree, id: string, newParent: string, x: string, c: string)
    requires ChildrenPointBack(dst) && ChildrenPointBack(m) && id in m && m[id].parent !in m
    requires dst.Keys !! m.Keys && newParent in dst
    requires (x in dst || x in m) && c in Grafted(dst, m, id, newParent)[x].children
    ensures c in Grafted(dst, m, id, newParent) && Grafted(dst, m, id, newParent)[c].parent == x
  {
    GraftedAt(dst, m, id, newParent, x);
    if x in m {
      assert c in m[x].children && c in m && m[c].parent == x;
      GraftedAt(dst, m, id, newParent, c);
    } else if c != id {
      assert c in dst[x].children && c in dst;
      GraftedAt(dst, m, id, newParent, c);
    } else {
      // `id` is new to `dst`, so only `newParent` lists it
      assert id !in dst && x == newParent;
      GraftedAt(dst, m, id, newParent, id);
    }
  }

  lemma GraftedParentAt(dst: Tree, m: Tree, id: string, newParent: string, x: string)
    requires Linked(dst) && HangsFrom(m, id) && dst.Keys !! m.Keys && newParent in dst
    requires (x in dst || x in m) && Grafted(dst, m, id, newParent)[x].parent != ""
    ensures Grafted(dst, m, id, newParent)[x].parent in Grafted(dst, m, id, newParent)
    ensures x in Grafted(dst, m, id, newParent)[Grafted(dst, m, id, newParent)[x].parent].children
  {
    GraftedAt(dst, m, id, newParent, x);
    if x == id {
      GraftedAt(dst, m, id, newParent, newParent);
    } else if x in m {
      GraftedAt(dst, m, id, newParent, m[x].parent);
    } else {
      assert dst[x].parent in dst;
      GraftedAt(dst, m, id, newParent, dst[x].parent);
    }
  }

  /** What is left of `src` once the subtree `sub` of `id` is cut out and `id` is spliced from its parent's children. */
  function CutRest(src: Tree, id: string, sub: set<string>): (r: Tree)
    requires id in src && src[id].parent in src
    ensures r.Keys == src.Keys - sub
  {
    var op := src[id].parent;
    map k | k in src.Keys - sub :: if k == op then src[k].(children := RemoveFirst(src[k].children, id)) else src[k]
  }

  /** One record of the rest: only the old parent changes. */
  lemma CutRestAt(src: Tree, id: string, sub: set<string>, k: string)
    requires id in src && src[id].parent in src && k in src && k !in sub
    ensures k in CutRest(src, id, sub)
    ensures CutRest(src, id, sub)[k] == if k == src[id].parent then src[k].(children := RemoveFirst(src[k].children, id)) else src[k]
  {
  }

  /**
   * Cutting the subtree of `id` out of a linked tree leaves two pieces: a
   * linked rest, whose old parent no longer lists `id`, and the subtree,
   * which hangs from `id`.
   */
  lemma CutLinked(src: Tree, id: string, sub: set<string>)
    requires Linked(src) && SubtreeOf(src, id, sub) && "" !in sub
    requires src[id].parent in src && src[id].parent !in sub
    ensures Linked(CutRest(src, id, sub))
    ensures id !in CutRest(src, id, sub)[src[id].parent].children
    ensures HangsFrom(RestrictTree(src, sub), id)
  {
    CutRestLinked(src, id, sub);
    CutRestAt(src, id, sub, src[id].parent);
    RemoveFirstNoDup(src[src[id].parent].children, id);
    CutSubtreeHangs(src, id, sub);
  }

  lemma CutRestLinked(src: Tree, id: string, sub: set<string>)
    requires Linked(src) && SubtreeOf(src, id, sub)
    requires src[id].parent in src && src[id].parent !in sub
    ensures Linked(CutRest(src, id, sub))
  {
    CutRestDistinct(src, id, sub);
    CutRestPointBack(src, id, sub);
    CutRestParents(src, id, sub);
  }

  lemma CutRestDistinct(src: Tree, id: string, sub: set<string>)
    requires KeyedById(src) && ChildrenDistinct(src)
    requires id in src && src[id].parent in src
    ensures KeyedById(CutRest(src, id, sub)) && ChildrenDistinct(CutRest(src, id, sub))
  {
    var r := CutRest(src, id, sub);
    forall x | x in r ensures r[x].id == x && NoDup(r[x].children) {
      CutDistinctAt(src, id, sub, x);
    }
  }

  lemma CutRestPointBack(src: Tree, id: string, sub: set<string>)
    requires ChildrenPointBack(src) && ChildrenDistinct(src) && SubtreeOf(src, id, sub)
    requires src[id].parent in src && src[id].parent !in sub
    ensures ChildrenPointBack(CutRest(src, id, sub))
  {
    var r := CutRest(src, id, sub);
    forall x | x in r ensures forall c :: c in r[x].children ==> c in r && r[c].parent == x {
      forall c | c in r[x].children ensures c in r && r[c].parent == x {
        CutPointBackAt(src, id, sub, x, c);
      }
    }
  }

  lemma CutRestParents(src: Tree, id: string, sub: set<string>)
    requires ParentsList(src) && ChildrenDistinct(src) && SubtreeOf(src, id, sub)
    requires src[id].parent in src && src[id].parent !in sub
    ensures ParentsList(CutRest(src, id, sub))
  {
    var r := CutRest(src, id, sub);
    forall x | x in r && r[x].parent != "" ensures r[x].parent in r && x in r[r[x].parent].children {
      CutRestAt(src, id, sub, x);
      CutParentAt(src, id, sub, x);
    }
  }

  lemma CutDistinctAt(src: Tree, id: string, sub: set<string>, x: string)
    requires KeyedById(src) && ChildrenDistinct(src)
    requires id in src && src[id].parent in src && x in src && x !in sub
    ensures CutRest(src, id, sub)[x].id == x && NoDup(CutRest(src, id, sub)[x].children)
  {
    CutRestAt(src, id, sub, x);
    RemoveFirstNoDup(src[x].children, id);
  }

  lemma CutPointBackAt(src: Tree, id: string, sub: set<string>, x: string, c: string)
    requires ChildrenPointBack(src) && ChildrenDistinct(src) && SubtreeOf(src, id, sub)
    requires src[id].parent in src && src[id].parent !in sub
    requires x in src && x !in sub && c in CutRest(src, id, sub)[x].children
    ensures c in CutRest(src, id, sub) && CutRest(src, id, sub)[c].parent == x
  {
    var op := src[id].parent;
    CutRestAt(src, id, sub, x);
    if x == op {
      RemoveFirstNoDup(src[x].children, id);
      assert c != id && c in src[x].children;
    } else {
      assert c in src[x].children;
      assert c != id;
    }
    assert src[c].parent == x;
    assert c !in sub;
    CutRestAt(src, id, sub, c);
  }

  lemma CutParentAt(src: Tree, id: string, sub: set<string>, x: string)
    requires ParentsList(src) && ChildrenDistinct(src) && SubtreeOf(src, id, sub)
    requires src[id].parent in src && src[id].parent !in sub
    requires x in src && x !in sub && src[x].parent != ""
    ensures src[x].parent in CutRest(src, id, sub)
    ensures x in CutRest(src, id, sub)[src[x].parent].children
  {
    var q := src[x].parent;
    assert q in src && x in src[q].children;
    assert q !in sub;
    CutRestAt(src, id, sub, q);
    RemoveFirstNoDup(src[q].children, id);
  }

  lemma CutSubtreeHangs(src: Tree, id: string, sub: set<string>)
    requires Linked(src) && SubtreeOf(src, id, sub) && "" !in sub
    requires src[id].parent !in sub
    ensures HangsFrom(RestrictTree(src, sub), id)
  {
    var m := RestrictTree(src, sub);
    forall x | x in m ensures forall c :: c in m[x].children ==> c in m && m[c].parent == x {
      forall c | c in m[x].children ensures c in m && m[c].parent == x {
        assert m[x] == src[x];
        assert c in src && src[c].parent == x;
        assert c in sub;
        assert m[c] == src[c];
      }
    }
    forall x | x in m && x != id ensures m[x].parent in m && x in m[m[x].parent].children {
      CutSubtreeParentAt(src, id, sub, x);
    }
  }

  lemma CutSubtreeParentAt(src: Tree, id: string, sub: set<string>, x: string)
    requires ParentsList(src) && SubtreeOf(src, id, sub) && "" !in sub
    requires x in sub && x != id
    ensures src[x].parent in RestrictTree(src, sub)
    ensures x in RestrictTree(src, sub)[src[x].parent].children
  {
    var q := src[x].parent;
    assert q in sub;
    assert q != "";
    assert q in src && x in src[q].children;
  }

  /** Crossing universes cuts the subtree out of the source. */
  lemma MoveAcrossIsCut(src: Tree, dst: Tree, srcProps: PropTable, dstProps: PropTable, id: string, newParent: string, sub: set<string>)
    requires id in src && src[id].parent in src && src[id].parent !in sub
    requires newParent in dst && newParent !in sub && id in sub && sub <= src.Keys
    ensures MoveAcross(src, dst, srcProps, dstProps, id, newParent, sub).from == CutRest(src, id, sub)
  {
    var c := MoveAcross(src, dst, srcProps, dstProps, id, newParent, sub);
    MoveAcrossKeys(src, dst, srcProps, dstProps, id, newParent, sub);
    forall k | k in c.from ensures c.from[k] == CutRest(src, id, sub)[k] {
      MoveAcrossFrom(src, dst, srcProps, dstProps, id, newParent, sub, k);
      CutRestAt(src, id, sub, k);
    }
  }

  /** Crossing universes grafts the subtree into the destination. */
  lemma MoveAcrossIsGraft(src: Tree, dst: Tree, srcProps: PropTable, dstProps: PropTable, id: string, newParent: string, sub: set<string>)
    requires id in src && src[id].parent in src && src[id].parent !in sub
    requires newParent in dst && newParent !in sub && id in sub && sub <= src.Keys
    ensures MoveAcross(src, dst, srcProps, dstProps, id, newParent, sub).to == Grafted(dst, RestrictTree(src, sub), id, newParent)
  {
    var c := MoveAcross(src, dst, srcProps, dstProps, id, newParent, sub);
    var g := Grafted(dst, RestrictTree(src, sub), id, newParent);
    MoveAcrossKeys(src, dst, srcProps, dstProps, id, newParent, sub);
    forall k | k in c.to ensures c.to[k] == g[k] {
      MoveAcrossTo(src, dst, srcProps, dstProps, id, newParent, sub, k);
      GraftedAt(dst, RestrictTree(src, sub), id, newParent, k);
    }
  }

  /**
   * Moving a subtree between two linked universes with disjoint ids leaves
   * both linked; the old parent no longer lists the node.
   */
  lemma MoveAcrossLinked(src: Tree, dst: Tree, srcProps: PropTable, dstProps: PropTable, id: string, newParent: string, sub: set<string>)
    requires Linked(src) && Linked(dst) && SubtreeOf(src, id, sub) && "" !in sub && sub !! dst.Keys
    requires src[id].parent in src && src[id].parent !in sub && newParent in dst
    ensures Linked(MoveAcross(src, dst, srcProps, dstProps, id, newParent, sub).from)
    ensures Linked(MoveAcross(src, dst, srcProps, dstProps, id, newParent, sub).to)
    ensures id !in MoveAcross(src, dst, srcProps, dstProps, id, newParent, sub).from[src[id].parent].children
  {
    MoveAcrossIsCut(src, dst, srcProps, dstProps, id, newParent, sub);
    MoveAcrossIsGraft(src, dst, srcProps, dstProps, id, newParent, sub);
    CutLinked(src, id, sub);
    GraftedLinked(dst, RestrictTree(src, sub), id, newParent);
  }

  // --------------------------------------------------------------------- add

  /** The default props of a new node, one per `DEFAULT_PROPS` entry in key order, under the next generated ids. */
  function DefaultProps(defaults: seq<(string, Value)>, counter: nat): (r: seq<Prop>)
    ensures |r| == |defaults|
    ensures forall i :: 0 <= i < |r| ==>
      r[i] == PlainProp(IdOf(counter + i), defaults[i].0, defaults[i].1)
  {
    seq(|defaults|, i requires 0 <= i < |defaults| => PlainProp(IdOf(counter + i), defaults[i].0, defaults[i].1))
  }

  /**
   * `addComponent` / `addCustomComponent` inside one universe: a leaf `id`
   * of type `ctype` under `parent`, pushed onto its children, owning
   * `newProps` (appended to the flat list).
   */
  function AddNode(t: Tree, props: PropTable, parent: string, id: string, ctype: string, newProps: seq<Prop>): (Tree, PropTable)
    requires parent in t
  {
    var t1 := t[id := Component(id, ctype, parent, [])];
    (t1[parent := t1[parent].(children := t1[parent].children + [id])],
     AppendTables(props, map[id := newProps]))
  }

  /**
   * Adding a fresh leaf lists it last among its parent's children, gives it
   * exactly `newProps`, and changes nothing else.
   */
  lemma AddNodeEffect(t: Tree, props: PropTable, parent: string, id: string, ctype: string, newProps: seq<Prop>)
    requires parent in t && id !in t
    ensures AddNode(t, props, parent, id, ctype, newProps).0.Keys == t.Keys + {id}
    ensures AddNode(t, props, parent, id, ctype, newProps).0[id] == Component(id, ctype, parent, [])
    ensures AddNode(t, props, parent, id, ctype, newProps).0[parent].children == t[parent].children + [id]
    ensures forall k :: k in t && k != parent ==> AddNode(t, props, parent, id, ctype, newProps).0[k] == t[k]
    ensures PropsOf(AddNode(t, props, parent, id, ctype, newProps).1, id) == PropsOf(props, id) + newProps
    ensures forall k :: k != id ==> PropsOf(AddNode(t, props, parent, id, ctype, newProps).1, k) == PropsOf(props, k)
  {
  }

  /** One record of the tree after `AddNode`. */
  lemma AddNodeAt(t: Tree, props: PropTable, parent: string, id: string, ctype: string, newProps: seq<Prop>, k: string)
    requires parent in t && id !in t && (k in t || k == id)
    ensures k in AddNode(t, props, parent, id, ctype, newProps).0
    ensures AddNode(t, props, parent, id, ctype, newProps).0[k]
      == if k == id then Component(id, ctype, parent, [])
         else if k == parent then t[k].(children := t[k].children + [id])
         else t[k]
  {
  }

  /** Adding a fresh leaf keeps the tree linked. */
  lemma AddNodeLinked(t: Tree, props: PropTable, parent: string, id: string, ctype: string, newProps: seq<Prop>)
    requires Linked(t) && parent in t && id !in t
    ensures Linked(AddNode(t, props, parent, id, ctype, newProps).0)
  {
    var r := AddNode(t, props, parent, id, ctype, newProps).0;
    assert r.Keys == t.Keys + {id};
    assert id !in t[parent].children;
    forall x | x in r ensures r[x].id == x && NoDup(r[x].children) {
      AddNodeAt(t, props, parent, id, ctype, newProps, x);
      if x == parent { AppendFreshNoDup(t[x].children, id); }
    }
    forall x, c | x in r && c in r[x].children ensures c in r && r[c].parent == x {
      AddNodeAt(t, props, parent, id, ctype, newProps, x);
      if c != id {
        assert c in t[x].children;
        AddNodeAt(t, props, parent, id, ctype, newProps, c);
      }
    }
    forall x | x in r && r[x].parent != "" ensures r[x].parent in r && x in r[r[x].parent].children {
      AddNodeAt(t, props, parent, id, ctype, newProps, x);
      AddNodeAt(t, props, parent, id, ctype, newProps, r[x].parent);
    }
  }

  lemma AppendFreshNoDup(s: seq<string>, x: string)
    requires NoDup(s) && x !in s
    ensures NoDup(s + [x])
  {
    forall i, j | 0 <= i < j < |s + [x]| ensures (s + [x])[i] != (s + [x])[j] {
      if j == |s| { assert s[i] in s; }
    }
  }

  /**
   * Deleting a node right after adding it restores the tree.
   * (`id !in t[parent].children` holds in every `Linked` tree without `id`.)
   */
  lemma AddThenDelete(t: Tree, props: PropTable, parent: string, id: string, ctype: string, newProps: seq<Prop>)
    requires parent in t && id !in t && id !in t[parent].children
    ensures DeleteFrom(AddNode(t, props, parent, id, ctype, newProps).0, AddNode(t, props, parent, id, ctype, newProps).1, id, {id}).updatedComponents == t
  {
    var d := DeleteFrom(AddNode(t, props, parent, id, ctype, newProps).0, AddNode(t, props, parent, id, ctype, newProps).1, id, {id}).updatedComponents;
    assert d.Keys == t.Keys;
    forall k | k in t ensures d[k] == t[k] {
      AddThenDeleteAt(t, props, parent, id, ctype, newProps, k);
    }
  }

  lemma AddThenDeleteAt(t: Tree, props: PropTable, parent: string, id: string, ctype: string, newProps: seq<Prop>, k: string)
    requires parent in t && id !in t && id !in t[parent].children && k in t
    ensures DeleteFrom(AddNode(t, props, parent, id, ctype, newProps).0, AddNode(t, props, parent, id, ctype, newProps).1, id, {id}).updatedComponents[k] == t[k]
  {
    RemoveAllAppended(t[parent].children, id);
  }

  /** Deleting a node right after adding it restores the props. */
  lemma AddThenDeleteProps(t: Tree, props: PropTable, parent: string, id: string, ctype: string, newProps: seq<Prop>)
    requires parent in t && id !in t && id !in props
    ensures DeleteFrom(AddNode(t, props, parent, id, ctype, newProps).0, AddNode(t, props, parent, id, ctype, newProps).1, id, {id}).updatedProps == props
  {
    var a := AddNode(t, props, parent, id, ctype, newProps);
    var rp := AppendTables(props, map[id := newProps]);
    assert a.1 == rp;
    var d := DeleteFrom(a.0, a.1, id, {id}).updatedProps;
    assert d == rp - {id};
    assert d.Keys == props.Keys;
    forall k | k in props ensures d[k] == props[k] {
      assert PropsOf(rp, k) == PropsOf(props, k) + PropsOf(map[id := newProps], k);
    }
  }

  // --------------------------------------------------------------- duplicate

  /**
   * `duplicate` inside one universe: the clone returned by
   * `duplicateComponent` joins the universe, its root is pushed onto the
   * original's parent, its props are appended.
   */
  function DuplicateInto(t: Tree, props: PropTable, parent: string, newId: string, cloned: Tree, clonedProps: PropTable): (Tree, PropTable)
    requires parent in t
  {
    var t1 := t + cloned;
    (t1[parent := t1[parent].(children := t1[parent].children + [newId])], AppendTables(props, clonedProps))
  }

  /** Duplicating is grafting the clone under the original's parent. */
  lemma DuplicateIsGraft(t: Tree, props: PropTable, parent: string, newId: string, cloned: Tree, clonedProps: PropTable)
    requires parent in t && newId in cloned && cloned[newId].parent == parent
    ensures DuplicateInto(t, props, parent, newId, cloned, clonedProps).0 == Grafted(t, cloned, newId, parent)
  {
    var t1 := t + cloned;
    assert t1[newId] == cloned[newId];
    assert t1[newId := t1[newId].(parent := parent)] == t1;
  }

  /** Duplicating inside a linked universe keeps it linked. */
  lemma DuplicateLinked(t: Tree, props: PropTable, id: string, newId: string, cloned: Tree, clonedProps: PropTable)
    requires Linked(t) && id in t && t[id].parent in t
    requires CloneHangs(t, props, id, newId, cloned, clonedProps)
    ensures Linked(DuplicateInto(t, props, t[id].parent, newId, cloned, clonedProps).0)
  {
    DuplicateIsGraft(t, props, t[id].parent, newId, cloned, clonedProps);
    GraftedLinked(t, cloned, newId, t[id].parent);
  }

  /**
   * The clone is a subtree of the universe it joins, so `deleteComponent`
   * accepts it: its nodes are exactly the clone's, its parent is outside.
   * Deleting it right after duplicating restores the tree. (The fresh
   * `newId` is never among the parent's children in a `Linked` tree.)
   */
  lemma DuplicateThenDelete(t: Tree, props: PropTable, id: string, newId: string, cloned: Tree, clonedProps: PropTable)
    requires id in t && t[id].parent in t && newId !in t[t[id].parent].children
    requires CloneHangs(t, props, id, newId, cloned, clonedProps)
    ensures var d := DuplicateInto(t, props, t[id].parent, newId, cloned, clonedProps).0;
      && newId in d && d[newId].parent in d && d[newId].parent !in cloned.Keys
      && SubtreeOf(d, newId, cloned.Keys)
    ensures DeleteFrom(DuplicateInto(t, props, t[id].parent, newId, cloned, clonedProps).0,
                       DuplicateInto(t, props, t[id].parent, newId, cloned, clonedProps).1, newId, cloned.Keys).updatedComponents == t
  {
    DuplicateIsGraft(t, props, t[id].parent, newId, cloned, clonedProps);
    GraftedSubtree(t, cloned, newId, t[id].parent);
    var p := t[id].parent;
    var g := DuplicateInto(t, props, p, newId, cloned, clonedProps).0;
    var d := DeleteFrom(g, DuplicateInto(t, props, p, newId, cloned, clonedProps).1, newId, cloned.Keys).updatedComponents;
    assert d.Keys == t.Keys;
    forall k | k in t ensures d[k] == t[k] {
      DuplicateThenDeleteAt(t, props, id, newId, cloned, clonedProps, k);
    }
  }

  /** A grafted detached subtree is a subtree of the result, with its parent outside it. */
  lemma GraftedSubtree(dst: Tree, m: Tree, id: string, newParent: string)
    requires id in m && ChildrenPointBack(m) && (forall x :: x in m && x != id ==> m[x].parent in m)
    requires newParent in dst && newParent !in m
    ensures var g := Grafted(dst, m, id, newParent);
      && g[id].parent == newParent && SubtreeOf(g, id, m.Keys)
  {
    var g := Grafted(dst, m, id, newParent);
    forall x | x in m ensures forall c :: c in g[x].children && c in g ==> c in m {
      GraftedAt(dst, m, id, newParent, x);
    }
    forall x | x in m && x != id ensures g[x].parent in m {
      GraftedAt(dst, m, id, newParent, x);
    }
    GraftedAt(dst, m, id, newParent, id);
  }

  lemma DuplicateThenDeleteAt(t: Tree, props: PropTable, id: string, newId: string, cloned: Tree, clonedProps: PropTable, k: string)
    requires id in t && t[id].parent in t && k in t
    requires CloneHangs(t, props, id, newId, cloned, clonedProps)
    requires newId !in t[t[id].parent].children
    ensures t[id].parent !in cloned
    ensures DeleteFrom(DuplicateInto(t, props, t[id].parent, newId, cloned, clonedProps).0,
                       DuplicateInto(t, props, t[id].parent, newId, cloned, clonedProps).1, newId, cloned.Keys).updatedComponents[k] == t[k]
  {
    RemoveAllAppended(t[t[id].parent].children, newId);
  }

  /**
   * Deleting the clone right after duplicating restores the props, when
   * every prop list belongs to a component of the tree.
   */
  lemma DuplicateThenDeleteProps(t: Tree, props: PropTable, id: string, newId: string, cloned: Tree, clonedProps: PropTable)
    requires id in t && t[id].parent in t && props.Keys <= t.Keys
    requires CloneHangs(t, props, id, newId, cloned, clonedProps)
    ensures DeleteFrom(DuplicateInto(t, props, t[id].parent, newId, cloned, clonedProps).0,
                       DuplicateInto(t, props, t[id].parent, newId, cloned, clonedProps).1, newId, cloned.Keys).updatedProps == props
  {
    var rp := AppendTables(props, clonedProps);
    assert DuplicateInto(t, props, t[id].parent, newId, cloned, clonedProps).1 == rp;
    assert (rp - cloned.Keys).Keys == props.Keys;
    forall k | k in props ensures (rp - cloned.Keys)[k] == props[k] {
      assert k !in clonedProps;
    }
  }

  /**
   * Each clone carries its original's type and copies of its original's
   * props, and the clone's props are what the duplicate adds.
   */
  lemma DuplicateCopies(t: Tree, props: PropTable, id: string, sub: set<string>, newId: string, cloned: Tree, clonedProps: PropTable, copy: map<string, string>, a: string)
    requires id in t && t[id].parent in t && a in sub
    requires DuplicateContract(t, props, id, sub, newId, cloned, clonedProps, copy)
    ensures var d := DuplicateInto(t, props, t[id].parent, newId, cloned, clonedProps);
      && copy[a] in d.0 && d.0[copy[a]].ctype == t[a].ctype
      && PropsCopied(PropsOf(props, a), PropsOf(d.1, copy[a]))
      && PropsOf(d.1, a) == PropsOf(props, a)
  {
    assert copy[a] in cloned.Keys && a in t;
    assert copy[a] !in props && a !in clonedProps;
    DuplicateAt(t, props, t[id].parent, newId, cloned, clonedProps, a, copy[a]);
  }

  /** A clone node `b` joins the universe as it is and with its own props; an original `a` keeps its props. */
  lemma DuplicateAt(t: Tree, props: PropTable, parent: string, newId: string, cloned: Tree, clonedProps: PropTable, a: string, b: string)
    requires parent in t && b in cloned && b != parent && b !in props && a !in clonedProps
    ensures var d := DuplicateInto(t, props, parent, newId, cloned, clonedProps);
      && b in d.0 && d.0[b] == cloned[b]
      && PropsOf(d.1, b) == PropsOf(clonedProps, b) && PropsOf(d.1, a) == PropsOf(props, a)
  {
  }

  // ---------------------------------------------------------- save as template

  /** The stores after `saveComponent`. */
  datatype Saved = Saved(tree: Tree, pageProps: PropTable, cc: Tree, ccProps: PropTable)

  /**
   * `saveComponent(name)` on `componentId`: its subtree and props move into
   * the registry under a new template root `name`; in the page, a new
   * instance node `newId` of type `name` takes its place at the end of the
   * parent's children.
   * `rootParentProps` and `customProps` are what `fetchAndUpdateExposedProps`
   * returns (not part of this model); the instance receives a copy of
   * `rootParentProps` under the ids following `newId`.
   */
  function SaveSpec(
    tree: Tree, pageProps: PropTable, cc: Tree, ccProps: PropTable,
    componentId: string, sub: set<string>, name: string, newId: string,
    rootParentProps: seq<Prop>, customProps: PropTable, counter: nat): Saved
    requires componentId in tree && componentId in sub && sub <= tree.Keys
    requires tree[componentId].parent in tree && tree[componentId].parent !in sub
  {
    var m := MoveCompBetween(tree, cc, pageProps, ccProps, sub);
    Saved(SavedPageTree(m.updatedSourceComponents, tree[componentId].parent, componentId, name, newId),
          AppendTables(m.updatedSourceProps, map[newId := DuplicateProps(rootParentProps, counter + 1)]),
          SavedRegistry(m.updatedDestinationComponents, componentId, name),
          AppendTables(AppendTables(ccProps, customProps), map[name := rootParentProps]))
  }

  /** The page part of `saveComponent`: the instance `newId` replaces `componentId` among the parent's children. */
  function SavedPageTree(rest: Tree, parentId: string, componentId: string, name: string, newId: string): Tree
    requires parentId in rest
  {
    var t1 := rest[newId := Component(newId, name, parentId, [])];
    t1[parentId := t1[parentId].(children := RemoveAll(t1[parentId].children, componentId) + [newId])]
  }

  /** The registry part of `saveComponent`: the template root `name` adopts the moved `componentId`. */
  function SavedRegistry(moved: Tree, componentId: string, name: string): Tree
    requires componentId in moved
  {
    var c1 := moved[name := Component(name, name, "", [componentId])];
    c1[componentId := c1[componentId].(parent := name)]
  }

  /**
   * The page tree after saving is the tree with the subtree deleted and a
   * fresh leaf `newId` of type `name` added under the same parent.
   */
  lemma SaveSpecPageTree(
    tree: Tree, pageProps: PropTable, cc: Tree, ccProps: PropTable,
    componentId: string, sub: set<string>, name: string, newId: string,
    rootParentProps: seq<Prop>, customProps: PropTable, counter: nat)
    requires componentId in tree && componentId in sub && sub <= tree.Keys
    requires tree[componentId].parent in tree && tree[componentId].parent !in sub
    requires newId !in tree
    ensures SaveSpec(tree, pageProps, cc, ccProps, componentId, sub, name, newId, rootParentProps, customProps, counter).tree
      == AddNode(DeleteFrom(tree, pageProps, componentId, sub).updatedComponents, map[], tree[componentId].parent, newId, name, []).0
  {
    SavedPageTreeIsDeleteAdd(tree, pageProps, componentId, sub, name, newId);
  }

  lemma SavedPageTreeIsDeleteAdd(tree: Tree, pageProps: PropTable, componentId: string, sub: set<string>, name: string, newId: string)
    requires componentId in tree && componentId in sub && sub <= tree.Keys
    requires tree[componentId].parent in tree && tree[componentId].parent !in sub
    requires newId !in tree
    ensures SavedPageTree(tree - sub, tree[componentId].parent, componentId, name, newId)
      == AddNode(DeleteFrom(tree, pageProps, componentId, sub).updatedComponents, map[], tree[componentId].parent, newId, name, []).0
  {
    var p := tree[componentId].parent;
    var s := SavedPageTree(tree - sub, p, componentId, name, newId);
    var a := AddNode(DeleteFrom(tree, pageProps, componentId, sub).updatedComponents, map[], p, newId, name, []).0;
    assert s.Keys == a.Keys;
    forall k | k in s ensures s[k] == a[k] {
      SavedPageTreeAt(tree, pageProps, componentId, sub, name, newId, k);
    }
  }

  lemma SavedPageTreeAt(tree: Tree, pageProps: PropTable, componentId: string, sub: set<string>, name: string, newId: string, k: string)
    requires componentId in tree && componentId in sub && sub <= tree.Keys
    requires tree[componentId].parent in tree && tree[componentId].parent !in sub
    requires newId !in tree && (k in tree.Keys - sub || k == newId)
    ensures var p := tree[componentId].parent;
      SavedPageTree(tree - sub, p, componentId, name, newId)[k]
      == AddNode(DeleteFrom(tree, pageProps, componentId, sub).updatedComponents, map[], p, newId, name, []).0[k]
  {
  }

  /**
   * After saving, the page tree is linked again with `newId` standing last
   * among the parent's children in place of the saved subtree, and the
   * subtree's props have left the page.
   */
  lemma SaveSpecPage(
    tree: Tree, pageProps: PropTable, cc: Tree, ccProps: PropTable,
    componentId: string, sub: set<string>, name: string, newId: string,
    rootParentProps: seq<Prop>, customProps: PropTable, counter: nat)
    requires Linked(tree) && SubtreeOf(tree, componentId, sub)
    requires tree[componentId].parent in tree && tree[componentId].parent !in sub
    requires newId !in tree
    ensures Linked(SaveSpec(tree, pageProps, cc, ccProps, componentId, sub, name, newId, rootParentProps, customProps, counter).tree)
    ensures SaveSpec(tree, pageProps, cc, ccProps, componentId, sub, name, newId, rootParentProps, customProps, counter).tree.Keys
      == tree.Keys - sub + {newId}
    ensures SaveSpec(tree, pageProps, cc, ccProps, componentId, sub, name, newId, rootParentProps, customProps, counter).tree[newId]
      == Component(newId, name, tree[componentId].parent, [])
    ensures SaveSpec(tree, pageProps, cc, ccProps, componentId, sub, name, newId, rootParentProps, customProps, counter).tree[tree[componentId].parent].children
      == RemoveAll(tree[tree[componentId].parent].children, componentId) + [newId]
  {
    SaveSpecPageTree(tree, pageProps, cc, ccProps, componentId, sub, name, newId, rootParentProps, customProps, counter);
    var p := tree[componentId].parent;
    DeleteFromEffect(tree, pageProps, componentId, sub);
    DeleteFromLinked(tree, pageProps, componentId, sub);
    DeleteFromAt(tree, pageProps, componentId, sub, p);
    var d := DeleteFrom(tree, pageProps, componentId, sub).updatedComponents;
    assert newId !in d;
    AddNodeEffect(d, map[], p, newId, name, []);
    AddNodeLinked(d, map[], p, newId, name, []);
  }

  /** After saving, the instance `newId` owns a copy of the template root's props and the subtree owns none in the page. */
  lemma SaveSpecPageProps(
    tree: Tree, pageProps: PropTable, cc: Tree, ccProps: PropTable,
    componentId: string, sub: set<string>, name: string, newId: string,
    rootParentProps: seq<Prop>, customProps: PropTable, counter: nat)
    requires componentId in tree && componentId in sub && sub <= tree.Keys
    requires tree[componentId].parent in tree && tree[componentId].parent !in sub
    requires newId !in pageProps && newId !in sub
    ensures PropsOf(SaveSpec(tree, pageProps, cc, ccProps, componentId, sub, name, newId, rootParentProps, customProps, counter).pageProps, newId)
      == DuplicateProps(rootParentProps, counter + 1)
    ensures forall k :: k in sub ==>
      PropsOf(SaveSpec(tree, pageProps, cc, ccProps, componentId, sub, name, newId, rootParentProps, customProps, counter).pageProps, k) == []
    ensures forall k :: k !in sub && k != newId ==>
      PropsOf(SaveSpec(tree, pageProps, cc, ccProps, componentId, sub, name, newId, rootParentProps, customProps, counter).pageProps, k) == PropsOf(pageProps, k)
  {
    SaveSpecPagePropsIs(tree, pageProps, cc, ccProps, componentId, sub, name, newId, rootParentProps, customProps, counter);
    PagePropsAfterMove(pageProps, sub, newId, DuplicateProps(rootParentProps, counter + 1));
  }

  /** The page's props once the subtree has left and `newId` has received `dup`. */
  lemma PagePropsAfterMove(pageProps: PropTable, sub: set<string>, newId: string, dup: seq<Prop>)
    requires newId !in pageProps && newId !in sub
    ensures PropsOf(AppendTables(pageProps - sub, map[newId := dup]), newId) == dup
    ensures forall k :: k in sub ==>
      PropsOf(AppendTables(pageProps - sub, map[newId := dup]), k) == []
    ensures forall k :: k !in sub && k != newId ==>
      PropsOf(AppendTables(pageProps - sub, map[newId := dup]), k) == PropsOf(pageProps, k)
  {
    var extra := map[newId := dup];
    var pp := AppendTables(pageProps - sub, extra);
    assert PropsOf(pp, newId) == PropsOf(pageProps - sub, newId) + PropsOf(extra, newId);
    forall k | k in sub ensures PropsOf(pp, k) == [] {
      assert PropsOf(pp, k) == PropsOf(pageProps - sub, k) + PropsOf(extra, k);
    }
    forall k | k !in sub && k != newId ensures PropsOf(pp, k) == PropsOf(pageProps, k) {
      assert PropsOf(pp, k) == PropsOf(pageProps - sub, k) + PropsOf(extra, k);
    }
  }

  lemma SaveSpecPagePropsIs(
    tree: Tree, pageProps: PropTable, cc: Tree, ccProps: PropTable,
    componentId: string, sub: set<string>, name: string, newId: string,
    rootParentProps: seq<Prop>, customProps: PropTable, counter: nat)
    requires componentId in tree && componentId in sub && sub <= tree.Keys
    requires tree[componentId].parent in tree && tree[componentId].parent !in sub
    ensures SaveSpec(tree, pageProps, cc, ccProps, componentId, sub, name, newId, rootParentProps, customProps, counter).pageProps
      == AppendTables(pageProps - sub, map[newId := DuplicateProps(rootParentProps, counter + 1)])
  {
  }

  /**
   * After saving, the saved node hangs directly under the new template
   * root `name` (so `name` is its `searchRootCustomComponent` root), and the
   * root's registry props end with `rootParentProps`.
   */
  lemma SaveSpecRegistry(
    tree: Tree, pageProps: PropTable, cc: Tree, ccProps: PropTable,
    componentId: string, sub: set<string>, name: string, newId: string,
    rootParentProps: seq<Prop>, customProps: PropTable, counter: nat)
    requires componentId in tree && componentId in sub && sub <= tree.Keys
    requires tree[componentId].parent in tree && tree[componentId].parent !in sub
    requires name != componentId
    ensures var s := SaveSpec(tree, pageProps, cc, ccProps, componentId, sub, name, newId, rootParentProps, customProps, counter);
      && s.cc[name] == Component(name, name, "", [componentId])
      && s.cc[componentId] == tree[componentId].(parent := name)
      && IsRootOf(s.cc, name, componentId)
      && (forall k :: k in sub && k != componentId && k != name ==> s.cc[k] == tree[k])
      && PropsOf(s.ccProps, name) == PropsOf(ccProps, name) + PropsOf(customProps, name) + rootParentProps
  {
    var s := SaveSpec(tree, pageProps, cc, ccProps, componentId, sub, name, newId, rootParentProps, customProps, counter);
    assert Climb(s.cc, componentId, 1) == name;
  }

  /** The registry after `saveComponent`, unfolded. */
  lemma SaveSpecRegistryIs(
    tree: Tree, pageProps: PropTable, cc: Tree, ccProps: PropTable,
    componentId: string, sub: set<string>, name: string, newId: string,
    rootParentProps: seq<Prop>, customProps: PropTable, counter: nat)
    requires componentId in tree && componentId in sub && sub <= tree.Keys
    requires tree[componentId].parent in tree && tree[componentId].parent !in sub
    ensures SaveSpec(tree, pageProps, cc, ccProps, componentId, sub, name, newId, rootParentProps, customProps, counter).cc
      == SavedRegistry(cc + RestrictTree(tree, sub), componentId, name)
  {
  }

  /** A fresh childless root keeps a linked tree linked. */
  lemma RootAddedLinked(t: Tree, name: string)
    requires Linked(t) && name !in t
    ensures Linked(t[name := Component(name, name, "", [])])
  {
    var r := t[name := Component(name, name, "", [])];
    forall x | x in r ensures forall c :: c in r[x].children ==> c in r && r[c].parent == x {
      if x != name {
        forall c | c in r[x].children ensures c in r && r[c].parent == x {
          assert c in t && c != name;
        }
      }
    }
  }

  /** The registry `saveComponent` builds is the moved subtree grafted under a fresh root `name`. */
  lemma SavedRegistryIsGraft(cc: Tree, moved: Tree, componentId: string, name: string)
    requires componentId in moved && name !in cc && name !in moved
    ensures SavedRegistry(cc + moved, componentId, name)
      == Grafted(cc[name := Component(name, name, "", [])], moved, componentId, name)
  {
    var a := SavedRegistry(cc + moved, componentId, name);
    var b := Grafted(cc[name := Component(name, name, "", [])], moved, componentId, name);
    assert a.Keys == b.Keys;
    forall k | k in a ensures a[k] == b[k] {
      if k == name {
        assert b[k].children == [] + [componentId];
      }
    }
  }

  /** The registry part of saving keeps a linked registry linked. */
  lemma SavedRegistryLinked(tree: Tree, cc: Tree, componentId: string, sub: set<string>, name: string)
    requires Linked(tree) && Linked(cc) && SubtreeOf(tree, componentId, sub) && "" !in sub
    requires tree[componentId].parent in tree && tree[componentId].parent !in sub
    requires name !in cc && name !in sub && sub !! cc.Keys
    ensures Linked(SavedRegistry(cc + RestrictTree(tree, sub), componentId, name))
  {
    var moved := RestrictTree(tree, sub);
    CutLinked(tree, componentId, sub);
    RootAddedLinked(cc, name);
    SavedRegistryIsGraft(cc, moved, componentId, name);
    GraftedLinked(cc[name := Component(name, name, "", [])], moved, componentId, name);
  }

  /**
   * Saving a subtree of a linked page as a new template keeps a linked
   * registry linked, and the registry gains exactly the subtree and `name`.
   */
  lemma SaveSpecRegistryLinked(
    tree: Tree, pageProps: PropTable, cc: Tree, ccProps: PropTable,
    componentId: string, sub: set<string>, name: string, newId: string,
    rootParentProps: seq<Prop>, customProps: PropTable, counter: nat)
    requires Linked(tree) && Linked(cc) && SubtreeOf(tree, componentId, sub) && "" !in sub
    requires tree[componentId].parent in tree && tree[componentId].parent !in sub
    requires name !in cc && name !in sub && sub !! cc.Keys
    ensures Linked(SaveSpec(tree, pageProps, cc, ccProps, componentId, sub, name, newId, rootParentProps, customProps, counter).cc)
    ensures SaveSpec(tree, pageProps, cc, ccProps, componentId, sub, name, newId, rootParentProps, customProps, counter).cc.Keys
      == cc.Keys + sub + {name}
  {
    SaveSpecRegistryIs(tree, pageProps, cc, ccProps, componentId, sub, name, newId, rootParentProps, customProps, counter);
    SavedRegistryLinked(tree, cc, componentId, sub, name);
  }

  /**
   * Saving under a `name` that already names a template overwrites that
   * template's root: a node it listed keeps `name` as its parent but is no
   * longer listed, so the registry is no longer linked.
   */
  lemma SaveSpecOrphans(
    tree: Tree, pageProps: PropTable, cc: Tree, ccProps: PropTable,
    componentId: string, sub: set<string>, name: string, newId: string,
    rootParentProps: seq<Prop>, customProps: PropTable, counter: nat, x: string)
    requires componentId in tree && componentId in sub && sub <= tree.Keys
    requires tree[componentId].parent in tree && tree[componentId].parent !in sub
    requires name in cc && name != "" && x in cc && cc[x].parent == name && x != componentId && x != name && x !in sub
    ensures var r := SaveSpec(tree, pageProps, cc, ccProps, componentId, sub, name, newId, rootParentProps, customProps, counter).cc;
      && x in r && r[x].parent == name && x !in r[name].children && !Linked(r)
  {
    SaveSpecRegistryIs(tree, pageProps, cc, ccProps, componentId, sub, name, newId, rootParentProps, customProps, counter);
    SavedRegistryOrphans(tree, cc, componentId, sub, name, x);
  }

  lemma SavedRegistryOrphans(tree: Tree, cc: Tree, componentId: string, sub: set<string>, name: string, x: string)
    requires componentId in tree && componentId in sub && sub <= tree.Keys
    requires name in cc && name != "" && x in cc && cc[x].parent == name && x != componentId && x != name && x !in sub
    ensures var r := SavedRegistry(cc + RestrictTree(tree, sub), componentId, name);
      && x in r && r[x].parent == name && x !in r[name].children && !Linked(r)
  {
    var r := SavedRegistry(cc + RestrictTree(tree, sub), componentId, name);
    assert r[name].children == [componentId];
    assert r[x] == cc[x];
    assert !ParentsList(r);
  }

  // -------------------------------------------------------- export to a page

  /**
   * `exportSelectedComponentToCustomPage`: the clone of the selected subtree
   * joins the custom page's tree under its `root`, with its props appended.
   */
  function ExportSpec(target: Tree, targetProps: PropTable, newId: string, cloned: Tree, clonedProps: PropTable): (Tree, PropTable)
    requires DEFAULT_ID in target && newId in cloned
  {
    var t1 := target + cloned;
    var t2 := t1[newId := t1[newId].(parent := DEFAULT_ID)];
    (t2[DEFAULT_ID := t2[DEFAULT_ID].(children := t2[DEFAULT_ID].children + [newId])], AppendTables(targetProps, clonedProps))
  }

  /**
   * Exporting places the clone's root last under the target's `root`,
   * keeps every clone node and every earlier node of the target, and
   * appends the clone's props.
   */
  lemma ExportSpecEffect(target: Tree, targetProps: PropTable, newId: string, cloned: Tree, clonedProps: PropTable)
    requires DEFAULT_ID in target && newId in cloned && DEFAULT_ID !in cloned && cloned.Keys !! target.Keys
    ensures var (r, rp) := ExportSpec(target, targetProps, newId, cloned, clonedProps);
      && r.Keys == target.Keys + cloned.Keys
      && r[newId].parent == DEFAULT_ID
      && r[DEFAULT_ID].children == target[DEFAULT_ID].children + [newId]
      && (forall k :: k in target && k != DEFAULT_ID ==> r[k] == target[k])
      && (forall k :: k in cloned && k != newId ==> r[k] == cloned[k])
      && (forall k :: PropsOf(rp, k) == PropsOf(targetProps, k) + PropsOf(clonedProps, k))
  {
  }

  /** Exporting a detached clone with fresh ids into a linked target keeps it linked. */
  lemma ExportLinked(target: Tree, targetProps: PropTable, newId: string, cloned: Tree, clonedProps: PropTable)
    requires Linked(target) && DEFAULT_ID in target && HangsFrom(cloned, newId) && cloned.Keys !! target.Keys
    ensures Linked(ExportSpec(target, targetProps, newId, cloned, clonedProps).0)
    ensures newId in ExportSpec(target, targetProps, newId, cloned, clonedProps).0[DEFAULT_ID].children
  {
    assert ExportSpec(target, targetProps, newId, cloned, clonedProps).0 == Grafted(target, cloned, newId, DEFAULT_ID);
    GraftedLinked(target, cloned, newId, DEFAULT_ID);
    GraftedAt(target, cloned, newId, DEFAULT_ID, DEFAULT_ID);
  }
}
