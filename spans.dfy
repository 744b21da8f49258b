/**
 * The rich-text span editor of spanOperations.ts. The selected node's
 * `children` prop holds a run sequence: each run is literal text or the id
 * of a nested formatting node, which owns a `children` prop of its own.
 *
 * `loadRequired(draftState)` is not part of this model; it is read as
 * handing out the selected node together with the universe it lives in:
 * the registry for a template node, else the selected page (the universe
 * `removeSpanComponent` and `clearFormatting` also pick by hand). All three
 * operations write back into that universe.
 *
 * The helpers `splitArray`, `addSpanForSelection`, `removeSpanForSelection`
 * and `joinAdjacentTextNodes` are not part of this model either: they are
 * function parameters, and what the lemmas need of them is stated as an
 * explicit assumption.
 */
module Spans {
  import opened Wrappers
  import opened Seqs
  import opened Store
  import opened ComponentTree
  import opened Components

  // ------------------------------------------------------------ strings

  /** The selection swap `if (startIndex > endIndex) { start = endIndex; end = startIndex }`. */
  function Ordered(a: int, b: int): (r: (int, int))
    ensures r.0 <= r.1
    ensures multiset{r.0, r.1} == multiset{a, b}
    ensures a <= b ==> r == (a, b)
  {
    if a > b then (b, a) else (a, b)
  }

  // ------------------------------------------------------------ props

  /** `byComponentId[id].find(propId => byId[propId].name === 'children')`: where the node's text lives. */
  function ChildrenAt(p: PropTable, id: string): Option<nat> {
    FindProp(PropsOf(p, id), "children")
  }

  /** The first prop of the list with id `pid`. */
  function PropWithId(ps: seq<Prop>, pid: string): (r: Option<nat>)
    ensures r.Some? ==> r.value < |ps| && ps[r.value].id == pid
    ensures r.None? ==> forall j :: 0 <= j < |ps| ==> ps[j].id != pid
  {
    if |ps| == 0 then None
    else if PropWithId(ps[..|ps| - 1], pid).Some? then PropWithId(ps[..|ps| - 1], pid)
    else if ps[|ps| - 1].id == pid then Some(|ps| - 1)
    else None
  }

  /** `props.byId[propId].value = v` for the `i`-th prop of `owner`. */
  function SetValue(p: PropTable, owner: string, i: nat, v: Value): (r: PropTable)
    requires i < |PropsOf(p, owner)|
    ensures |PropsOf(r, owner)| == |PropsOf(p, owner)|
    ensures PropsOf(r, owner)[i] == PropsOf(p, owner)[i].(value := v)
    ensures forall j :: 0 <= j < |PropsOf(p, owner)| && j != i ==> PropsOf(r, owner)[j] == PropsOf(p, owner)[j]
    ensures forall k :: k != owner ==> PropsOf(r, k) == PropsOf(p, k)
    ensures r.Keys == p.Keys + {owner}
  {
    p[owner := PropsOf(p, owner)[i := PropsOf(p, owner)[i].(value := v)]]
  }

  // ------------------------------------------------------------ reading the text

  /** What one run reads as: an id run stands for its node's `children` text, any other run for itself. */
  function RunText(r: string, t: Tree, p: PropTable): string {
    if r in t then
      match ChildrenAt(p, r)
      case Some(i) => JsString(PropsOf(p, r)[i].value)
      case None => ""
    else r
  }

  /** The text a run sequence reads as, one level deep. */
  function TextOf(runs: seq<string>, t: Tree, p: PropTable): string
    decreases |runs|
  {
    if runs == [] then "" else TextOf(runs[..|runs| - 1], t, p) + RunText(runs[|runs| - 1], t, p)
  }

  lemma {:induction false} TextOfAppend(a: seq<string>, b: seq<string>, t: Tree, p: PropTable)
    ensures TextOf(a + b, t, p) == TextOf(a, t, p) + TextOf(b, t, p)
    decreases |b|
  {
    if b == [] {
      assert a + b == a;
    } else {
      assert (a + b)[..|a + b| - 1] == a + b[..|b| - 1];
      TextOfAppend(a, b[..|b| - 1], t, p);
    }
  }

  /** Runs that read alike in two universes give the same text. */
  lemma {:induction false} TextOfAlike(runs: seq<string>, t: Tree, p: PropTable, t': Tree, p': PropTable)
    requires forall r :: r in runs ==> RunText(r, t', p') == RunText(r, t, p)
    ensures TextOf(runs, t', p') == TextOf(runs, t, p)
    decreases |runs|
  {
    if runs != [] {
      assert forall r :: r in runs[..|runs| - 1] ==> r in runs;
      TextOfAlike(runs[..|runs| - 1], t, p, t', p');
    }
  }

  // ------------------------------------------------------------ the universe

  /** A universe as a helper leaves it. */
  datatype Universe = Universe(tree: Tree, props: PropTable)

  /** The stores with the selected node's universe replaced. */
  function PutUniverse(s: Stores, page: Page, id: string, u: Universe): Stores {
    Put(s, page, id in s.customComponents, u.tree, u.props)
  }

  /** The universe the write-back went to: the registry when `custom`, else the page. */
  function Written(r: Stores, page: Page, custom: bool): Universe
    requires page.componentsId in r.componentsById && page.propsId in r.propsById
  {
    if custom then Universe(r.customComponents, r.customComponentsProps)
    else Universe(r.componentsById[page.componentsId], r.propsById[page.propsId])
  }

  /** The write-back lands in the universe the node was read from: the other one is left alone. */
  lemma PutUniverseTouchesOne(s: Stores, page: Page, id: string, u: Universe)
    ensures id in s.customComponents ==>
      var r := PutUniverse(s, page, id, u);
      r.componentsById == s.componentsById && r.propsById == s.propsById
      && r.customComponents == u.tree && r.customComponentsProps == u.props
    ensures id !in s.customComponents ==>
      var r := PutUniverse(s, page, id, u);
      r.customComponents == s.customComponents && r.customComponentsProps == s.customComponentsProps
      && r.componentsById == s.componentsById[page.componentsId := u.tree]
      && r.propsById == s.propsById[page.propsId := u.props]
  {
  }

  /** Reading back where the write went gives what was written. */
  lemma PutUniverseWritten(s: Stores, page: Page, id: string, u: Universe)
    requires page.componentsId in s.componentsById && page.propsId in s.propsById
    ensures var r := PutUniverse(s, page, id, u);
      page.componentsId in r.componentsById && page.propsId in r.propsById && Written(r, page, id in s.customComponents) == u
  {
  }

  /** The selected node's universe has its `children` prop. */
  ghost predicate HasText(s: Stores, page: Page, id: string) {
    && page.componentsId in s.componentsById && page.propsId in s.propsById
    && ChildrenAt(UniversePropsOf(s, page, id), id).Some?
  }

  /** The selected node's `children` prop. */
  function TextProp(s: Stores, page: Page, id: string): Prop
    requires HasText(s, page, id)
  {
    var p := UniversePropsOf(s, page, id);
    PropsOf(p, id)[ChildrenAt(p, id).value]
  }

  // ------------------------------------------------------------ addSpanComponent

  /** `splitArray({stringValue, start, end, id})`. */
  type SplitFn = (string, int, int, string) -> seq<string>

  /** `addSpanForSelection(childrenPropId, props, components, {start, end, endNodePosition, startNodePosition})`. */
  type AcrossFn = (string, PropTable, Tree, int, int, int, int) -> Universe

  /** A text piece, dropped when empty. */
  function Piece(s: string): seq<string> {
    if s == "" then [] else [s]
  }

  /**
   * Assumption: `splitArray` cuts the run into its text before `start`, the
   * span id, and its text from `end`, dropping empty pieces.
   */
  ghost predicate SplitsAround(split: SplitFn) {
    forall s: string, a: int, b: int, x: string :: 0 <= a <= b <= |s| ==>
      split(s, a, b, x) == Piece(s[..a]) + [x] + Piece(s[b..])
  }

  /**
   * The single-run branch: `newId` is a `Box` leaf under `id` owning
   * `as = "span"` and `children = <the cut text>`, and the run at `pos` is
   * replaced by the split pieces, flattened into the sequence.
   */
  function SpanInRun(t: Tree, p: PropTable, id: string, ci: nat, pos: nat, lo: int, hi: int,
                     split: SplitFn, counter: nat): Universe
    requires id in t && ci < |PropsOf(p, id)| && PropsOf(p, id)[ci].value.Runs?
    requires pos < |PropsOf(p, id)[ci].value.runs|
  {
    var newId := IdOf(counter);
    var runs := PropsOf(p, id)[ci].value.runs;
    var cropped := Substring(runs[pos], lo, hi);
    var p1 := SetValue(p, id, ci, Runs(runs[..pos] + split(runs[pos], lo, hi, newId) + runs[pos + 1..]));
    Universe(AddNode(t, p, id, newId, "Box", []).0,
             p1[newId := [PlainProp(IdOf(counter + 1), "as", Str("span")), PlainProp(IdOf(counter + 2), "children", Str(cropped))]])
  }

  /** What `addSpanComponent` needs: the node's text, and in the single-run branch the node and a run to cut. */
  ghost predicate AddSpanReady(s: Stores, page: Page, id: string, startPos: int, endPos: int) {
    && HasText(s, page, id)
    && (startPos == endPos ==>
          && id in UniverseOf(s, page, id)
          && TextProp(s, page, id).value.Runs?
          && 0 <= startPos < |TextProp(s, page, id).value.runs|)
  }

  /** The stores after `addSpanComponent({startIndex, endIndex, startNodePosition, endNodePosition})`. */
  function SpanAdded(s: Stores, page: Page, id: string, startIndex: int, endIndex: int, startPos: int, endPos: int,
                     counter: nat, split: SplitFn, across: AcrossFn): Stores
    requires AddSpanReady(s, page, id, startPos, endPos)
  {
    var t := UniverseOf(s, page, id);
    var p := UniversePropsOf(s, page, id);
    var ci := ChildrenAt(p, id).value;
    if startPos == endPos then
      var (lo, hi) := Ordered(startIndex, endIndex);
      PutUniverse(s, page, id, SpanInRun(t, p, id, ci, startPos, lo, hi, split, counter))
    else
      PutUniverse(s, page, id, across(PropsOf(p, id)[ci].id, p, t, startIndex, endIndex, endPos, startPos))
  }

  /** The single-run add with a fresh id: the span node is a `Box` leaf, last among `id`'s children, and no other node changes. */
  lemma SpanInRunTree(t: Tree, p: PropTable, id: string, ci: nat, pos: nat, lo: int, hi: int,
                      split: SplitFn, counter: nat)
    requires id in t && ci < |PropsOf(p, id)| && PropsOf(p, id)[ci].value.Runs?
    requires pos < |PropsOf(p, id)[ci].value.runs|
    requires IdOf(counter) !in t
    ensures var u := SpanInRun(t, p, id, ci, pos, lo, hi, split, counter);
      && u.tree.Keys == t.Keys + {IdOf(counter)}
      && u.tree[IdOf(counter)] == Component(IdOf(counter), "Box", id, [])
      && u.tree[id].children == t[id].children + [IdOf(counter)]
      && (forall k :: k in t && k != id ==> u.tree[k] == t[k])
  {
    AddNodeEffect(t, p, id, IdOf(counter), "Box", []);
  }

  /** The single-run add with a fresh id keeps a linked universe linked. */
  lemma SpanInRunLinked(t: Tree, p: PropTable, id: string, ci: nat, pos: nat, lo: int, hi: int,
                        split: SplitFn, counter: nat)
    requires Linked(t) && id in t && ci < |PropsOf(p, id)| && PropsOf(p, id)[ci].value.Runs?
    requires pos < |PropsOf(p, id)[ci].value.runs|
    requires IdOf(counter) !in t
    ensures Linked(SpanInRun(t, p, id, ci, pos, lo, hi, split, counter).tree)
  {
    AddNodeLinked(t, p, id, IdOf(counter), "Box", []);
  }

  /**
   * The single-run add: the span node owns exactly its two props, the run
   * at `pos` gives way to the split pieces with the runs before and after
   * in place, and no other prop changes.
   */
  lemma SpanInRunProps(t: Tree, p: PropTable, id: string, ci: nat, pos: nat, lo: int, hi: int,
                       split: SplitFn, counter: nat)
    requires id in t && ci < |PropsOf(p, id)| && PropsOf(p, id)[ci].value.Runs?
    requires pos < |PropsOf(p, id)[ci].value.runs|
    requires IdOf(counter) != id
    ensures var u := SpanInRun(t, p, id, ci, pos, lo, hi, split, counter);
      var runs := PropsOf(p, id)[ci].value.runs;
      && PropsOf(u.props, IdOf(counter)) == [PlainProp(IdOf(counter + 1), "as", Str("span")),
                                             PlainProp(IdOf(counter + 2), "children", Str(Substring(runs[pos], lo, hi)))]
      && |PropsOf(u.props, id)| == |PropsOf(p, id)|
      && PropsOf(u.props, id)[ci] == PropsOf(p, id)[ci].(value := Runs(runs[..pos] + split(runs[pos], lo, hi, IdOf(counter)) + runs[pos + 1..]))
      && (forall j :: 0 <= j < |PropsOf(p, id)| && j != ci ==> PropsOf(u.props, id)[j] == PropsOf(p, id)[j])
      && (forall k :: k != id && k != IdOf(counter) ==> PropsOf(u.props, k) == PropsOf(p, k))
  {
  }

  /** The two props of the single-run add that the text depends on: the new node's, and the cut run's. */
  lemma SpanInRunPropsAt(t: Tree, p: PropTable, id: string, ci: nat, pos: nat, lo: int, hi: int,
                         split: SplitFn, counter: nat)
    requires id in t && ci < |PropsOf(p, id)| && PropsOf(p, id)[ci].value.Runs?
    requires pos < |PropsOf(p, id)[ci].value.runs|
    requires IdOf(counter) != id
    ensures var u := SpanInRun(t, p, id, ci, pos, lo, hi, split, counter);
      var runs := PropsOf(p, id)[ci].value.runs;
      && PropsOf(u.props, IdOf(counter)) == [PlainProp(IdOf(counter + 1), "as", Str("span")),
                                             PlainProp(IdOf(counter + 2), "children", Str(Substring(runs[pos], lo, hi)))]
      && ci < |PropsOf(u.props, id)|
      && PropsOf(u.props, id)[ci].value == Runs(runs[..pos] + split(runs[pos], lo, hi, IdOf(counter)) + runs[pos + 1..])
  {
    SpanInRunProps(t, p, id, ci, pos, lo, hi, split, counter);
  }

  /**
   * Under the `splitArray` assumption, cutting a text run in range keeps
   * the text the sequence reads as: the span reads as the cut text. The
   * pieces around it must read as text (not name a node), and the owner
   * and the fresh id must not appear among the runs.
   */
  lemma SpanInRunKeepsText(t: Tree, p: PropTable, id: string, ci: nat, pos: nat, lo: int, hi: int,
                           split: SplitFn, counter: nat)
    requires SplitsAround(split)
    requires id in t && ci < |PropsOf(p, id)| && PropsOf(p, id)[ci].value.Runs?
    requires pos < |PropsOf(p, id)[ci].value.runs|
    requires IdOf(counter) !in t && IdOf(counter) != id
    requires var runs := PropsOf(p, id)[ci].value.runs;
      && 0 <= lo <= hi <= |runs[pos]| && runs[pos] !in t
      && runs[pos][..lo] !in t && runs[pos][hi..] !in t
      && runs[pos][..lo] != IdOf(counter) && runs[pos][hi..] != IdOf(counter)
      && id !in runs && IdOf(counter) !in runs
      && FindProp(PropsOf(p, id), "children") == Some(ci)
    ensures var u := SpanInRun(t, p, id, ci, pos, lo, hi, split, counter);
      var runs := PropsOf(p, id)[ci].value.runs;
      && ci < |PropsOf(u.props, id)| && PropsOf(u.props, id)[ci].value.Runs?
      && TextOf(PropsOf(u.props, id)[ci].value.runs, u.tree, u.props) == TextOf(runs, t, p)
  {
    var u := SpanInRun(t, p, id, ci, pos, lo, hi, split, counter);
    SpanInRunTree(t, p, id, ci, pos, lo, hi, split, counter);
    SpanInRunPropsAt(t, p, id, ci, pos, lo, hi, split, counter);
    SpanInRunAround(t, p, id, ci, pos, lo, hi, split, counter);
    var runs := PropsOf(p, id)[ci].value.runs;
    assert split(runs[pos], lo, hi, IdOf(counter)) == Piece(runs[pos][..lo]) + [IdOf(counter)] + Piece(runs[pos][hi..]);
    CutKeepsText(t, p, u.tree, u.props, runs, pos, lo, hi, IdOf(counter), IdOf(counter + 1), IdOf(counter + 2));
  }

  /** The text argument of `SpanInRunKeepsText`, over any pair of universes with the listed effects. */
  lemma CutKeepsText(t: Tree, p: PropTable, t': Tree, p': PropTable,
                     runs: seq<string>, pos: nat, lo: int, hi: int, newId: string, asId: string, textId: string)
    requires pos < |runs| && 0 <= lo <= hi <= |runs[pos]| && runs[pos] !in t
    requires t'.Keys == t.Keys + {newId}
    requires runs[pos][..lo] !in t && runs[pos][hi..] !in t
    requires runs[pos][..lo] != newId && runs[pos][hi..] != newId
    requires PropsOf(p', newId) == [PlainProp(asId, "as", Str("span")),
                                    PlainProp(textId, "children", Str(Substring(runs[pos], lo, hi)))]
    requires TextOf(runs[..pos], t', p') == TextOf(runs[..pos], t, p)
    requires TextOf(runs[pos + 1..], t', p') == TextOf(runs[pos + 1..], t, p)
    ensures TextOf(runs[..pos] + (Piece(runs[pos][..lo]) + [newId] + Piece(runs[pos][hi..])) + runs[pos + 1..], t', p')
         == TextOf(runs, t, p)
  {
    var s := runs[pos];
    PiecesRead(t, t', p', s, lo, hi, newId, asId, textId);
    assert RunText(s, t, p) == s;
    Recut(runs, pos);
    SpliceText(runs[..pos], s, Piece(s[..lo]) + [newId] + Piece(s[hi..]), runs[pos + 1..], t, p, t', p');
  }

  /** The pieces of a run cut around a fresh span node read as the run. */
  lemma PiecesRead(t: Tree, t': Tree, p': PropTable, s: string, lo: int, hi: int, newId: string, asId: string, textId: string)
    requires 0 <= lo <= hi <= |s|
    requires t'.Keys == t.Keys + {newId}
    requires s[..lo] !in t && s[hi..] !in t && s[..lo] != newId && s[hi..] != newId
    requires PropsOf(p', newId) == [PlainProp(asId, "as", Str("span")),
                                    PlainProp(textId, "children", Str(Substring(s, lo, hi)))]
    ensures TextOf(Piece(s[..lo]) + [newId] + Piece(s[hi..]), t', p') == s
  {
    SpanNodeReads(t', p', newId, asId, textId, Substring(s, lo, hi));
    StillAbsent(t, t', newId, s[..lo]);
    StillAbsent(t, t', newId, s[hi..]);
    CutReads(t', p', newId, s, lo, hi);
  }

  lemma Recut(runs: seq<string>, pos: nat)
    requires pos < |runs|
    ensures runs[..pos] + [runs[pos]] + runs[pos + 1..] == runs
  {
  }

  lemma StillAbsent(t: Tree, t': Tree, newId: string, k: string)
    requires t'.Keys == t.Keys + {newId} && k !in t && k != newId
    ensures k !in t'
  {
  }

  /** Replacing one run by pieces that read as it leaves the text unchanged. */
  lemma SpliceText(before: seq<string>, s: string, pieces: seq<string>, after: seq<string>,
                   t: Tree, p: PropTable, t': Tree, p': PropTable)
    requires TextOf(before, t', p') == TextOf(before, t, p)
    requires TextOf(after, t', p') == TextOf(after, t, p)
    requires TextOf(pieces, t', p') == RunText(s, t, p)
    ensures TextOf(before + pieces + after, t', p') == TextOf(before + [s] + after, t, p)
  {
    TextOfOne(s, t, p);
    TextOfAppend(before, pieces, t', p');
    TextOfAppend(before + pieces, after, t', p');
    TextOfAppend(before, [s], t, p);
    TextOfAppend(before + [s], after, t, p);
  }

  /** The runs around the cut read as before: neither the owner nor the new node is among them. */
  lemma SpanInRunAround(t: Tree, p: PropTable, id: string, ci: nat, pos: nat, lo: int, hi: int,
                        split: SplitFn, counter: nat)
    requires id in t && ci < |PropsOf(p, id)| && PropsOf(p, id)[ci].value.Runs?
    requires pos < |PropsOf(p, id)[ci].value.runs|
    requires IdOf(counter) !in t && IdOf(counter) != id
    requires var runs := PropsOf(p, id)[ci].value.runs; id !in runs && IdOf(counter) !in runs
    ensures var u := SpanInRun(t, p, id, ci, pos, lo, hi, split, counter);
      var runs := PropsOf(p, id)[ci].value.runs;
      && TextOf(runs[..pos], u.tree, u.props) == TextOf(runs[..pos], t, p)
      && TextOf(runs[pos + 1..], u.tree, u.props) == TextOf(runs[pos + 1..], t, p)
  {
    var u := SpanInRun(t, p, id, ci, pos, lo, hi, split, counter);
    var runs := PropsOf(p, id)[ci].value.runs;
    SpanInRunTree(t, p, id, ci, pos, lo, hi, split, counter);
    SpanInRunProps(t, p, id, ci, pos, lo, hi, split, counter);
    forall r | r in runs ensures RunText(r, u.tree, u.props) == RunText(r, t, p) {
      assert r != id && r != IdOf(counter);
      assert (r in u.tree) == (r in t);
      assert PropsOf(u.props, r) == PropsOf(p, r);
    }
    assert forall r :: r in runs[..pos] ==> r in runs;
    assert forall r :: r in runs[pos + 1..] ==> r in runs;
    TextOfAlike(runs[..pos], t, p, u.tree, u.props);
    TextOfAlike(runs[pos + 1..], t, p, u.tree, u.props);
  }

  /** The pieces of a cut run read as the run, when the span reads as the cut text. */
  lemma CutReads(tr: Tree, pr: PropTable, x: string, s: string, lo: int, hi: int)
    requires 0 <= lo <= hi <= |s| && s[..lo] !in tr && s[hi..] !in tr
    requires RunText(x, tr, pr) == s[lo..hi]
    ensures TextOf(Piece(s[..lo]) + [x] + Piece(s[hi..]), tr, pr) == s
  {
    var before, after := Piece(s[..lo]), Piece(s[hi..]);
    TextOfOne(x, tr, pr);
    PieceText(s[..lo], tr, pr);
    PieceText(s[hi..], tr, pr);
    TextOfThree(before, x, after, tr, pr);
    Recombine(s, lo, hi);
  }

  lemma Recombine(s: string, lo: int, hi: int)
    requires 0 <= lo <= hi <= |s|
    ensures s[..lo] + s[lo..hi] + s[hi..] == s
  {
    assert s[..lo] + s[lo..hi] == s[..hi];
  }

  lemma TextOfThree(a: seq<string>, x: string, b: seq<string>, t: Tree, p: PropTable)
    ensures TextOf(a + [x] + b, t, p) == TextOf(a, t, p) + TextOf([x], t, p) + TextOf(b, t, p)
  {
    TextOfAppend(a, [x], t, p);
    TextOfAppend(a + [x], b, t, p);
  }

  /** A span node reads as the text of its `children` prop. */
  lemma SpanNodeReads(tr: Tree, pr: PropTable, x: string, a: string, b: string, cropped: string)
    requires x in tr
    requires PropsOf(pr, x) == [PlainProp(a, "as", Str("span")), PlainProp(b, "children", Str(cropped))]
    ensures RunText(x, tr, pr) == cropped
  {
    var sp := PropsOf(pr, x);
    assert sp[..1][..0] == [];
    assert FindProp(sp, "children") == Some(1);
  }

  lemma TextOfOne(x: string, t: Tree, p: PropTable)
    ensures TextOf([x], t, p) == RunText(x, t, p)
  {
    assert [x][..0] == [];
  }

  /** A text piece reads as itself. */
  lemma PieceText(x: string, t: Tree, p: PropTable)
    requires x !in t
    ensures TextOf(Piece(x), t, p) == x
  {
    if x != "" {
      TextOfOne(x, t, p);
    }
  }

  /**
   * `addSpanComponent`: the span is added in the selected node's universe,
   * and its id is drawn first in both branches, its two prop ids after it
   * in the single-run branch.
   */
  method AddSpanComponent(st: ComponentsState, startIndex: int, endIndex: int, startPos: int, endPos: int,
                          split: SplitFn, across: AcrossFn)
    requires st.Valid() && AddSpanReady(st.AllStores(), st.pages[st.selectedPage], st.selectedId, startPos, endPos)
    modifies st
    ensures unchanged(st`pages, st`selectedPage, st`selectedId, st`hoveredId)
    ensures st.Valid()
    ensures st.AllStores() == old(SpanAdded(st.AllStores(), st.pages[st.selectedPage], st.selectedId, startIndex, endIndex,
                                            startPos, endPos, st.idCounter, split, across))
    ensures st.idCounter == old(st.idCounter) + if startPos == endPos then 3 else 1
  {
    var r := SpanAdded(st.AllStores(), st.pages[st.selectedPage], st.selectedId, startIndex, endIndex,
                       startPos, endPos, st.idCounter, split, across);
    Commit(st, r, st.idCounter + if startPos == endPos then 3 else 1);
  }

  // ------------------------------------------------------------ removeSpanComponent

  /** `removeSpanForSelection(childrenPropId, props, components, id, {start, end, startNodePosition, endNodePosition})`. */
  type RemoveFn = (string, PropTable, Tree, string, int, int, int, int) -> Universe

  /** `joinAdjacentTextNodes(prop, components)`: the prop's new value. */
  type JoinFn = (Prop, Tree) -> Value

  /** No two neighbouring runs are both text (a run naming a node is a span). */
  predicate NoAdjacentText(v: Value, t: Tree) {
    v.Runs? ==> forall i :: 0 <= i < |v.runs| - 1 ==> v.runs[i] in t || v.runs[i + 1] in t
  }

  /** Assumption: `joinAdjacentTextNodes` leaves no two neighbouring text runs. */
  ghost predicate JoinsText(join: JoinFn) {
    forall q: Prop, t: Tree :: NoAdjacentText(join(q, t), t)
  }

  /** What `removeSpanComponent` needs: the node's text before the helper runs, and after it. */
  ghost predicate RemoveSpanReady(s: Stores, page: Page, id: string, startIndex: int, endIndex: int, startPos: int, endPos: int,
                                  remove: RemoveFn)
  {
    && HasText(s, page, id)
    && var (lo, hi) := Ordered(startIndex, endIndex);
       var u := remove(TextProp(s, page, id).id, UniversePropsOf(s, page, id), UniverseOf(s, page, id), id, lo, hi, startPos, endPos);
       PropWithId(PropsOf(u.props, id), TextProp(s, page, id).id).Some?
  }

  /** The stores after `removeSpanComponent({startIndex, endIndex, startNodePosition, endNodePosition})`. */
  function SpanRemoved(s: Stores, page: Page, id: string, startIndex: int, endIndex: int, startPos: int, endPos: int,
                       remove: RemoveFn, join: JoinFn): Stores
    requires RemoveSpanReady(s, page, id, startIndex, endIndex, startPos, endPos, remove)
  {
    var (lo, hi) := Ordered(startIndex, endIndex);
    var pid := TextProp(s, page, id).id;
    var u := remove(pid, UniversePropsOf(s, page, id), UniverseOf(s, page, id), id, lo, hi, startPos, endPos);
    var j := PropWithId(PropsOf(u.props, id), pid).value;
    PutUniverse(s, page, id, Universe(u.tree, SetValue(u.props, id, j, join(PropsOf(u.props, id)[j], u.tree))))
  }

  /**
   * After `removeSpanComponent`, under the joining assumption, the text
   * prop holds no two neighbouring text runs, and it keeps its id and name.
   */
  lemma SpanRemovedJoined(s: Stores, page: Page, id: string, startIndex: int, endIndex: int, startPos: int, endPos: int,
                          remove: RemoveFn, join: JoinFn)
    requires JoinsText(join)
    requires RemoveSpanReady(s, page, id, startIndex, endIndex, startPos, endPos, remove)
    ensures var r := SpanRemoved(s, page, id, startIndex, endIndex, startPos, endPos, remove, join);
      && page.componentsId in r.componentsById && page.propsId in r.propsById
      && var w := Written(r, page, id in s.customComponents);
         && PropWithId(PropsOf(w.props, id), TextProp(s, page, id).id).Some?
         && NoAdjacentText(PropsOf(w.props, id)[PropWithId(PropsOf(w.props, id), TextProp(s, page, id).id).value].value, w.tree)
  {
    var (lo, hi) := Ordered(startIndex, endIndex);
    var pid := TextProp(s, page, id).id;
    var u := remove(pid, UniversePropsOf(s, page, id), UniverseOf(s, page, id), id, lo, hi, startPos, endPos);
    var j := PropWithId(PropsOf(u.props, id), pid).value;
    var p' := SetValue(u.props, id, j, join(PropsOf(u.props, id)[j], u.tree));
    PutUniverseWritten(s, page, id, Universe(u.tree, p'));
    assert PropWithId(PropsOf(p', id), pid) == Some(j) by {
      PropWithIdSameIds(PropsOf(u.props, id), PropsOf(p', id), pid);
    }
  }

  /** Lists with the same ids, position by position, answer every id search alike. */
  lemma {:induction false} PropWithIdSameIds(a: seq<Prop>, b: seq<Prop>, pid: string)
    requires |a| == |b| && forall i :: 0 <= i < |a| ==> a[i].id == b[i].id
    ensures PropWithId(a, pid) == PropWithId(b, pid)
  {
    if |a| > 0 {
      PropWithIdSameIds(a[..|a| - 1], b[..|b| - 1], pid);
    }
  }

  /** `removeSpanComponent`: the node's universe becomes `SpanRemoved`'s. */
  method RemoveSpanComponent(st: ComponentsState, startIndex: int, endIndex: int, startPos: int, endPos: int,
                             remove: RemoveFn, join: JoinFn)
    requires st.Valid() && RemoveSpanReady(st.AllStores(), st.pages[st.selectedPage], st.selectedId, startIndex, endIndex, startPos, endPos, remove)
    modifies st
    ensures unchanged(st`pages, st`selectedPage, st`selectedId, st`hoveredId, st`idCounter)
    ensures st.Valid()
    ensures st.AllStores() == old(SpanRemoved(st.AllStores(), st.pages[st.selectedPage], st.selectedId, startIndex, endIndex,
                                              startPos, endPos, remove, join))
  {
    var r := SpanRemoved(st.AllStores(), st.pages[st.selectedPage], st.selectedId, startIndex, endIndex, startPos, endPos, remove, join);
    Commit(st, r, st.idCounter);
  }

  // ------------------------------------------------------------ clearFormatting

  /** The runs that name a node of `t`. */
  function SpanIds(runs: seq<string>, t: Tree): set<string> {
    set r | r in runs && r in t
  }

  /** Every run naming a node has a node with its own `children` prop. */
  ghost predicate SpansHaveText(runs: seq<string>, t: Tree, p: PropTable) {
    forall r :: r in runs && r in t ==> ChildrenAt(p, r).Some?
  }

  /**
   * `clearFormatting`'s loop over the runs: the text gathered so far, and
   * the universe without the span nodes visited, each deleted with its props
   * (a repeated id is text once its node is gone). Exactly the nodes the
   * runs name are deleted; text runs delete nothing.
   */
  function Cleared(runs: seq<string>, t: Tree, p: PropTable): (r: (string, Tree, PropTable))
    requires SpansHaveText(runs, t, p)
    ensures r.1 == t - SpanIds(runs, t)
    ensures r.2 == p - SpanIds(runs, t)
    decreases |runs|
  {
    if runs == [] then ("", t, p)
    else
      var init := runs[..|runs| - 1];
      var x := runs[|runs| - 1];
      assert forall r :: r in init ==> r in runs;
      var acc := Cleared(init, t, p);
      SpanIdsSnoc(runs, t);
      if x in acc.1 then
        assert PropsOf(acc.2, x) == PropsOf(p, x);
        MinusOneMore(t, SpanIds(init, t), x);
        MinusOneMore(p, SpanIds(init, t), x);
        ClearRun(acc, x)
      else ClearRun(acc, x)
  }

  /** One turn of the loop: a span's text is appended and its node and props deleted; a text run is appended. */
  function ClearRun(acc: (string, Tree, PropTable), x: string): (string, Tree, PropTable)
    requires x in acc.1 ==> ChildrenAt(acc.2, x).Some?
  {
    var (v, t, p) := acc;
    if x in t then (v + JsString(PropsOf(p, x)[ChildrenAt(p, x).value].value), t - {x}, p - {x})
    else (v + x, t, p)
  }

  /** The loop's prefix step. */
  lemma ClearedPrefix(runs: seq<string>, i: nat, t: Tree, p: PropTable)
    requires i < |runs| && SpansHaveText(runs, t, p)
    ensures SpansHaveText(runs[..i], t, p) && SpansHaveText(runs[..i + 1], t, p)
    ensures var acc := Cleared(runs[..i], t, p);
      && (runs[i] in acc.1 ==> ChildrenAt(acc.2, runs[i]).Some?)
      && Cleared(runs[..i + 1], t, p) == ClearRun(acc, runs[i])
  {
    var prefix := runs[..i + 1];
    assert prefix[..|prefix| - 1] == runs[..i] && prefix[|prefix| - 1] == runs[i];
    assert forall r :: r in prefix ==> r in runs;
    assert forall r :: r in runs[..i] ==> r in runs;
  }

  lemma SpanIdsSnoc(runs: seq<string>, t: Tree)
    requires runs != []
    ensures SpanIds(runs, t) == SpanIds(runs[..|runs| - 1], t) + (if runs[|runs| - 1] in t then {runs[|runs| - 1]} else {})
  {
    assert runs == runs[..|runs| - 1] + [runs[|runs| - 1]];
  }

  lemma MinusOneMore<V>(m: map<string, V>, a: set<string>, x: string)
    ensures m - a - {x} == m - (a + {x})
  {
  }

  /** `clearFormatting`'s `forEach`, with the string it builds and the deletions it makes. */
  method ClearLoop(runs: seq<string>, t: Tree, p: PropTable) returns (text: string, tree: Tree, props: PropTable)
    requires SpansHaveText(runs, t, p)
    ensures (text, tree, props) == Cleared(runs, t, p)
  {
    text, tree, props := "", t, p;
    var i := 0;
    while i < |runs|
      invariant 0 <= i <= |runs|
      invariant SpansHaveText(runs[..i], t, p)
      invariant (text, tree, props) == Cleared(runs[..i], t, p)
    {
      ClearedPrefix(runs, i, t, p);
      var x := runs[i];
      if x in tree {
        var ps := PropsOf(props, x);
        text := text + JsString(ps[FindProp(ps, "children").value].value);
        tree := tree - {x};
        props := props - {x};
      } else {
        text := text + x;
      }
      i := i + 1;
    }
    assert runs[..i] == runs;
  }

  /**
   * Each id run naming a component occurs once. A later occurrence of a
   * span id would read as literal text, because the first one deleted the
   * node; text runs may repeat freely.
   */
  predicate SpansOnce(runs: seq<string>, t: Tree) {
    forall i, j :: 0 <= i < j < |runs| && runs[i] in t ==> runs[i] != runs[j]
  }

  /** With every span named once, the gathered string is the text the runs read as. */
  lemma {:induction false} ClearedReadsText(runs: seq<string>, t: Tree, p: PropTable)
    requires SpansHaveText(runs, t, p) && SpansOnce(runs, t)
    ensures Cleared(runs, t, p).0 == TextOf(runs, t, p)
    decreases |runs|
  {
    if runs != [] {
      var init := runs[..|runs| - 1];
      var x := runs[|runs| - 1];
      assert forall r :: r in init ==> r in runs;
      assert SpansOnce(init, t) by {
        forall i, j | 0 <= i < j < |init| && init[i] in t ensures init[i] != init[j] {
          assert init[i] == runs[i] && init[j] == runs[j];
        }
      }
      ClearedReadsText(init, t, p);
      var c := Cleared(init, t, p);
      if x in t {
        assert x !in init by {
          forall i | 0 <= i < |init| ensures init[i] != x {
            assert init[i] == runs[i];
          }
        }
        assert x in c.1;
        assert PropsOf(c.2, x) == PropsOf(p, x);
      } else {
        assert x !in c.1;
      }
    }
  }

  /** Text runs may repeat: `["a", span, "a"]` has its span named once, though its runs are not distinct. */
  lemma RepeatedTextSpansOnce(t: Tree, span: string)
    requires span in t && "a" !in t
    ensures SpansOnce(["a", span, "a"], t) && !Seqs.NoDup(["a", span, "a"])
  {
    var r := ["a", span, "a"];
    assert r[0] == r[2];
  }

  /** What `clearFormatting` needs: the node's text, its spans' texts, and a text that does not name the node itself. */
  ghost predicate ClearReady(s: Stores, page: Page, id: string) {
    && HasText(s, page, id)
    && var v := TextProp(s, page, id).value;
       var t := UniverseOf(s, page, id);
       (if v.Runs? then SpansHaveText(v.runs, t, UniversePropsOf(s, page, id)) && id !in SpanIds(v.runs, t)
        else v.Str?)
  }

  /**
   * The stores after `clearFormatting()` as written: each span node is
   * deleted, but its id stays in the selected node's `children` list, where
   * `addSpanComponent` pushed it.
   */
  function FormattingClearedAsWritten(s: Stores, page: Page, id: string): (r: Stores)
    requires ClearReady(s, page, id)
    ensures page.componentsId in r.componentsById && page.propsId in r.propsById
  {
    var t := UniverseOf(s, page, id);
    var p := UniversePropsOf(s, page, id);
    var ci := ChildrenAt(p, id).value;
    var v := PropsOf(p, id)[ci].value;
    if v.Runs? then
      var (text, t1, p1) := Cleared(v.runs, t, p);
      assert PropsOf(p1, id) == PropsOf(p, id);
      PutUniverse(s, page, id, Universe(t1, SetValue(p1, id, ci, Runs([text]))))
    else
      PutUniverse(s, page, id, Universe(t, SetValue(p, id, ci, Runs([v.s]))))
  }

  /**
   * As written, a span listed among the node's children is left dangling:
   * the node still lists it, but it is no longer in the universe, so the
   * tree is not linked any more.
   */
  lemma FormattingClearedAsWrittenDangles(s: Stores, page: Page, id: string, x: string)
    requires ClearReady(s, page, id) && TextProp(s, page, id).value.Runs?
    requires x in SpanIds(TextProp(s, page, id).value.runs, UniverseOf(s, page, id))
    requires id in UniverseOf(s, page, id) && x in UniverseOf(s, page, id)[id].children
    ensures var r := FormattingClearedAsWritten(s, page, id);
      && page.componentsId in r.componentsById
      && var w := Written(r, page, id in s.customComponents);
         id in w.tree && x in w.tree[id].children && x !in w.tree && !ChildrenPointBack(w.tree)
  {
    var t := UniverseOf(s, page, id);
    var p := UniversePropsOf(s, page, id);
    var ci := ChildrenAt(p, id).value;
    var v := PropsOf(p, id)[ci].value;
    var c := Cleared(v.runs, t, p);
    assert PropsOf(c.2, id) == PropsOf(p, id);
    var u := Universe(c.1, SetValue(c.2, id, ci, Runs([c.0])));
    PutUniverseWritten(s, page, id, u);
    assert Written(FormattingClearedAsWritten(s, page, id), page, id in s.customComponents).tree == c.1;
    ClearedTreeDangles(v.runs, t, p, id, x);
  }

  /** The loop's tree keeps the node's record, listing the deleted span. */
  lemma ClearedTreeDangles(runs: seq<string>, t: Tree, p: PropTable, id: string, x: string)
    requires SpansHaveText(runs, t, p) && id !in SpanIds(runs, t) && x in SpanIds(runs, t)
    requires id in t && x in t[id].children
    ensures var c := Cleared(runs, t, p).1;
      id in c && x in c[id].children && x !in c && !ChildrenPointBack(c)
  {
    var c := Cleared(runs, t, p).1;
    assert id in c && c[id] == t[id];
  }

  /** `t` with the ids `xs` dropped from `id`'s children (the step `clearFormatting` misses). */
  function Unlisted(t: Tree, id: string, xs: set<string>): (r: Tree)
    ensures r.Keys == t.Keys
    ensures id in t ==> r[id] == t[id].(children := RemoveEach(t[id].children, xs))
    ensures forall k :: k in t && k != id ==> r[k] == t[k]
  {
    if id in t then t[id := t[id].(children := RemoveEach(t[id].children, xs))] else t
  }

  /**
   * The span nodes of a universe are leaves under the node they format
   * (as `addSpanComponent` creates them).
   */
  ghost predicate SpansAreLeaves(t: Tree, id: string, xs: set<string>) {
    forall x :: x in xs && x in t ==> t[x].parent == id && t[x].children == []
  }

  /** Deleting leaf spans and unlisting them from their node keeps a linked universe linked. */
  lemma UnlistedLinked(t: Tree, id: string, xs: set<string>)
    requires Linked(t) && id in t && id !in xs && SpansAreLeaves(t, id, xs)
    ensures Linked(Unlisted(t - xs, id, xs))
  {
    var r := Unlisted(t - xs, id, xs);
    RemoveEachNoDup(t[id].children, xs);
    forall x | x in r ensures forall c :: c in r[x].children ==> c in r && r[c].parent == x {
      forall c | c in r[x].children ensures c in r && r[c].parent == x {
        UnlistedPointBackAt(t, id, xs, x, c);
      }
    }
    forall x | x in r && r[x].parent != "" ensures r[x].parent in r && x in r[r[x].parent].children {
      UnlistedParentAt(t, id, xs, x);
    }
  }

  lemma UnlistedPointBackAt(t: Tree, id: string, xs: set<string>, x: string, c: string)
    requires ChildrenPointBack(t) && id in t && id !in xs && SpansAreLeaves(t, id, xs)
    requires x in t && x !in xs && c in Unlisted(t - xs, id, xs)[x].children
    ensures c in Unlisted(t - xs, id, xs) && Unlisted(t - xs, id, xs)[c].parent == x
  {
    assert c in t[x].children && c in t && t[c].parent == x;
    if x != id {
      // a span's parent is `id`, so a child of another node is no span
      assert c !in xs;
    }
  }

  lemma UnlistedParentAt(t: Tree, id: string, xs: set<string>, x: string)
    requires ParentsList(t) && id in t && id !in xs && SpansAreLeaves(t, id, xs)
    requires x in t && x !in xs && t[x].parent != ""
    ensures t[x].parent in Unlisted(t - xs, id, xs)
    ensures x in Unlisted(t - xs, id, xs)[t[x].parent].children
  {
    var q := t[x].parent;
    assert q in t && x in t[q].children;
    // a span has no children, so `x`'s parent is no span
    assert q !in xs;
  }

  /**
   * The stores after `clearFormatting()`, with the span ids also dropped
   * from the node's `children` list, which the rest of the model uses.
   */
  function FormattingCleared(s: Stores, page: Page, id: string): Stores
    requires ClearReady(s, page, id)
  {
    var t := UniverseOf(s, page, id);
    var p := UniversePropsOf(s, page, id);
    var ci := ChildrenAt(p, id).value;
    var v := PropsOf(p, id)[ci].value;
    if v.Runs? then
      var (text, t1, p1) := Cleared(v.runs, t, p);
      assert PropsOf(p1, id) == PropsOf(p, id);
      PutUniverse(s, page, id, Universe(Unlisted(t1, id, SpanIds(v.runs, t)), SetValue(p1, id, ci, Runs([text]))))
    else
      PutUniverse(s, page, id, Universe(t, SetValue(p, id, ci, Runs([v.s]))))
  }

  /**
   * After `clearFormatting` the text prop holds one run: the old string,
   * or, for a run sequence naming each span once, the text it read as;
   * every node the runs named is gone with its props and unlisted from the
   * node's children, and nothing else changes.
   */
  lemma FormattingClearedEffect(s: Stores, page: Page, id: string)
    requires ClearReady(s, page, id)
    ensures var r := FormattingCleared(s, page, id);
      var v := TextProp(s, page, id).value;
      var t := UniverseOf(s, page, id);
      var p := UniversePropsOf(s, page, id);
      var ci := ChildrenAt(p, id).value;
      && page.componentsId in r.componentsById && page.propsId in r.propsById
      && var w := Written(r, page, id in s.customComponents);
         && |PropsOf(w.props, id)| == |PropsOf(p, id)|
         && PropsOf(w.props, id)[ci] == PropsOf(p, id)[ci].(value := PropsOf(w.props, id)[ci].value)
         && PropsOf(w.props, id)[ci].value.Runs? && |PropsOf(w.props, id)[ci].value.runs| == 1
         && (v.Str? ==> PropsOf(w.props, id)[ci].value.runs[0] == v.s && w.tree == t)
         && (v.Runs? && SpansOnce(v.runs, t) ==> PropsOf(w.props, id)[ci].value.runs[0] == TextOf(v.runs, t, p))
         && (v.Runs? ==> && w.tree.Keys == t.Keys - SpanIds(v.runs, t)
                         && (id in t ==> w.tree[id].children == RemoveEach(t[id].children, SpanIds(v.runs, t)))
                         && (forall k :: k in w.tree && k != id ==> w.tree[k] == t[k]))
         && (forall k :: k != id && k !in SpanIds(if v.Runs? then v.runs else [], t) ==> PropsOf(w.props, k) == PropsOf(p, k))
  {
    var t := UniverseOf(s, page, id);
    var p := UniversePropsOf(s, page, id);
    var ci := ChildrenAt(p, id).value;
    var v := PropsOf(p, id)[ci].value;
    if v.Runs? {
      var c := Cleared(v.runs, t, p);
      assert PropsOf(c.2, id) == PropsOf(p, id);
      PutUniverseWritten(s, page, id, Universe(Unlisted(c.1, id, SpanIds(v.runs, t)), SetValue(c.2, id, ci, Runs([c.0]))));
      if SpansOnce(v.runs, t) {
        ClearedReadsText(v.runs, t, p);
      }
    } else {
      PutUniverseWritten(s, page, id, Universe(t, SetValue(p, id, ci, Runs([v.s]))));
    }
  }

  /** Clearing the formatting of a linked universe whose spans are leaves under the node keeps it linked. */
  lemma FormattingClearedLinked(s: Stores, page: Page, id: string)
    requires ClearReady(s, page, id) && Linked(UniverseOf(s, page, id)) && id in UniverseOf(s, page, id)
    requires TextProp(s, page, id).value.Runs? ==>
      SpansAreLeaves(UniverseOf(s, page, id), id, SpanIds(TextProp(s, page, id).value.runs, UniverseOf(s, page, id)))
    ensures var r := FormattingCleared(s, page, id);
      && page.componentsId in r.componentsById
      && Linked(Written(r, page, id in s.customComponents).tree)
  {
    var t := UniverseOf(s, page, id);
    var p := UniversePropsOf(s, page, id);
    var ci := ChildrenAt(p, id).value;
    var v := PropsOf(p, id)[ci].value;
    if v.Runs? {
      var c := Cleared(v.runs, t, p);
      assert PropsOf(c.2, id) == PropsOf(p, id);
      PutUniverseWritten(s, page, id, Universe(Unlisted(c.1, id, SpanIds(v.runs, t)), SetValue(c.2, id, ci, Runs([c.0]))));
      UnlistedLinked(t, id, SpanIds(v.runs, t));
    } else {
      PutUniverseWritten(s, page, id, Universe(t, SetValue(p, id, ci, Runs([v.s]))));
    }
  }

  /** `clearFormatting()`: the loop over the runs, then one write-back into the node's universe. */
  method ClearFormatting(st: ComponentsState)
    requires st.Valid() && ClearReady(st.AllStores(), st.pages[st.selectedPage], st.selectedId)
    modifies st
    ensures unchanged(st`pages, st`selectedPage, st`selectedId, st`hoveredId, st`idCounter)
    ensures st.Valid()
    ensures st.AllStores() == old(FormattingCleared(st.AllStores(), st.pages[st.selectedPage], st.selectedId))
  {
    var s := st.AllStores();
    var page := st.pages[st.selectedPage];
    var id := st.selectedId;
    var t := UniverseOf(s, page, id);
    var p := UniversePropsOf(s, page, id);
    var ci := ChildrenAt(p, id).value;
    var v := PropsOf(p, id)[ci].value;
    var r: Stores;
    if v.Runs? {
      var text, t1, p1 := ClearLoop(v.runs, t, p);
      if id in t1 {
        t1 := t1[id := t1[id].(children := RemoveEach(t1[id].children, SpanIds(v.runs, t)))];
      }
      r := PutUniverse(s, page, id, Universe(t1, SetValue(p1, id, ci, Runs([text]))));
    } else {
      r := PutUniverse(s, page, id, Universe(t, SetValue(p, id, ci, Runs([v.s]))));
    }
    assert r == FormattingCleared(s, page, id);
    Commit(st, r, st.idCounter);
  }
}
