/**
 * What rewriting an event from a cross-origin iframe produces, given the iframe's final id
 * tables: which kinds are dropped, which pass through, and which id-bearing fields are renamed.
 */
module IframeRewrite {
  import opened Wrappers
  import opened SnapshotTypes
  import opened SnapshotUtils
  import opened EventTypes
  import opened CrossOriginMirror

  /** The translated id of `id`; an id the table does not bind is left as it is. */
  function Rename(t: map<int, int>, id: int): int {
    if id in t then t[id] else id
  }

  /** `t1` and `t2` translate every id of `s` alike. */
  ghost predicate Agree(t1: map<int, int>, t2: map<int, int>, s: set<int>) {
    forall k :: k in s ==> Rename(t1, k) == Rename(t2, k)
  }

  lemma ExtendsAgree(t1: map<int, int>, t2: map<int, int>, s: set<int>)
    requires Extends(t1, t2) && s <= t1.Keys
    ensures Agree(t1, t2, s)
  {
  }

  /** A null or missing id is not a number, so it is left alone. */
  function RenameOpt(t: map<int, int>, o: Option<int>): Option<int> {
    if o.Some? then Some(Rename(t, o.value)) else None
  }

  function OptIds(o: Option<int>): set<int> {
    if o.Some? then {o.value} else {}
  }

  function RenameMaybe(t: map<int, int>, m: MaybeId): MaybeId {
    if m.Id? then Id(Rename(t, m.n)) else m
  }

  function MaybeIds(m: MaybeId): set<int> {
    if m.Id? then {m.n} else {}
  }

  /** An array of ids is translated element by element. */
  function RenameAll(t: map<int, int>, ids: seq<int>): (r: seq<int>)
    ensures |r| == |ids|
  {
    seq(|ids|, i requires 0 <= i < |ids| => Rename(t, ids[i]))
  }

  /** The union of `f` over the elements of `xs`. */
  function UnionOver<T>(xs: seq<T>, f: T -> set<int>): set<int> {
    set j, x | 0 <= j < |xs| && x in f(xs[j]) :: x
  }

  lemma UnionOverSnoc<T>(xs: seq<T>, i: nat, f: T -> set<int>)
    requires i < |xs|
    ensures UnionOver(xs[..i + 1], f) == UnionOver(xs[..i], f) + f(xs[i])
  {
    var a := UnionOver(xs[..i + 1], f);
    var b := UnionOver(xs[..i], f) + f(xs[i]);
    forall x | x in a ensures x in b {
      var j :| 0 <= j < i + 1 && x in f(xs[..i + 1][j]);
      if j < i {
        assert xs[..i + 1][j] == xs[..i][j];
      }
    }
    forall x | x in b ensures x in a {
      if x in f(xs[i]) {
        assert xs[..i + 1][i] == xs[i];
      } else {
        var j :| 0 <= j < i && x in f(xs[..i][j]);
        assert xs[..i + 1][j] == xs[..i][j];
      }
    }
  }

  lemma UnionOverAll<T>(xs: seq<T>, f: T -> set<int>)
    ensures UnionOver(xs[..|xs|], f) == UnionOver(xs, f)
  {
    assert xs[..|xs|] == xs;
  }

  lemma UnionOverMember<T>(xs: seq<T>, j: nat, f: T -> set<int>)
    requires j < |xs|
    ensures f(xs[j]) <= UnionOver(xs, f)
  {
    forall x | x in f(xs[j]) ensures x in UnionOver(xs, f) {
      assert 0 <= j < |xs| && x in f(xs[j]);
    }
  }

  // ----- serialized node trees -----

  /** The ids of a serialized node and of all its descendants. */
  function NodeIds(n: SerializedNode): set<int>
    decreases n
  {
    var cs := ChildNodes(n);
    {n.id} + set j, x | 0 <= j < |cs| && x in NodeIds(cs[j]) :: x
  }

  function TreeForestIds(cs: seq<SerializedNode>): set<int> {
    UnionOver(cs, NodeIds)
  }

  lemma NodeIdsUnfold(n: SerializedNode)
    ensures NodeIds(n) == {n.id} + TreeForestIds(ChildNodes(n))
  {
  }

  /** `replaceIdOnNode`: every node of the subtree gets its id translated. */
  function RewriteNode(t: map<int, int>, n: SerializedNode): (r: SerializedNode)
    decreases n
  {
    var cs := ChildNodes(n);
    if TypeOf(n.kind) == Document || TypeOf(n.kind) == Element then
      WithChildNodes(n.(id := Rename(t, n.id)), seq(|cs|, j requires 0 <= j < |cs| => RewriteNode(t, cs[j])))
    else
      n.(id := Rename(t, n.id))
  }

  function RewriteForest(t: map<int, int>, cs: seq<SerializedNode>): seq<SerializedNode> {
    seq(|cs|, j requires 0 <= j < |cs| => RewriteNode(t, cs[j]))
  }

  lemma RewriteForestStable(t1: map<int, int>, t2: map<int, int>, cs: seq<SerializedNode>)
    requires Agree(t1, t2, TreeForestIds(cs))
    ensures RewriteForest(t1, cs) == RewriteForest(t2, cs)
  {
    forall j | 0 <= j < |cs| ensures RewriteNode(t1, cs[j]) == RewriteNode(t2, cs[j]) {
      UnionOverMember(cs, j, NodeIds);
      RewriteNodeStable(t1, t2, cs[j]);
    }
  }

  /** One more child rewritten: the forest so far keeps its translation while the table grows by the child's ids. */
  lemma ForestStep(t1: map<int, int>, before: map<int, int>, after: map<int, int>, cs: seq<SerializedNode>, i: nat)
    requires i < |cs|
    requires Grew(t1, before, TreeForestIds(cs[..i])) && Grew(before, after, NodeIds(cs[i]))
    ensures Grew(t1, after, TreeForestIds(cs[..i + 1]))
    ensures RewriteForest(after, cs[..i + 1]) == RewriteForest(before, cs[..i]) + [RewriteNode(after, cs[i])]
  {
    UnionOverSnoc(cs, i, NodeIds);
    GrewTransitive(t1, before, after, TreeForestIds(cs[..i]), NodeIds(cs[i]));
    ExtendsAgree(before, after, TreeForestIds(cs[..i]));
    RewriteForestStable(before, after, cs[..i]);
    RewriteForestSnoc(after, cs, i);
  }

  lemma RewriteForestSnoc(t: map<int, int>, cs: seq<SerializedNode>, i: nat)
    requires i < |cs|
    ensures RewriteForest(t, cs[..i + 1]) == RewriteForest(t, cs[..i]) + [RewriteNode(t, cs[i])]
  {
    var a, b := RewriteForest(t, cs[..i + 1]), RewriteForest(t, cs[..i]) + [RewriteNode(t, cs[i])];
    forall j | 0 <= j < |a| ensures a[j] == b[j] {
      assert cs[..i + 1][j] == cs[j];
    }
  }

  /** A node rebuilt from its translated id and its translated children is the translated node. */
  lemma RewriteNodeFromParts(t: map<int, int>, n: SerializedNode, id: int, out: seq<SerializedNode>)
    requires id == Rename(t, n.id) && out == RewriteForest(t, ChildNodes(n))
    ensures (if TypeOf(n.kind) == Document || TypeOf(n.kind) == Element
             then WithChildNodes(n.(id := id), out) else n.(id := id)) == RewriteNode(t, n)
  {
  }

  lemma ChildNodesOfRewrite(t: map<int, int>, n: SerializedNode)
    ensures ChildNodes(RewriteNode(t, n)) == RewriteForest(t, ChildNodes(n))
  {
  }

  /** Only ids change: the rewritten node has the original's type, fields and number of children. */
  lemma RewriteNodeKeepsMeta(t: map<int, int>, n: SerializedNode)
    ensures IsNodeMetaEqual(RewriteNode(t, n), n)
    ensures RewriteNode(t, n).id == Rename(t, n.id)
    ensures |ChildNodes(RewriteNode(t, n))| == |ChildNodes(n)|
  {
  }

  /** Translating a tree depends only on how its own ids are translated. */
  lemma {:induction false} RewriteNodeStable(t1: map<int, int>, t2: map<int, int>, n: SerializedNode)
    requires Agree(t1, t2, NodeIds(n))
    ensures RewriteNode(t1, n) == RewriteNode(t2, n)
    decreases n
  {
    var cs := ChildNodes(n);
    forall j | 0 <= j < |cs|
      ensures RewriteNode(t1, cs[j]) == RewriteNode(t2, cs[j])
    {
      assert NodeIds(cs[j]) <= NodeIds(n);
      RewriteNodeStable(t1, t2, cs[j]);
    }
    if TypeOf(n.kind) == Document || TypeOf(n.kind) == Element {
      assert RewriteForest(t1, cs) == RewriteForest(t2, cs);
    }
  }

  /** A table that binds each id of the tree to itself leaves the tree unchanged. */
  lemma {:induction false} RewriteNodeIdentity(t: map<int, int>, n: SerializedNode)
    requires forall k :: k in NodeIds(n) ==> Rename(t, k) == k
    ensures RewriteNode(t, n) == n
    decreases n
  {
    var cs := ChildNodes(n);
    forall j | 0 <= j < |cs|
      ensures RewriteNode(t, cs[j]) == cs[j]
    {
      assert NodeIds(cs[j]) <= NodeIds(n);
      RewriteNodeIdentity(t, cs[j]);
    }
    if TypeOf(n.kind) == Document || TypeOf(n.kind) == Element {
      assert RewriteForest(t, cs) == cs;
      assert n.kind.childNodes == cs;
    }
  }

  /** Ids of the rewritten tree are exactly the translations of the original's ids. */
  lemma {:induction false} RewriteNodeIds(t: map<int, int>, n: SerializedNode)
    ensures NodeIds(RewriteNode(t, n)) == set k | k in NodeIds(n) :: Rename(t, k)
    decreases n
  {
    var cs := ChildNodes(n);
    var r := RewriteNode(t, n);
    ChildNodesOfRewrite(t, n);
    var rcs := ChildNodes(r);
    forall j | 0 <= j < |cs|
      ensures NodeIds(rcs[j]) == set k | k in NodeIds(cs[j]) :: Rename(t, k)
    {
      RewriteNodeIds(t, cs[j]);
    }
    NodeIdsFamily(n);
    NodeIdsFamily(r);
    RenameUnion(t, n.id, ChildIdSets(cs), ChildIdSets(rcs));
  }

  /** The id set of each tree of a forest. */
  function ChildIdSets(cs: seq<SerializedNode>): (r: seq<set<int>>)
    ensures |r| == |cs| && forall j :: 0 <= j < |cs| ==> r[j] == NodeIds(cs[j])
  {
    seq(|cs|, j requires 0 <= j < |cs| => NodeIds(cs[j]))
  }

  /** A tree's ids are its root's id and the union of its children's id sets. */
  lemma NodeIdsFamily(n: SerializedNode)
    ensures var a := ChildIdSets(ChildNodes(n));
      NodeIds(n) == {n.id} + set j, x | 0 <= j < |a| && x in a[j] :: x
  {
    var cs := ChildNodes(n);
    var a := ChildIdSets(cs);
    var u := set j, x | 0 <= j < |a| && x in a[j] :: x;
    var v := set j, x | 0 <= j < |cs| && x in NodeIds(cs[j]) :: x;
    forall x | x in u ensures x in v {
      var j :| 0 <= j < |a| && x in a[j];
      assert x in NodeIds(cs[j]);
    }
    forall x | x in v ensures x in u {
      var j :| 0 <= j < |cs| && x in NodeIds(cs[j]);
      assert x in a[j];
    }
    assert NodeIds(n) == {n.id} + v;
  }

  /** Renaming a root id and a family of child id sets renames their union. */
  lemma RenameUnion(t: map<int, int>, id: int, a: seq<set<int>>, b: seq<set<int>>)
    requires |a| == |b|
    requires forall j :: 0 <= j < |a| ==> b[j] == set k | k in a[j] :: Rename(t, k)
    ensures {Rename(t, id)} + (set j, x | 0 <= j < |b| && x in b[j] :: x) ==
      set k | k in {id} + (set j, x | 0 <= j < |a| && x in a[j] :: x) :: Rename(t, k)
  {
    var lhs := {Rename(t, id)} + (set j, x | 0 <= j < |b| && x in b[j] :: x);
    var dom := {id} + (set j, x | 0 <= j < |a| && x in a[j] :: x);
    var rhs := set k | k in dom :: Rename(t, k);
    forall x | x in lhs ensures x in rhs {
      if x != Rename(t, id) {
        var j :| 0 <= j < |b| && x in b[j];
        var k :| k in a[j] && x == Rename(t, k);
        assert k in dom;
      }
    }
    forall x | x in rhs ensures x in lhs {
      var k :| k in dom && x == Rename(t, k);
      if k != id {
        var j :| 0 <= j < |a| && k in a[j];
        assert x in b[j];
      }
    }
  }

  // ----- mutation records -----

  /** `replaceIds(n, ['parentId', 'nextId', 'previousId'])` followed by `replaceIdOnNode(n.node)`. */
  function RewriteAdd(t: map<int, int>, a: AddedNode): AddedNode {
    a.(parentId := Rename(t, a.parentId), nextId := RenameOpt(t, a.nextId),
       previousId := RenameMaybe(t, a.previousId), node := RewriteNode(t, a.node))
  }

  function AddIds(a: AddedNode): set<int> {
    {a.parentId} + OptIds(a.nextId) + MaybeIds(a.previousId) + NodeIds(a.node)
  }

  function RewriteRemove(t: map<int, int>, r: RemovedNode): RemovedNode {
    r.(parentId := Rename(t, r.parentId), id := Rename(t, r.id))
  }

  function RemoveIds(r: RemovedNode): set<int> {
    {r.parentId, r.id}
  }

  function RewriteAttribute(t: map<int, int>, a: AttributeMutation): AttributeMutation {
    a.(id := Rename(t, a.id))
  }

  function AttributeIds(a: AttributeMutation): set<int> {
    {a.id}
  }

  function RewriteText(t: map<int, int>, x: TextMutation): TextMutation {
    x.(id := Rename(t, x.id))
  }

  function TextIds(x: TextMutation): set<int> {
    {x.id}
  }

  function RewritePosition(t: map<int, int>, p: MousePosition): MousePosition {
    p.(id := Rename(t, p.id))
  }

  function PositionIds(p: MousePosition): set<int> {
    {p.id}
  }

  function RewriteRange(t: map<int, int>, r: SelectionRange): SelectionRange {
    r.(start := Rename(t, r.start), end := Rename(t, r.end))
  }

  function RangeIds(r: SelectionRange): set<int> {
    {r.start, r.end}
  }

  function RewriteStyle(st: map<int, int>, s: AdoptedStyle): AdoptedStyle {
    s.(styleId := Rename(st, s.styleId))
  }

  function StyleIds(s: AdoptedStyle): set<int> {
    {s.styleId}
  }

  function RewriteAdds(t: map<int, int>, xs: seq<AddedNode>): seq<AddedNode> {
    seq(|xs|, j requires 0 <= j < |xs| => RewriteAdd(t, xs[j]))
  }

  function RewriteRemoves(t: map<int, int>, xs: seq<RemovedNode>): seq<RemovedNode> {
    seq(|xs|, j requires 0 <= j < |xs| => RewriteRemove(t, xs[j]))
  }

  function RewriteAttributes(t: map<int, int>, xs: seq<AttributeMutation>): seq<AttributeMutation> {
    seq(|xs|, j requires 0 <= j < |xs| => RewriteAttribute(t, xs[j]))
  }

  function RewriteTexts(t: map<int, int>, xs: seq<TextMutation>): seq<TextMutation> {
    seq(|xs|, j requires 0 <= j < |xs| => RewriteText(t, xs[j]))
  }

  function RewritePositions(t: map<int, int>, xs: seq<MousePosition>): seq<MousePosition> {
    seq(|xs|, j requires 0 <= j < |xs| => RewritePosition(t, xs[j]))
  }

  function RewriteRanges(t: map<int, int>, xs: seq<SelectionRange>): seq<SelectionRange> {
    seq(|xs|, j requires 0 <= j < |xs| => RewriteRange(t, xs[j]))
  }

  function RewriteStyles(st: map<int, int>, xs: seq<AdoptedStyle>): seq<AdoptedStyle> {
    seq(|xs|, j requires 0 <= j < |xs| => RewriteStyle(st, xs[j]))
  }

  lemma RewriteAddStable(t1: map<int, int>, t2: map<int, int>, a: AddedNode)
    requires Agree(t1, t2, AddIds(a))
    ensures RewriteAdd(t1, a) == RewriteAdd(t2, a)
  {
    RewriteNodeStable(t1, t2, a.node);
  }

  lemma RewriteAddsStable(t1: map<int, int>, t2: map<int, int>, xs: seq<AddedNode>)
    requires Agree(t1, t2, UnionOver(xs, AddIds))
    ensures RewriteAdds(t1, xs) == RewriteAdds(t2, xs)
  {
    forall j | 0 <= j < |xs| ensures RewriteAdd(t1, xs[j]) == RewriteAdd(t2, xs[j]) {
      UnionOverMember(xs, j, AddIds);
      RewriteAddStable(t1, t2, xs[j]);
    }
  }

  lemma RewriteRemovesStable(t1: map<int, int>, t2: map<int, int>, xs: seq<RemovedNode>)
    requires Agree(t1, t2, UnionOver(xs, RemoveIds))
    ensures RewriteRemoves(t1, xs) == RewriteRemoves(t2, xs)
  {
    forall j | 0 <= j < |xs| ensures RewriteRemove(t1, xs[j]) == RewriteRemove(t2, xs[j]) {
      UnionOverMember(xs, j, RemoveIds);
    }
  }

  lemma RewriteAttributesStable(t1: map<int, int>, t2: map<int, int>, xs: seq<AttributeMutation>)
    requires Agree(t1, t2, UnionOver(xs, AttributeIds))
    ensures RewriteAttributes(t1, xs) == RewriteAttributes(t2, xs)
  {
    forall j | 0 <= j < |xs| ensures RewriteAttribute(t1, xs[j]) == RewriteAttribute(t2, xs[j]) {
      UnionOverMember(xs, j, AttributeIds);
    }
  }

  lemma RewriteTextsStable(t1: map<int, int>, t2: map<int, int>, xs: seq<TextMutation>)
    requires Agree(t1, t2, UnionOver(xs, TextIds))
    ensures RewriteTexts(t1, xs) == RewriteTexts(t2, xs)
  {
    forall j | 0 <= j < |xs| ensures RewriteText(t1, xs[j]) == RewriteText(t2, xs[j]) {
      UnionOverMember(xs, j, TextIds);
    }
  }

  lemma RewritePositionsStable(t1: map<int, int>, t2: map<int, int>, xs: seq<MousePosition>)
    requires Agree(t1, t2, UnionOver(xs, PositionIds))
    ensures RewritePositions(t1, xs) == RewritePositions(t2, xs)
  {
    forall j | 0 <= j < |xs| ensures RewritePosition(t1, xs[j]) == RewritePosition(t2, xs[j]) {
      UnionOverMember(xs, j, PositionIds);
    }
  }

  lemma RewriteRangesStable(t1: map<int, int>, t2: map<int, int>, xs: seq<SelectionRange>)
    requires Agree(t1, t2, UnionOver(xs, RangeIds))
    ensures RewriteRanges(t1, xs) == RewriteRanges(t2, xs)
  {
    forall j | 0 <= j < |xs| ensures RewriteRange(t1, xs[j]) == RewriteRange(t2, xs[j]) {
      UnionOverMember(xs, j, RangeIds);
    }
  }

  lemma RewriteStylesStable(t1: map<int, int>, t2: map<int, int>, xs: seq<AdoptedStyle>)
    requires Agree(t1, t2, UnionOver(xs, StyleIds))
    ensures RewriteStyles(t1, xs) == RewriteStyles(t2, xs)
  {
    forall j | 0 <= j < |xs| ensures RewriteStyle(t1, xs[j]) == RewriteStyle(t2, xs[j]) {
      UnionOverMember(xs, j, StyleIds);
    }
  }

  lemma RewriteAddsSnoc(t: map<int, int>, xs: seq<AddedNode>, i: nat)
    requires i < |xs|
    ensures RewriteAdds(t, xs[..i + 1]) == RewriteAdds(t, xs[..i]) + [RewriteAdd(t, xs[i])]
  {
    var a, b := RewriteAdds(t, xs[..i + 1]), RewriteAdds(t, xs[..i]) + [RewriteAdd(t, xs[i])];
    forall j | 0 <= j < |a| ensures a[j] == b[j] {
      assert xs[..i + 1][j] == xs[j];
    }
  }

  lemma RewriteAddsStep(t0: map<int, int>, before: map<int, int>, after: map<int, int>, xs: seq<AddedNode>, i: nat)
    requires i < |xs|
    requires Grew(t0, before, UnionOver(xs[..i], AddIds)) && Grew(before, after, AddIds(xs[i]))
    ensures Grew(t0, after, UnionOver(xs[..i + 1], AddIds))
    ensures RewriteAdds(after, xs[..i + 1]) == RewriteAdds(before, xs[..i]) + [RewriteAdd(after, xs[i])]
  {
    UnionOverSnoc(xs, i, AddIds);
    GrewTransitive(t0, before, after, UnionOver(xs[..i], AddIds), AddIds(xs[i]));
    ExtendsAgree(before, after, UnionOver(xs[..i], AddIds));
    RewriteAddsStable(before, after, xs[..i]);
    RewriteAddsSnoc(after, xs, i);
  }

  lemma RewriteRemovesSnoc(t: map<int, int>, xs: seq<RemovedNode>, i: nat)
    requires i < |xs|
    ensures RewriteRemoves(t, xs[..i + 1]) == RewriteRemoves(t, xs[..i]) + [RewriteRemove(t, xs[i])]
  {
    var a, b := RewriteRemoves(t, xs[..i + 1]), RewriteRemoves(t, xs[..i]) + [RewriteRemove(t, xs[i])];
    forall j | 0 <= j < |a| ensures a[j] == b[j] {
      assert xs[..i + 1][j] == xs[j];
    }
  }

  lemma RewriteRemovesStep(t0: map<int, int>, before: map<int, int>, after: map<int, int>, xs: seq<RemovedNode>, i: nat)
    requires i < |xs|
    requires Grew(t0, before, UnionOver(xs[..i], RemoveIds)) && Grew(before, after, RemoveIds(xs[i]))
    ensures Grew(t0, after, UnionOver(xs[..i + 1], RemoveIds))
    ensures RewriteRemoves(after, xs[..i + 1]) == RewriteRemoves(before, xs[..i]) + [RewriteRemove(after, xs[i])]
  {
    UnionOverSnoc(xs, i, RemoveIds);
    GrewTransitive(t0, before, after, UnionOver(xs[..i], RemoveIds), RemoveIds(xs[i]));
    ExtendsAgree(before, after, UnionOver(xs[..i], RemoveIds));
    RewriteRemovesStable(before, after, xs[..i]);
    RewriteRemovesSnoc(after, xs, i);
  }

  lemma RewriteAttributesSnoc(t: map<int, int>, xs: seq<AttributeMutation>, i: nat)
    requires i < |xs|
    ensures RewriteAttributes(t, xs[..i + 1]) == RewriteAttributes(t, xs[..i]) + [RewriteAttribute(t, xs[i])]
  {
    var a, b := RewriteAttributes(t, xs[..i + 1]), RewriteAttributes(t, xs[..i]) + [RewriteAttribute(t, xs[i])];
    forall j | 0 <= j < |a| ensures a[j] == b[j] {
      assert xs[..i + 1][j] == xs[j];
    }
  }

  lemma RewriteAttributesStep(t0: map<int, int>, before: map<int, int>, after: map<int, int>, xs: seq<AttributeMutation>, i: nat)
    requires i < |xs|
    requires Grew(t0, before, UnionOver(xs[..i], AttributeIds)) && Grew(before, after, AttributeIds(xs[i]))
    ensures Grew(t0, after, UnionOver(xs[..i + 1], AttributeIds))
    ensures RewriteAttributes(after, xs[..i + 1]) == RewriteAttributes(before, xs[..i]) + [RewriteAttribute(after, xs[i])]
  {
    UnionOverSnoc(xs, i, AttributeIds);
    GrewTransitive(t0, before, after, UnionOver(xs[..i], AttributeIds), AttributeIds(xs[i]));
    ExtendsAgree(before, after, UnionOver(xs[..i], AttributeIds));
    RewriteAttributesStable(before, after, xs[..i]);
    RewriteAttributesSnoc(after, xs, i);
  }

  lemma RewriteTextsSnoc(t: map<int, int>, xs: seq<TextMutation>, i: nat)
    requires i < |xs|
    ensures RewriteTexts(t, xs[..i + 1]) == RewriteTexts(t, xs[..i]) + [RewriteText(t, xs[i])]
  {
    var a, b := RewriteTexts(t, xs[..i + 1]), RewriteTexts(t, xs[..i]) + [RewriteText(t, xs[i])];
    forall j | 0 <= j < |a| ensures a[j] == b[j] {
      assert xs[..i + 1][j] == xs[j];
    }
  }

  lemma RewriteTextsStep(t0: map<int, int>, before: map<int, int>, after: map<int, int>, xs: seq<TextMutation>, i: nat)
    requires i < |xs|
    requires Grew(t0, before, UnionOver(xs[..i], TextIds)) && Grew(before, after, TextIds(xs[i]))
    ensures Grew(t0, after, UnionOver(xs[..i + 1], TextIds))
    ensures RewriteTexts(after, xs[..i + 1]) == RewriteTexts(before, xs[..i]) + [RewriteText(after, xs[i])]
  {
    UnionOverSnoc(xs, i, TextIds);
    GrewTransitive(t0, before, after, UnionOver(xs[..i], TextIds), TextIds(xs[i]));
    ExtendsAgree(before, after, UnionOver(xs[..i], TextIds));
    RewriteTextsStable(before, after, xs[..i]);
    RewriteTextsSnoc(after, xs, i);
  }

  lemma RewritePositionsSnoc(t: map<int, int>, xs: seq<MousePosition>, i: nat)
    requires i < |xs|
    ensures RewritePositions(t, xs[..i + 1]) == RewritePositions(t, xs[..i]) + [RewritePosition(t, xs[i])]
  {
    var a, b := RewritePositions(t, xs[..i + 1]), RewritePositions(t, xs[..i]) + [RewritePosition(t, xs[i])];
    forall j | 0 <= j < |a| ensures a[j] == b[j] {
      assert xs[..i + 1][j] == xs[j];
    }
  }

  lemma RewritePositionsStep(t0: map<int, int>, before: map<int, int>, after: map<int, int>, xs: seq<MousePosition>, i: nat)
    requires i < |xs|
    requires Grew(t0, before, UnionOver(xs[..i], PositionIds)) && Grew(before, after, PositionIds(xs[i]))
    ensures Grew(t0, after, UnionOver(xs[..i + 1], PositionIds))
    ensures RewritePositions(after, xs[..i + 1]) == RewritePositions(before, xs[..i]) + [RewritePosition(after, xs[i])]
  {
    UnionOverSnoc(xs, i, PositionIds);
    GrewTransitive(t0, before, after, UnionOver(xs[..i], PositionIds), PositionIds(xs[i]));
    ExtendsAgree(before, after, UnionOver(xs[..i], PositionIds));
    RewritePositionsStable(before, after, xs[..i]);
    RewritePositionsSnoc(after, xs, i);
  }

  lemma RewriteRangesSnoc(t: map<int, int>, xs: seq<SelectionRange>, i: nat)
    requires i < |xs|
    ensures RewriteRanges(t, xs[..i + 1]) == RewriteRanges(t, xs[..i]) + [RewriteRange(t, xs[i])]
  {
    var a, b := RewriteRanges(t, xs[..i + 1]), RewriteRanges(t, xs[..i]) + [RewriteRange(t, xs[i])];
    forall j | 0 <= j < |a| ensures a[j] == b[j] {
      assert xs[..i + 1][j] == xs[j];
    }
  }

  lemma RewriteRangesStep(t0: map<int, int>, before: map<int, int>, after: map<int, int>, xs: seq<SelectionRange>, i: nat)
    requires i < |xs|
    requires Grew(t0, before, UnionOver(xs[..i], RangeIds)) && Grew(before, after, RangeIds(xs[i]))
    ensures Grew(t0, after, UnionOver(xs[..i + 1], RangeIds))
    ensures RewriteRanges(after, xs[..i + 1]) == RewriteRanges(before, xs[..i]) + [RewriteRange(after, xs[i])]
  {
    UnionOverSnoc(xs, i, RangeIds);
    GrewTransitive(t0, before, after, UnionOver(xs[..i], RangeIds), RangeIds(xs[i]));
    ExtendsAgree(before, after, UnionOver(xs[..i], RangeIds));
    RewriteRangesStable(before, after, xs[..i]);
    RewriteRangesSnoc(after, xs, i);
  }

  lemma RewriteStylesSnoc(t: map<int, int>, xs: seq<AdoptedStyle>, i: nat)
    requires i < |xs|
    ensures RewriteStyles(t, xs[..i + 1]) == RewriteStyles(t, xs[..i]) + [RewriteStyle(t, xs[i])]
  {
    var a, b := RewriteStyles(t, xs[..i + 1]), RewriteStyles(t, xs[..i]) + [RewriteStyle(t, xs[i])];
    forall j | 0 <= j < |a| ensures a[j] == b[j] {
      assert xs[..i + 1][j] == xs[j];
    }
  }

  lemma RewriteStylesStep(t0: map<int, int>, before: map<int, int>, after: map<int, int>, xs: seq<AdoptedStyle>, i: nat)
    requires i < |xs|
    requires Grew(t0, before, UnionOver(xs[..i], StyleIds)) && Grew(before, after, StyleIds(xs[i]))
    ensures Grew(t0, after, UnionOver(xs[..i + 1], StyleIds))
    ensures RewriteStyles(after, xs[..i + 1]) == RewriteStyles(before, xs[..i]) + [RewriteStyle(after, xs[i])]
  {
    UnionOverSnoc(xs, i, StyleIds);
    GrewTransitive(t0, before, after, UnionOver(xs[..i], StyleIds), StyleIds(xs[i]));
    ExtendsAgree(before, after, UnionOver(xs[..i], StyleIds));
    RewriteStylesStable(before, after, xs[..i]);
    RewriteStylesSnoc(after, xs, i);
  }

  /** The four lists of a mutation, each rewritten; `isAttachIframe` is kept. */
  function RewriteMutation(t: map<int, int>, m: MutationPayload): MutationPayload {
    MutationPayload(RewriteTexts(t, m.texts), RewriteAttributes(t, m.attributes),
                    RewriteRemoves(t, m.removes), RewriteAdds(t, m.adds), m.isAttachIframe)
  }

  function MutationIds(m: MutationPayload): set<int> {
    UnionOver(m.adds, AddIds) + UnionOver(m.removes, RemoveIds) +
    UnionOver(m.attributes, AttributeIds) + UnionOver(m.texts, TextIds)
  }

  /** The four lists of a mutation rewritten in turn: the table grows by all their ids, earlier lists keep their translation. */
  lemma MutationSteps(m: MutationPayload, s0: map<int, int>, s1: map<int, int>, s2: map<int, int>, s3: map<int, int>, s4: map<int, int>)
    requires Grew(s0, s1, UnionOver(m.adds, AddIds)) && Grew(s1, s2, UnionOver(m.removes, RemoveIds))
    requires Grew(s2, s3, UnionOver(m.attributes, AttributeIds)) && Grew(s3, s4, UnionOver(m.texts, TextIds))
    ensures Grew(s0, s4, MutationIds(m))
    ensures RewriteAdds(s1, m.adds) == RewriteAdds(s4, m.adds)
    ensures RewriteRemoves(s2, m.removes) == RewriteRemoves(s4, m.removes)
    ensures RewriteAttributes(s3, m.attributes) == RewriteAttributes(s4, m.attributes)
  {
    var a := UnionOver(m.adds, AddIds);
    var b := UnionOver(m.removes, RemoveIds);
    var c := UnionOver(m.attributes, AttributeIds);
    var d := UnionOver(m.texts, TextIds);
    GrewFour(s0, s1, s2, s3, s4, a, b, c, d);
    ExtendsAgree(s1, s4, a);
    RewriteAddsStable(s1, s4, m.adds);
    ExtendsAgree(s2, s4, b);
    RewriteRemovesStable(s2, s4, m.removes);
    ExtendsAgree(s3, s4, c);
    RewriteAttributesStable(s3, s4, m.attributes);
  }

  lemma GrewFour(s0: map<int, int>, s1: map<int, int>, s2: map<int, int>, s3: map<int, int>, s4: map<int, int>,
                 a: set<int>, b: set<int>, c: set<int>, d: set<int>)
    requires Grew(s0, s1, a) && Grew(s1, s2, b) && Grew(s2, s3, c) && Grew(s3, s4, d)
    ensures Grew(s0, s4, a + b + c + d)
    ensures Extends(s1, s4) && Extends(s2, s4) && Extends(s3, s4)
    ensures a <= s1.Keys && b <= s2.Keys && c <= s3.Keys
  {
    GrewTransitive(s2, s3, s4, c, d);
    GrewTransitive(s1, s2, s4, b, c + d);
    GrewTransitive(s0, s1, s4, a, b + (c + d));
    assert a + b + c + d == a + (b + (c + d));
  }

  // ----- custom payloads -----

  /** The payload keys a custom event's ids are looked up under. */
  const CustomIdKeys: seq<string> := ["id", "parentId", "previousId", "nextId"]

  function KeySet(keys: seq<string>): set<string> {
    set i | 0 <= i < |keys| :: keys[i]
  }

  /** `replace` on one value: numbers and arrays are translated, anything else is kept. */
  function RewriteValue(t: map<int, int>, v: PayloadValue): PayloadValue {
    match v
    case PNumber(n) => PNumber(Rename(t, n))
    case PNumbers(ns) => PNumbers(RenameAll(t, ns))
    case POther(_) => v
  }

  function ValueIds(v: PayloadValue): set<int> {
    match v
    case PNumber(n) => {n}
    case PNumbers(ns) => Elements(ns)
    case POther(_) => {}
  }

  /** `replace(obj, keys)`: the values under `keys` are rewritten, the others are kept. */
  function RewritePayload(t: map<int, int>, p: Payload, keys: set<string>): (r: Payload)
    ensures r.Keys == p.Keys
  {
    map k | k in p :: if k in keys then RewriteValue(t, p[k]) else p[k]
  }

  function PayloadIds(p: Payload, keys: set<string>): set<int> {
    set k, x | k in p && k in keys && x in ValueIds(p[k]) :: x
  }

  lemma PayloadIdsAddKey(p: Payload, keys: set<string>, k: string)
    ensures PayloadIds(p, keys + {k}) == PayloadIds(p, keys) + (if k in p then ValueIds(p[k]) else {})
  {
    var a := PayloadIds(p, keys + {k});
    var b := PayloadIds(p, keys) + (if k in p then ValueIds(p[k]) else {});
    forall x | x in a ensures x in b {
      var k' :| k' in p && k' in keys + {k} && x in ValueIds(p[k']);
    }
    forall x | x in b ensures x in a {
      if k in p && x in ValueIds(p[k]) {
        assert k in p && k in keys + {k} && x in ValueIds(p[k]);
      } else {
        var k' :| k' in p && k' in keys && x in ValueIds(p[k']);
        assert k' in keys + {k};
      }
    }
  }

  lemma ValueIdsInPayloadIds(p: Payload, keys: set<string>, k: string)
    requires k in p && k in keys
    ensures ValueIds(p[k]) <= PayloadIds(p, keys)
  {
    forall x | x in ValueIds(p[k]) ensures x in PayloadIds(p, keys) {
      assert k in p && k in keys && x in ValueIds(p[k]);
    }
  }

  /** One more key of `replace`: the payload so far, with that key's value translated. */
  lemma PayloadStep(before: map<int, int>, after: map<int, int>, p: Payload, done: set<string>, key: string,
                    r: Payload, r': Payload)
    requires r == RewritePayload(before, p, done) && key !in done
    requires Extends(before, after) && PayloadIds(p, done) <= before.Keys
    requires r' == if key in p then r[key := RewriteValue(after, p[key])] else r
    ensures r' == RewritePayload(after, p, done + {key})
  {
    ExtendsAgree(before, after, PayloadIds(p, done));
    RewritePayloadStable(before, after, p, done);
  }

  /** Before the first key: nothing is rewritten and no id is needed. */
  lemma PayloadStart(t: map<int, int>, p: Payload, keys: seq<string>)
    ensures Grew(t, t, PayloadIds(p, KeySet(keys[..0])))
    ensures RewritePayload(t, p, KeySet(keys[..0])) == p
  {
    assert KeySet(keys[..0]) == {};
  }

  /** One more key of `replace` on the key list: the table and the rewritten payload advance together. */
  lemma PayloadKeyStep(t0: map<int, int>, before: map<int, int>, after: map<int, int>, p: Payload, keys: seq<string>, i: nat,
                       r: Payload, r': Payload)
    requires i < |keys| && forall a, b :: 0 <= a < b < |keys| ==> keys[a] != keys[b]
    requires Grew(t0, before, PayloadIds(p, KeySet(keys[..i])))
    requires r == RewritePayload(before, p, KeySet(keys[..i]))
    requires Grew(before, after, if keys[i] in p then ValueIds(p[keys[i]]) else {})
    requires r' == if keys[i] in p then r[keys[i] := RewriteValue(after, p[keys[i]])] else r
    ensures Grew(t0, after, PayloadIds(p, KeySet(keys[..i + 1])))
    ensures r' == RewritePayload(after, p, KeySet(keys[..i + 1]))
  {
    var key, done := keys[i], KeySet(keys[..i]);
    assert KeySet(keys[..i + 1]) == done + {key} by {
      forall k | k in KeySet(keys[..i + 1]) ensures k in done + {key} {
        var j :| 0 <= j < i + 1 && keys[..i + 1][j] == k;
        if j < i { assert keys[..i][j] == k; }
      }
      forall k | k in done + {key} ensures k in KeySet(keys[..i + 1]) {
        if k == key { assert keys[..i + 1][i] == k; }
        else { var j :| 0 <= j < i && keys[..i][j] == k; assert keys[..i + 1][j] == k; }
      }
    }
    forall k | k in done ensures k != key {
      var j :| 0 <= j < i && keys[..i][j] == k;
      assert keys[..i][j] == keys[j];
    }
    PayloadIdsAddKey(p, done, key);
    GrewTransitive(t0, before, after, PayloadIds(p, done), if key in p then ValueIds(p[key]) else {});
    PayloadStep(before, after, p, done, key, r, r');
  }

  lemma RewritePayloadStable(t1: map<int, int>, t2: map<int, int>, p: Payload, keys: set<string>)
    requires Agree(t1, t2, PayloadIds(p, keys))
    ensures RewritePayload(t1, p, keys) == RewritePayload(t2, p, keys)
  {
    forall k | k in p && k in keys ensures RewriteValue(t1, p[k]) == RewriteValue(t2, p[k]) {
      ValueIdsInPayloadIds(p, keys, k);
      if p[k].PNumbers? {
        assert RenameAll(t1, p[k].ns) == RenameAll(t2, p[k].ns);
      }
    }
  }

  // ----- whole events -----

  /** The single-add mutation that attaches a child document under the iframe's id. */
  function AttachPayload(parentId: int, node: SerializedNode): MutationPayload {
    MutationPayload([], [], [], [AddedNode(parentId, Missing, None, node)], true)
  }

  /** The incremental payload rewritten, or `None` when the kind is dropped. */
  function RewriteData(t: map<int, int>, st: map<int, int>, d: IncrementalData): Option<IncrementalData> {
    match d
    case MutationData(m) => Some(MutationData(RewriteMutation(t, m)))
    case MoveData(src, ps) => Some(MoveData(src, RewritePositions(t, ps)))
    case ViewportResizeData(_, _) => None
    case MediaInteractionData(k, id, time) => Some(MediaInteractionData(k, Rename(t, id), time))
    case MouseInteractionData(k, id, x, y) => Some(MouseInteractionData(k, Rename(t, id), x, y))
    case ScrollData(id, x, y) => Some(ScrollData(Rename(t, id), x, y))
    case CanvasMutationData(c) => Some(CanvasMutationData(c.(id := Rename(t, c.id))))
    case InputData(id, text, checked, user) => Some(InputData(Rename(t, id), text, checked, user))
    case StyleSheetRuleData(id, styleId, removes, adds) =>
      Some(StyleSheetRuleData(Rename(t, id), RenameOpt(st, styleId), removes, adds))
    case StyleDeclarationData(id, styleId, property) =>
      Some(StyleDeclarationData(RenameOpt(t, id), RenameOpt(st, styleId), property))
    case FontData(_, _, _) => Some(d)
    case SelectionData(ranges) => Some(SelectionData(RewriteRanges(t, ranges)))
    case AdoptedStyleSheetData(id, styleIds, styles) =>
      Some(AdoptedStyleSheetData(Rename(t, id), RenameAll(st, styleIds),
                                 if styles.Some? then Some(RewriteStyles(st, styles.value)) else None))
    case LogData(_, _) => None
  }

  /** The ids of an incremental payload looked up in the iframe's node-id table. */
  function DataIds(d: IncrementalData): set<int> {
    match d
    case MutationData(m) => MutationIds(m)
    case MoveData(_, ps) => UnionOver(ps, PositionIds)
    case MediaInteractionData(_, id, _) => {id}
    case MouseInteractionData(_, id, _, _) => {id}
    case ScrollData(id, _, _) => {id}
    case CanvasMutationData(c) => {c.id}
    case InputData(id, _, _, _) => {id}
    case StyleSheetRuleData(id, _, _, _) => {id}
    case StyleDeclarationData(id, _, _) => OptIds(id)
    case SelectionData(ranges) => UnionOver(ranges, RangeIds)
    case AdoptedStyleSheetData(id, _, _) => {id}
    case _ => {}
  }

  /** The ids of an incremental payload looked up in the iframe's stylesheet-id table. */
  function DataStyleIds(d: IncrementalData): set<int> {
    match d
    case StyleSheetRuleData(_, styleId, _, _) => OptIds(styleId)
    case StyleDeclarationData(_, styleId, _) => OptIds(styleId)
    case AdoptedStyleSheetData(_, styleIds, styles) =>
      Elements(styleIds) + (if styles.Some? then UnionOver(styles.value, StyleIds) else {})
    case _ => {}
  }

  /**
   * `transformCrossOriginEvent` given the iframe's final tables `t` (node ids) and `st`
   * (stylesheet ids) and the iframe's own id `frameId`: the event to emit, or `None`.
   */
  function Transformed(t: map<int, int>, st: map<int, int>, frameId: int, e: Event): Option<Event> {
    match e.body
    case FullSnapshot(node, _, _) =>
      Some(Event(IncrementalSnapshot(MutationData(AttachPayload(frameId, RewriteNode(t, node)))), e.timestamp, None))
    case Meta(_, _, _) => None
    case Load => None
    case DomContentLoaded => None
    case Plugin(_, _) => Some(e)
    case Custom(tag, p) => Some(e.(body := Custom(tag, RewritePayload(t, p, KeySet(CustomIdKeys)))))
    case IncrementalSnapshot(d) =>
      var d' := RewriteData(t, st, d);
      if d'.Some? then Some(e.(body := IncrementalSnapshot(d'.value))) else None
  }

  /** Node ids of an event that end up bound in the iframe's table. */
  function EventIds(e: Event): set<int> {
    match e.body
    case FullSnapshot(node, _, _) => NodeIds(node)
    case Custom(_, p) => PayloadIds(p, KeySet(CustomIdKeys))
    case IncrementalSnapshot(d) => DataIds(d)
    case _ => {}
  }

  function EventStyleIds(e: Event): set<int> {
    match e.body
    case IncrementalSnapshot(d) => DataStyleIds(d)
    case _ => {}
  }

  /** Exactly the Meta, Load, DomContentLoaded, ViewportResize and Log kinds are dropped. */
  lemma DroppedKinds(t: map<int, int>, st: map<int, int>, frameId: int, e: Event)
    ensures Transformed(t, st, frameId, e).None? <==>
      e.body.Meta? || e.body.Load? || e.body.DomContentLoaded? ||
      (e.body.IncrementalSnapshot? && (e.body.data.ViewportResizeData? || e.body.data.LogData?))
  {
  }

  /**
   * A child full snapshot becomes an incremental mutation at the same time with exactly one add,
   * under the iframe's id, with no next sibling, the whole tree re-identified, and the attach flag.
   */
  lemma FullSnapshotBecomesAttach(t: map<int, int>, st: map<int, int>, frameId: int, e: Event)
    requires e.body.FullSnapshot?
    ensures var r := Transformed(t, st, frameId, e);
      r.Some? && r.value.timestamp == e.timestamp &&
      r.value.body.IncrementalSnapshot? && r.value.body.data.MutationData? &&
      var m := r.value.body.data.mutation;
      m.texts == [] && m.attributes == [] && m.removes == [] && m.isAttachIframe &&
      |m.adds| == 1 && m.adds[0].parentId == frameId && m.adds[0].nextId == None &&
      IsNodeMetaEqual(m.adds[0].node, e.body.node) &&
      NodeIds(m.adds[0].node) == set k | k in NodeIds(e.body.node) :: Rename(t, k)
  {
    RewriteNodeKeepsMeta(t, e.body.node);
    RewriteNodeIds(t, e.body.node);
  }

  /** Plugin and Font events are emitted exactly as received. */
  lemma PassThroughKinds(t: map<int, int>, st: map<int, int>, frameId: int, e: Event)
    requires e.body.Plugin? || (e.body.IncrementalSnapshot? && e.body.data.FontData?)
    ensures Transformed(t, st, frameId, e) == Some(e)
  {
  }

  /** Null and missing sibling ids stay as they are; numeric ones are translated. */
  lemma NullIdsKept(t: map<int, int>, a: AddedNode)
    ensures RewriteAdd(t, a).nextId.None? <==> a.nextId.None?
    ensures RewriteAdd(t, a).previousId.Null? <==> a.previousId.Null?
    ensures RewriteAdd(t, a).previousId.Missing? <==> a.previousId.Missing?
    ensures a.previousId.Id? ==> RewriteAdd(t, a).previousId == Id(Rename(t, a.previousId.n))
  {
  }

  /** A mutation keeps its shape: list lengths, the attach flag, and every record except its ids. */
  lemma MutationShapeKept(t: map<int, int>, m: MutationPayload)
    ensures var r := RewriteMutation(t, m);
      |r.adds| == |m.adds| && |r.removes| == |m.removes| && |r.texts| == |m.texts| &&
      |r.attributes| == |m.attributes| && r.isAttachIframe == m.isAttachIframe &&
      (forall j :: 0 <= j < |m.texts| ==> r.texts[j].value == m.texts[j].value) &&
      (forall j :: 0 <= j < |m.attributes| ==> r.attributes[j].attributes == m.attributes[j].attributes) &&
      (forall j :: 0 <= j < |m.removes| ==> r.removes[j].isShadow == m.removes[j].isShadow) &&
      (forall j :: 0 <= j < |m.adds| ==> IsNodeMetaEqual(r.adds[j].node, m.adds[j].node))
  {
    forall j | 0 <= j < |m.adds| ensures IsNodeMetaEqual(RewriteMutation(t, m).adds[j].node, m.adds[j].node) {
      RewriteNodeKeepsMeta(t, m.adds[j].node);
    }
  }

  /** An identity table changes nothing: a mutation whose ids all map to themselves is kept. */
  lemma IdentityMutation(t: map<int, int>, m: MutationPayload)
    requires forall k :: k in MutationIds(m) ==> Rename(t, k) == k
    ensures RewriteMutation(t, m) == m
  {
    forall j | 0 <= j < |m.adds| ensures RewriteAdd(t, m.adds[j]) == m.adds[j] {
      UnionOverMember(m.adds, j, AddIds);
      RewriteNodeIdentity(t, m.adds[j].node);
    }
    assert RewriteAdds(t, m.adds) == m.adds;
    forall j | 0 <= j < |m.removes| ensures RewriteRemove(t, m.removes[j]) == m.removes[j] {
      UnionOverMember(m.removes, j, RemoveIds);
    }
    assert RewriteRemoves(t, m.removes) == m.removes;
    forall j | 0 <= j < |m.attributes| ensures RewriteAttribute(t, m.attributes[j]) == m.attributes[j] {
      UnionOverMember(m.attributes, j, AttributeIds);
    }
    assert RewriteAttributes(t, m.attributes) == m.attributes;
    forall j | 0 <= j < |m.texts| ensures RewriteText(t, m.texts[j]) == m.texts[j] {
      UnionOverMember(m.texts, j, TextIds);
    }
    assert RewriteTexts(t, m.texts) == m.texts;
  }
}
