/**
 * The `Mirror` registry of rrweb-snapshot: a forward map from id to live node and a
 * back-reference map from live node to its serialized metadata.
 */
module SnapshotMirror {
  import opened Wrappers
  import opened SnapshotTypes

  /** The identity of a live DOM node. */
  type NodeRef = nat

  /** The shape of a live DOM subtree at the moment it is handed to `removeNodeFromMap`. */
  datatype LiveNode = LiveNode(ref: NodeRef, childNodes: seq<LiveNode>)

  /** The id a metadata map gives a node, -1 when it has none. */
  function IdIn(metas: map<NodeRef, SerializedNode>, n: NodeRef): int {
    if n in metas then metas[n].id else -1
  }

  /** The ids that `removeNodeFromMap(n)` looks up: those of `n` and of every node below it. */
  function SubtreeIds(metas: map<NodeRef, SerializedNode>, n: LiveNode): set<int>
    decreases n, 1
  {
    {IdIn(metas, n.ref)} + ForestIds(metas, n.childNodes)
  }

  function ForestIds(metas: map<NodeRef, SerializedNode>, ns: seq<LiveNode>): set<int>
    decreases ns, 0
  {
    if ns == [] then {} else SubtreeIds(metas, ns[0]) + ForestIds(metas, ns[1..])
  }

  lemma {:induction false} ForestIdsAppend(metas: map<NodeRef, SerializedNode>, ns: seq<LiveNode>, i: nat)
    requires i < |ns|
    ensures ForestIds(metas, ns[..i + 1]) == ForestIds(metas, ns[..i]) + SubtreeIds(metas, ns[i])
    decreases i
  {
    if i == 0 {
      assert ns[..1] == [ns[0]];
      assert ns[..1][1..] == [];
    } else {
      var ps := ns[1..];
      ForestIdsAppend(metas, ps, i - 1);
      assert ns[..i + 1][1..] == ps[..i];
      assert ns[..i][1..] == ps[..i - 1];
      assert ns[..i + 1][0] == ns[0] && ns[..i][0] == ns[0];
    }
  }

  /** `d` occurs in the subtree rooted at `n` (`n` itself included). */
  predicate InSubtree(d: LiveNode, n: LiveNode)
    decreases n
  {
    d == n || exists i :: 0 <= i < |n.childNodes| && InSubtree(d, n.childNodes[i])
  }

  /** `removeNodeFromMap` reaches every descendant: each one's id is among those it removes. */
  lemma {:induction false} DescendantIdRemoved(metas: map<NodeRef, SerializedNode>, n: LiveNode, d: LiveNode)
    requires InSubtree(d, n)
    ensures IdIn(metas, d.ref) in SubtreeIds(metas, n)
    decreases n
  {
    if d != n {
      var i :| 0 <= i < |n.childNodes| && InSubtree(d, n.childNodes[i]);
      DescendantIdRemoved(metas, n.childNodes[i], d);
      ChildIdsInForest(metas, n.childNodes, i);
    }
  }

  lemma {:induction false} ChildIdsInForest(metas: map<NodeRef, SerializedNode>, ns: seq<LiveNode>, i: nat)
    requires i < |ns|
    ensures SubtreeIds(metas, ns[i]) <= ForestIds(metas, ns)
    decreases i
  {
    if i > 0 {
      ChildIdsInForest(metas, ns[1..], i - 1);
    }
  }

  class Mirror {
    var idNodeMap: map<int, NodeRef>
    var nodeMetaMap: map<NodeRef, SerializedNode>

    /** Every id in the forward map leads to a node that has metadata. */
    ghost predicate Consistent()
      reads this
    {
      forall id :: id in idNodeMap ==> idNodeMap[id] in nodeMetaMap
    }

    /** Every id in the forward map leads to a node whose metadata carries that same id. */
    ghost predicate RoundTrips()
      reads this
    {
      forall id :: id in idNodeMap ==> idNodeMap[id] in nodeMetaMap && nodeMetaMap[idNodeMap[id]].id == id
    }

    constructor ()
      ensures idNodeMap == map[] && nodeMetaMap == map[]
      ensures RoundTrips()
    {
      idNodeMap := map[];
      nodeMetaMap := map[];
    }

    /** -1 for a missing node or one without metadata, otherwise the id its metadata carries. */
    function GetId(n: Option<NodeRef>): (id: int)
      reads this
      ensures n.None? ==> id == -1
      ensures n.Some? ==> id == IdIn(nodeMetaMap, n.value)
    {
      if n.None? then -1 else IdIn(nodeMetaMap, n.value)
    }

    function GetNode(id: int): (r: Option<NodeRef>)
      reads this
      ensures r.Some? <==> id in idNodeMap
      ensures r.Some? ==> r.value == idNodeMap[id]
    {
      if id in idNodeMap then Some(idNodeMap[id]) else None
    }

    /** The ids of the forward map (the source returns them in insertion order; the model keeps the set). */
    function GetIds(): (ids: set<int>)
      reads this
      ensures forall id :: id in ids <==> GetNode(id).Some?
    {
      idNodeMap.Keys
    }

    function GetMeta(n: NodeRef): (r: Option<SerializedNode>)
      reads this
      ensures r.Some? <==> n in nodeMetaMap
      ensures r.Some? ==> r.value == nodeMetaMap[n] && GetId(Some(n)) == r.value.id
    {
      if n in nodeMetaMap then Some(nodeMetaMap[n]) else None
    }

    /** `has`: the id is bound exactly when GetNode finds a node for it. */
    predicate Has(id: int): (r: bool)
      reads this
      ensures r <==> GetNode(id).Some?
    {
      id in idNodeMap
    }

    /** `hasNode`: the node is known exactly when GetMeta finds its metadata. */
    predicate HasNode(n: NodeRef): (r: bool)
      reads this
      ensures r <==> GetMeta(n).Some?
    {
      n in nodeMetaMap
    }

    /** Binds `meta.id` to `n` and `n` to `meta`; every other binding stays. */
    method Add(n: NodeRef, meta: SerializedNode)
      modifies this
      ensures idNodeMap == old(idNodeMap)[meta.id := n]
      ensures nodeMetaMap == old(nodeMetaMap)[n := meta]
      ensures GetNode(meta.id) == Some(n) && GetId(Some(n)) == meta.id && Has(meta.id) && HasNode(n)
      ensures old(Consistent()) ==> Consistent()
      ensures old(RoundTrips()) && (old(!HasNode(n)) || old(GetId(Some(n))) == meta.id) ==> RoundTrips()
    {
      var id := meta.id;
      idNodeMap := idNodeMap[id := n];
      nodeMetaMap := nodeMetaMap[n := meta];
    }

    /**
     * Rebinds `id` to `n`. When a node was bound to `id` and had metadata, `n` takes over that metadata;
     * no other id changes.
     */
    method Replace(id: int, n: NodeRef)
      modifies this
      ensures idNodeMap == old(idNodeMap)[id := n]
      ensures nodeMetaMap ==
        if id in old(idNodeMap) && old(idNodeMap)[id] in old(nodeMetaMap)
        then old(nodeMetaMap)[n := old(nodeMetaMap)[old(idNodeMap)[id]]]
        else old(nodeMetaMap)
      ensures old(RoundTrips()) && old(Has(id)) ==> GetId(Some(n)) == id
      ensures old(Consistent()) && (old(Has(id)) || old(HasNode(n))) ==> Consistent()
    {
      var oldNode := GetNode(id);
      if oldNode.Some? {
        if oldNode.value in nodeMetaMap {
          var meta := nodeMetaMap[oldNode.value];
          nodeMetaMap := nodeMetaMap[n := meta];
        }
      }
      idNodeMap := idNodeMap[id := n];
    }

    /**
     * Deletes the ids of `n` and of all its descendants from the forward map only;
     * the metadata map is left as it was, so `HasNode` and `GetId` still answer for them.
     */
    method RemoveNodeFromMap(n: LiveNode)
      modifies this
      ensures idNodeMap == old(idNodeMap) - SubtreeIds(nodeMetaMap, n)
      ensures nodeMetaMap == old(nodeMetaMap)
      ensures old(Consistent()) ==> Consistent()
      ensures old(RoundTrips()) ==> RoundTrips()
      decreases n
    {
      var id := GetId(Some(n.ref));
      idNodeMap := idNodeMap - {id};
      var i := 0;
      while i < |n.childNodes|
        invariant 0 <= i <= |n.childNodes|
        invariant nodeMetaMap == old(nodeMetaMap)
        invariant idNodeMap == old(idNodeMap) - {id} - ForestIds(nodeMetaMap, n.childNodes[..i])
      {
        RemoveNodeFromMap(n.childNodes[i]);
        ForestIdsAppend(nodeMetaMap, n.childNodes, i);
        i := i + 1;
      }
      assert n.childNodes[..i] == n.childNodes;
    }

    /** Replaces both maps by empty ones. */
    method Reset()
      modifies this
      ensures idNodeMap == map[] && nodeMetaMap == map[]
      ensures GetIds() == {}
      ensures forall id :: GetNode(id).None?
      ensures forall n :: GetMeta(n).None?
    {
      idNodeMap := map[];
      nodeMetaMap := map[];
    }
  }

  /** After `reset`, adding a node under an id it had before succeeds and `getId` answers that id. */
  method ReAddAfterReset(m: Mirror, n: NodeRef, meta: SerializedNode)
    modifies m
    ensures m.GetId(Some(n)) == meta.id && m.GetNode(meta.id) == Some(n)
    ensures m.GetIds() == {meta.id}
  {
    m.Reset();
    m.Add(n, meta);
  }
}
