/**
 * The per-iframe id translation used for cross-origin iframes. Its implementation is not part of
 * this model; it is modelled by its contract: for each iframe, a table from the id a child
 * document assigned to the id used in the parent recording. An unseen child id is bound to a
 * fresh id from a counter. `reset(iframe)` forgets that iframe's table.
 */
module CrossOriginMirror {
  import opened SnapshotMirror

  /** An iframe element, identified by the live node it is. */
  type Frame = NodeRef

  /** `t2` keeps every binding of `t1`. */
  ghost predicate Extends(t1: map<int, int>, t2: map<int, int>) {
    forall k :: k in t1 ==> k in t2 && t2[k] == t1[k]
  }

  /** `t2` keeps every binding of `t1` and binds exactly the ids in `s` besides. */
  ghost predicate Grew(t1: map<int, int>, t2: map<int, int>, s: set<int>) {
    Extends(t1, t2) && t2.Keys == t1.Keys + s
  }

  lemma GrewTransitive(t1: map<int, int>, t2: map<int, int>, t3: map<int, int>, s1: set<int>, s2: set<int>)
    requires Grew(t1, t2, s1) && Grew(t2, t3, s2)
    ensures Grew(t1, t3, s1 + s2)
  {
  }

  /** The set of ids in a sequence. */
  function Elements(ids: seq<int>): (s: set<int>)
    ensures forall i :: 0 <= i < |ids| ==> ids[i] in s
  {
    set i | 0 <= i < |ids| :: ids[i]
  }

  class CrossOriginIframeMirror {
    var tables: map<Frame, map<int, int>>
    /** The next id the id generator hands out. */
    var next: int
    /** Which (iframe, child id) pair each handed-out id was bound to. */
    ghost var origin: map<int, (Frame, int)>

    /** The table of one iframe; an iframe never seen has an empty one. */
    function Table(f: Frame): map<int, int>
      reads this
    {
      if f in tables then tables[f] else map[]
    }

    /** Every bound id came from the generator, and no two (iframe, child id) pairs share one. */
    ghost predicate Valid()
      reads this
    {
      forall f, id | f in tables && id in tables[f] ::
        tables[f][id] < next && tables[f][id] in origin && origin[tables[f][id]] == (f, id)
    }

    constructor(start: int)
      ensures tables == map[] && next == start && Valid()
    {
      tables := map[];
      next := start;
      origin := map[];
    }

    /** `getParentId`: the bound id, or a fresh one that is bound from now on. */
    method GetParentId(f: Frame, id: int) returns (r: int)
      requires Valid()
      modifies this
      ensures Valid()
      ensures Grew(old(Table(f)), Table(f), {id}) && r == Table(f)[id]
      ensures id in old(Table(f)) ==> tables == old(tables) && next == old(next)
      ensures id !in old(Table(f)) ==> r == old(next) && next == old(next) + 1
      ensures tables - {f} == old(tables) - {f}
    {
      if f in tables && id in tables[f] {
        r := tables[f][id];
      } else {
        r := next;
        tables := tables[f := Table(f)[id := r]];
        next := next + 1;
        origin := origin[r := (f, id)];
      }
    }

    /** `getParentIds`: `getParentId` on each id, in order. */
    method GetParentIds(f: Frame, ids: seq<int>) returns (rs: seq<int>)
      requires Valid()
      modifies this
      ensures Valid()
      ensures Grew(old(Table(f)), Table(f), Elements(ids))
      ensures |rs| == |ids| && forall i :: 0 <= i < |ids| ==> rs[i] == Table(f)[ids[i]]
      ensures tables - {f} == old(tables) - {f}
    {
      ghost var t0 := Table(f);
      ghost var others := tables - {f};
      rs := [];
      var i := 0;
      while i < |ids|
        invariant 0 <= i <= |ids| && Valid()
        invariant Grew(t0, Table(f), Elements(ids[..i]))
        invariant |rs| == i && forall j :: 0 <= j < i ==> rs[j] == Table(f)[ids[j]]
        invariant tables - {f} == others
      {
        ghost var before := Table(f);
        var r := GetParentId(f, ids[i]);
        assert Elements(ids[..i + 1]) == Elements(ids[..i]) + {ids[i]};
        GrewTransitive(t0, before, Table(f), Elements(ids[..i]), {ids[i]});
        forall j | 0 <= j < i
          ensures rs[j] == Table(f)[ids[j]]
        {
          assert ids[..i][j] == ids[j];
        }
        rs := rs + [r];
        i := i + 1;
      }
      assert ids[..i] == ids;
    }

    /** `reset(iframe)`: forget that iframe's bindings. */
    method Reset(f: Frame)
      requires Valid()
      modifies this
      ensures Valid()
      ensures tables == old(tables) - {f} && next == old(next)
      ensures Table(f) == map[]
    {
      tables := tables - {f};
    }
  }

  /** Ids bound by one table are never bound by the table of another iframe, nor twice in one. */
  lemma TranslationInjective(m: CrossOriginIframeMirror, f1: Frame, i1: int, f2: Frame, i2: int)
    requires m.Valid()
    requires i1 in m.Table(f1) && i2 in m.Table(f2)
    ensures m.Table(f1)[i1] == m.Table(f2)[i2] <==> f1 == f2 && i1 == i2
  {
  }
}
