/**
 * The canvas manager's per-canvas buffers of pending canvas commands: commands are queued per
 * canvas element and flushed once per animation frame as a single callback per canvas, unless
 * recording is frozen or locked or the canvas has no id. A JavaScript `Map` iterates in insertion
 * order, so the buffer is a map together with the sequence of its keys in insertion order.
 */
module CanvasManagement {
  import opened Wrappers
  import opened SnapshotMirror
  import opened CanvasTypes

  /** The elements of `s` that are in `keys`, in their order in `s`. */
  function Restrict(s: seq<NodeRef>, keys: set<NodeRef>): (r: seq<NodeRef>)
    ensures forall x :: x in r <==> x in s && x in keys
    ensures |r| <= |s|
    ensures NoDups(s) ==> NoDups(r)
  {
    if s == [] then []
    else
      var rest := Restrict(s[1..], keys);
      assert forall x :: x in rest ==> x in s[1..];
      if s[0] in keys then [s[0]] + rest else rest
  }

  lemma {:induction false} RestrictTwice(s: seq<NodeRef>, k1: set<NodeRef>, k2: set<NodeRef>)
    requires k2 <= k1
    ensures Restrict(Restrict(s, k1), k2) == Restrict(s, k2)
  {
    if s != [] {
      RestrictTwice(s[1..], k1, k2);
    }
  }

  lemma {:induction false} RestrictAll(s: seq<NodeRef>, keys: set<NodeRef>)
    requires forall x :: x in s ==> x in keys
    ensures Restrict(s, keys) == s
  {
    if s != [] {
      RestrictAll(s[1..], keys);
    }
  }

  /** `{ type, ...rest }`: the commands without their context type, in order. */
  function StripTypes(values: seq<CanvasCommandWithType>): (r: seq<CanvasCommand>)
    ensures |r| == |values|
    ensures forall i :: 0 <= i < |values| ==> r[i] == values[i].command
  {
    seq(|values|, i requires 0 <= i < |values| => values[i].command)
  }

  /** The one callback a flush makes: the id, the first entry's context type, all commands in order. */
  function FlushParam(id: int, values: seq<CanvasCommandWithType>): (r: CanvasMutationParam)
    requires values != []
    ensures r.id == id && r.contextType == values[0].contextType
    ensures |r.commands| == |values| && forall i :: 0 <= i < |values| ==> r.commands[i] == values[i].command
  {
    CanvasMutationParam(id, values[0].contextType, StripTypes(values))
  }

  /** `processMutation` on the buffer: the target's list, created empty when missing, gets `mutation` appended. */
  function Enqueue(pending: map<NodeRef, seq<CanvasCommandWithType>>, target: NodeRef, mutation: CanvasCommandWithType)
    : (r: map<NodeRef, seq<CanvasCommandWithType>>)
    ensures r.Keys == pending.Keys + {target}
    ensures r[target] == (if target in pending then pending[target] else []) + [mutation]
    ensures forall c :: c in pending && c != target ==> r[c] == pending[c]
  {
    pending[target := (if target in pending then pending[target] else []) + [mutation]]
  }

  /** A sequence of `processMutation` calls for one canvas. */
  function EnqueueAll(pending: map<NodeRef, seq<CanvasCommandWithType>>, target: NodeRef, ms: seq<CanvasCommandWithType>)
    : map<NodeRef, seq<CanvasCommandWithType>>
  {
    if ms == [] then pending else Enqueue(EnqueueAll(pending, target, ms[..|ms| - 1]), target, ms[|ms| - 1])
  }

  /** Queued commands accumulate in arrival order and leave every other canvas's list alone. */
  lemma {:induction false} EnqueueAllAppends(pending: map<NodeRef, seq<CanvasCommandWithType>>, target: NodeRef, ms: seq<CanvasCommandWithType>)
    requires ms != []
    ensures var r := EnqueueAll(pending, target, ms);
      r.Keys == pending.Keys + {target} &&
      r[target] == (if target in pending then pending[target] else []) + ms &&
      forall c :: c in pending && c != target ==> r[c] == pending[c]
  {
    var init := ms[..|ms| - 1];
    if init == [] {
      assert ms == [ms[0]];
    } else {
      EnqueueAllAppends(pending, target, init);
      assert ms == init + [ms[|ms| - 1]];
    }
  }

  /**
   * Queuing commands on a canvas with no pending list and flushing it with a valid id emits one
   * callback holding exactly those commands, typed by the first one.
   */
  lemma QueuedCommandsFlushTogether(pending: map<NodeRef, seq<CanvasCommandWithType>>, target: NodeRef,
                                    ms: seq<CanvasCommandWithType>, id: int)
    requires target !in pending && ms != []
    ensures EnqueueAll(pending, target, ms)[target] == ms
    ensures FlushParam(id, EnqueueAll(pending, target, ms)[target]) ==
      CanvasMutationParam(id, ms[0].contextType, StripTypes(ms))
  {
    EnqueueAllAppends(pending, target, ms);
  }

  /** The callbacks a full flush makes for the canvases `cs`, visited in order. */
  function FlushAllSpec(m: Mirror, pending: map<NodeRef, seq<CanvasCommandWithType>>, cs: seq<NodeRef>): (r: seq<CanvasMutationParam>)
    requires forall c :: c in pending ==> pending[c] != []
    reads m
    ensures |r| <= |cs|
    ensures forall k :: 0 <= k < |r| ==> r[k].id != -1
  {
    if cs == [] then []
    else
      var c := cs[|cs| - 1];
      var id := m.GetId(Some(c));
      FlushAllSpec(m, pending, cs[..|cs| - 1]) + (if c in pending && id != -1 then [FlushParam(id, pending[c])] else [])
  }

  /** `sampling`: every mutation, or a number of frames per second. */
  datatype CanvasSampling = All | Fps(fps: int)

  datatype CanvasObserverKind = NoObserver | MutationObserver | FpsObserver(fps: int)

  /** Which canvas observer the constructor installs; sampling defaults to `'all'`. */
  function ObserverFor(recordCanvas: bool, sampling: Option<CanvasSampling>): (k: CanvasObserverKind)
    ensures k.NoObserver? <==> !recordCanvas
    ensures recordCanvas && sampling.None? ==> k == MutationObserver
    ensures recordCanvas && sampling.Some? ==>
      k == (if sampling.value.All? then MutationObserver else FpsObserver(sampling.value.fps))
  {
    if !recordCanvas then NoObserver
    else match sampling.GetOr(All)
      case All => MutationObserver
      case Fps(n) => FpsObserver(n)
  }

  /** `RafStamps`; a missing `invokeId` is `null`. */
  datatype RafStamps = RafStamps(latestId: int, invokeId: Option<int>)

  class CanvasManager {
    /** `pendingCanvasMutations` */
    var pending: map<NodeRef, seq<CanvasCommandWithType>>
    /** The keys of `pending` in insertion order. */
    var order: seq<NodeRef>
    var rafStamps: RafStamps
    var frozen: bool
    var locked: bool
    const mirror: Mirror
    /** Every argument handed to `mutationCb`, in order. */
    var emitted: seq<CanvasMutationParam>

    /** `order` lists each pending canvas once, and no pending list is empty. */
    ghost predicate Valid()
      reads this
    {
      NoDups(order) && (forall c :: c in pending <==> c in order) &&
      forall c :: c in pending ==> pending[c] != []
    }

    constructor(mirror: Mirror)
      ensures Valid()
      ensures this.mirror == mirror && pending == map[] && order == [] && emitted == []
      ensures rafStamps == RafStamps(0, None) && !frozen && !locked
    {
      this.mirror := mirror;
      pending := map[];
      order := [];
      rafStamps := RafStamps(0, None);
      frozen := false;
      locked := false;
      emitted := [];
    }

    /** `reset`: every pending list is dropped. */
    method Reset()
      modifies this
      ensures Valid()
      ensures pending == map[] && order == []
      ensures rafStamps == old(rafStamps) && frozen == old(frozen) && locked == old(locked) && emitted == old(emitted)
    {
      pending := map[];
      order := [];
    }

    method Freeze()
      modifies this
      ensures frozen && locked == old(locked)
      ensures pending == old(pending) && order == old(order) && rafStamps == old(rafStamps) && emitted == old(emitted)
    {
      frozen := true;
    }

    method Unfreeze()
      modifies this
      ensures !frozen && locked == old(locked)
      ensures pending == old(pending) && order == old(order) && rafStamps == old(rafStamps) && emitted == old(emitted)
    {
      frozen := false;
    }

    method Lock()
      modifies this
      ensures locked && frozen == old(frozen)
      ensures pending == old(pending) && order == old(order) && rafStamps == old(rafStamps) && emitted == old(emitted)
    {
      locked := true;
    }

    method Unlock()
      modifies this
      ensures !locked && frozen == old(frozen)
      ensures pending == old(pending) && order == old(order) && rafStamps == old(rafStamps) && emitted == old(emitted)
    {
      locked := false;
    }

    /** `processMutation`: stamp the frame, then queue the command on the target's list. */
    method ProcessMutation(target: NodeRef, mutation: CanvasCommandWithType)
      requires Valid()
      modifies this
      ensures Valid()
      ensures rafStamps == RafStamps(old(rafStamps.latestId), Some(old(rafStamps.latestId)))
      ensures pending == Enqueue(old(pending), target, mutation)
      ensures order == if target in old(pending) then old(order) else old(order) + [target]
      ensures frozen == old(frozen) && locked == old(locked) && emitted == old(emitted)
    {
      var newFrame := rafStamps.invokeId.Some? && rafStamps.invokeId.value != 0 &&
                      rafStamps.latestId != rafStamps.invokeId.value;
      if newFrame || rafStamps.invokeId.None? || rafStamps.invokeId.value == 0 {
        rafStamps := rafStamps.(invokeId := Some(rafStamps.latestId));
      }
      if target !in pending {
        pending := pending[target := []];
        order := order + [target];
      }
      pending := pending[target := pending[target] + [mutation]];
    }

    /** `flushPendingCanvasMutationFor`: one callback for the canvas's queued commands, then its entry goes. */
    method FlushPendingCanvasMutationFor(canvas: NodeRef, id: int)
      requires Valid()
      modifies this
      ensures Valid()
      ensures old(frozen || locked || canvas !in pending || id == -1) ==>
        pending == old(pending) && order == old(order) && emitted == old(emitted)
      ensures !old(frozen || locked || canvas !in pending || id == -1) ==>
        emitted == old(emitted) + [FlushParam(id, old(pending)[canvas])] &&
        pending == old(pending) - {canvas} && order == Restrict(old(order), pending.Keys)
      ensures rafStamps == old(rafStamps) && frozen == old(frozen) && locked == old(locked)
    {
      if frozen || locked {
        return;
      }
      if canvas !in pending || id == -1 {
        return;
      }
      var valuesWithType := pending[canvas];
      var values := StripTypes(valuesWithType);
      var contextType := valuesWithType[0].contextType;
      emitted := emitted + [CanvasMutationParam(id, contextType, values)];
      pending := pending - {canvas};
      order := Restrict(order, pending.Keys);
    }

    /**
     * `flushPendingCanvasMutations`: flush every pending canvas in insertion order with its mirror
     * id; canvases whose id is -1 keep their lists.
     */
    method FlushPendingCanvasMutations()
      requires Valid()
      modifies this
      ensures Valid()
      ensures old(frozen || locked) ==> pending == old(pending) && order == old(order) && emitted == old(emitted)
      ensures !old(frozen || locked) ==>
        emitted == old(emitted) + FlushAllSpec(mirror, old(pending), old(order)) &&
        pending == WithoutId(mirror, old(pending)) &&
        order == Restrict(old(order), pending.Keys)
      ensures rafStamps == old(rafStamps) && frozen == old(frozen) && locked == old(locked)
    {
      ghost var p0 := pending;
      ghost var e0 := emitted;
      var canvases := order;
      FlushStart(mirror, p0, e0, canvases);
      var i := 0;
      while i < |canvases|
        invariant Flushing(p0, e0, canvases, i)
        invariant rafStamps == old(rafStamps) && frozen == old(frozen) && locked == old(locked)
      {
        VisitCanvas(p0, e0, canvases, i);
        i := i + 1;
      }
      if !(frozen || locked) {
        FlushEnd(mirror, p0, canvases);
      }
    }

    /** The loop invariant of a full flush after visiting `canvases[..i]`. */
    ghost predicate Flushing(p0: map<NodeRef, seq<CanvasCommandWithType>>, e0: seq<CanvasMutationParam>,
                             canvases: seq<NodeRef>, i: nat)
      reads this, mirror
    {
      i <= |canvases| && NoDups(canvases) && (forall c :: c in p0 <==> c in canvases) &&
      (forall c :: c in p0 ==> p0[c] != []) && Valid() &&
      (frozen || locked ==> pending == p0 && order == canvases && emitted == e0) &&
      (!(frozen || locked) ==> FlushedUpTo(this, p0, e0, canvases, i))
    }

    /** One iteration of the `forEach` in `flushPendingCanvasMutations`. */
    method VisitCanvas(ghost p0: map<NodeRef, seq<CanvasCommandWithType>>, ghost e0: seq<CanvasMutationParam>,
                       canvases: seq<NodeRef>, i: nat)
      requires i < |canvases| && Flushing(p0, e0, canvases, i)
      modifies this
      ensures Flushing(p0, e0, canvases, i + 1)
      ensures rafStamps == old(rafStamps) && frozen == old(frozen) && locked == old(locked)
    {
      var canvas := canvases[i];
      var id := mirror.GetId(Some(canvas));
      if frozen || locked {
        FlushPendingCanvasMutationFor(canvas, id);
      } else {
        FlushVisited(p0, e0, canvases, i, id);
      }
    }

    /** `VisitCanvas` when recording is neither frozen nor locked: the flush advances by one canvas. */
    method FlushVisited(ghost p0: map<NodeRef, seq<CanvasCommandWithType>>, ghost e0: seq<CanvasMutationParam>,
                        canvases: seq<NodeRef>, i: nat, id: int)
      requires i < |canvases| && id == mirror.GetId(Some(canvases[i]))
      requires NoDups(canvases) && (forall c :: c in p0 <==> c in canvases) && forall c :: c in p0 ==> p0[c] != []
      requires Valid() && !(frozen || locked)
      requires FlushedUpTo(this, p0, e0, canvases, i)
      modifies this
      ensures Valid() && !(frozen || locked)
      ensures rafStamps == old(rafStamps) && frozen == old(frozen) && locked == old(locked)
      ensures FlushedUpTo(this, p0, e0, canvases, i + 1)
    {
      var canvas := canvases[i];
      UnflushedStep(mirror, p0, canvases, i);
      ghost var em, pend, ord := emitted, pending, order;
      FlushPendingCanvasMutationFor(canvas, id);
      FlushStep(mirror, p0, e0, canvases, i, id, em, pend, ord, emitted, pending, order);
    }
  }

  /** The flush's bookkeeping after visiting one more canvas, on values. */
  lemma FlushStep(m: Mirror, p0: map<NodeRef, seq<CanvasCommandWithType>>, e0: seq<CanvasMutationParam>,
                  canvases: seq<NodeRef>, i: nat, id: int,
                  em: seq<CanvasMutationParam>, pend: map<NodeRef, seq<CanvasCommandWithType>>, ord: seq<NodeRef>,
                  em': seq<CanvasMutationParam>, pend': map<NodeRef, seq<CanvasCommandWithType>>, ord': seq<NodeRef>)
    requires i < |canvases| && id == m.GetId(Some(canvases[i]))
    requires NoDups(canvases) && (forall c :: c in p0 <==> c in canvases) && forall c :: c in p0 ==> p0[c] != []
    requires em == e0 + FlushAllSpec(m, p0, canvases[..i]) && pend == Unflushed(m, p0, canvases[i..])
    requires ord == Restrict(canvases, pend.Keys)
    requires id == -1 ==> em' == em && pend' == pend && ord' == ord
    requires id != -1 ==>
      em' == em + [FlushParam(id, pend[canvases[i]])] && pend' == pend - {canvases[i]} && ord' == Restrict(ord, pend'.Keys)
    ensures em' == e0 + FlushAllSpec(m, p0, canvases[..i + 1]) && pend' == Unflushed(m, p0, canvases[i + 1..])
    ensures ord' == Restrict(canvases, pend'.Keys)
  {
    UnflushedStep(m, p0, canvases, i);
    FlushAllSpecSnoc(m, p0, canvases, i);
    if id == -1 {
      assert FlushAllSpec(m, p0, canvases[..i]) + [] == FlushAllSpec(m, p0, canvases[..i]);
    } else {
      AppendAssoc(e0, FlushAllSpec(m, p0, canvases[..i]), FlushParam(id, p0[canvases[i]]));
      RestrictTwice(canvases, pend.Keys, pend'.Keys);
    }
  }

  lemma AppendAssoc(e0: seq<CanvasMutationParam>, done: seq<CanvasMutationParam>, x: CanvasMutationParam)
    ensures e0 + done + [x] == e0 + (done + [x])
  {
  }

  /** A ghost wrapper for the loop invariant of a full flush after visiting `canvases[..i]`. */
  ghost predicate FlushedUpTo(cm: CanvasManager, p0: map<NodeRef, seq<CanvasCommandWithType>>, e0: seq<CanvasMutationParam>,
                              canvases: seq<NodeRef>, i: nat)
    requires i <= |canvases| && forall c :: c in p0 ==> p0[c] != []
    reads cm, cm.mirror
  {
    cm.emitted == e0 + FlushAllSpec(cm.mirror, p0, canvases[..i]) &&
    cm.pending == Unflushed(cm.mirror, p0, canvases[i..]) &&
    cm.order == Restrict(canvases, cm.pending.Keys)
  }

  /** The part of a buffer a full flush has not removed yet: canvases still to visit, and those without an id. */
  ghost function Unflushed(m: Mirror, p0: map<NodeRef, seq<CanvasCommandWithType>>, rest: seq<NodeRef>)
    : (r: map<NodeRef, seq<CanvasCommandWithType>>)
    reads m
    ensures forall c :: c in r <==> c in p0 && (c in rest || m.GetId(Some(c)) == -1)
    ensures forall c :: c in r ==> r[c] == p0[c]
  {
    map c | c in p0 && (c in rest || m.GetId(Some(c)) == -1) :: p0[c]
  }

  /** The pending lists of canvases the mirror has no id for: a full flush leaves exactly these. */
  function WithoutId(m: Mirror, p: map<NodeRef, seq<CanvasCommandWithType>>): (r: map<NodeRef, seq<CanvasCommandWithType>>)
    reads m
    ensures forall c :: c in r <==> c in p && m.GetId(Some(c)) == -1
    ensures forall c :: c in r ==> r[c] == p[c]
  {
    map c | c in p && m.GetId(Some(c)) == -1 :: p[c]
  }

  /** Before the first canvas: nothing emitted yet, nothing removed, and the order is the whole buffer's. */
  lemma FlushStart(m: Mirror, p0: map<NodeRef, seq<CanvasCommandWithType>>, e0: seq<CanvasMutationParam>, canvases: seq<NodeRef>)
    requires (forall c :: c in p0 <==> c in canvases) && forall c :: c in p0 ==> p0[c] != []
    ensures e0 + FlushAllSpec(m, p0, canvases[..0]) == e0
    ensures Unflushed(m, p0, canvases[0..]) == p0
    ensures Restrict(canvases, p0.Keys) == canvases
  {
    RestrictAll(canvases, p0.Keys);
    assert canvases[0..] == canvases;
    assert canvases[..0] == [] && e0 + [] == e0;
  }

  /** After the last canvas: the whole order has been visited and only canvases without an id remain. */
  lemma FlushEnd(m: Mirror, p0: map<NodeRef, seq<CanvasCommandWithType>>, canvases: seq<NodeRef>)
    ensures canvases[..|canvases|] == canvases
    ensures Unflushed(m, p0, canvases[|canvases|..]) == WithoutId(m, p0)
  {
    assert canvases[|canvases|..] == [];
  }

  lemma UnflushedNone(m: Mirror, p0: map<NodeRef, seq<CanvasCommandWithType>>)
    ensures Unflushed(m, p0, []) == WithoutId(m, p0)
  {
  }

  lemma UnflushedStep(m: Mirror, p0: map<NodeRef, seq<CanvasCommandWithType>>, canvases: seq<NodeRef>, i: nat)
    requires i < |canvases| && NoDups(canvases) && canvases[i] in p0
    ensures var c := canvases[i];
      var u := Unflushed(m, p0, canvases[i..]);
      c in u && u[c] == p0[c] &&
      Unflushed(m, p0, canvases[i + 1..]) == if m.GetId(Some(c)) == -1 then u else u - {c}
  {
    assert canvases[i..] == [canvases[i]] + canvases[i + 1..];
  }

  lemma FlushAllSpecSnoc(m: Mirror, p0: map<NodeRef, seq<CanvasCommandWithType>>, cs: seq<NodeRef>, i: nat)
    requires i < |cs| && forall c :: c in p0 ==> p0[c] != []
    ensures var c := cs[i];
      var id := m.GetId(Some(c));
      FlushAllSpec(m, p0, cs[..i + 1]) ==
        FlushAllSpec(m, p0, cs[..i]) + (if c in p0 && id != -1 then [FlushParam(id, p0[c])] else [])
  {
    assert cs[..i + 1][..i] == cs[..i];
  }

  /** A frozen or locked manager keeps every queued command through a full flush. */
  method FlushWhileFrozenKeepsQueue(cm: CanvasManager)
    requires cm.Valid() && cm.frozen
    modifies cm
    ensures cm.pending == old(cm.pending) && cm.emitted == old(cm.emitted)
  {
    cm.FlushPendingCanvasMutations();
  }
}
