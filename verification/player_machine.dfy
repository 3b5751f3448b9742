/**
 * The replayer's player service: a fixed transition table over the player states, and the small
 * interpreter that holds the current state, a NotStarted/Running/Stopped status and the set of
 * subscribed listeners. Listeners are identified by a number; a call to a listener is recorded in
 * `notifications`. The machine defines no actions, so running state actions does nothing.
 */
module PlayerMachine {
  import opened Wrappers

  datatype PlayerState = Inited | Playing | Paused | Skipping | Ended

  /** An event sent to the service: one of the table's names, or any other string. */
  datatype PlayerEvent = Play | Pause | End | FastForward | Resume | BackToNormal | Replay | Other(name: string)

  /** The transition table of `createPlayerService`; an event a state does not handle keeps the state. */
  function Transition(s: PlayerState, e: PlayerEvent): (r: PlayerState)
    ensures r != s ==> s == Playing || r == Playing
    ensures r == Inited ==> s == Inited
  {
    match (s, e)
    case (Inited, Play) => Playing
    case (Playing, Pause) => Paused
    case (Playing, End) => Ended
    case (Playing, FastForward) => Skipping
    case (Paused, Resume) => Playing
    case (Skipping, BackToNormal) => Playing
    case (Ended, Replay) => Playing
    case _ => s
  }

  /** The state after a sequence of events, starting from `s`. */
  function Run(s: PlayerState, es: seq<PlayerEvent>): PlayerState
    decreases |es|
  {
    if es == [] then s else Run(Transition(s, es[0]), es[1..])
  }

  /** `inited` leaves only on PLAY, to `playing`. */
  lemma InitedOnlyPlays(e: PlayerEvent)
    ensures Transition(Inited, e) != Inited <==> e == Play
    ensures e == Play ==> Transition(Inited, e) == Playing
  {
  }

  /** From `playing`: PAUSE to `paused`, END to `ended`, FAST_FORWARD to `skipping`, nothing else. */
  lemma PlayingTransitions(e: PlayerEvent)
    ensures Transition(Playing, e) == (if e == Pause then Paused else if e == End then Ended else if e == FastForward then Skipping else Playing)
  {
  }

  /** `paused`, `skipping` and `ended` each have one way out, and it leads back to `playing`. */
  lemma SingleExitToPlaying(s: PlayerState, e: PlayerEvent)
    requires s == Paused || s == Skipping || s == Ended
    ensures Transition(s, e) != s <==>
      (s == Paused && e == Resume) || (s == Skipping && e == BackToNormal) || (s == Ended && e == Replay)
    ensures Transition(s, e) != s ==> Transition(s, e) == Playing
  {
  }

  /** Every change of state enters or leaves `playing`. */
  lemma ChangesPassThroughPlaying(s: PlayerState, e: PlayerEvent)
    requires Transition(s, e) != s
    ensures s == Playing || Transition(s, e) == Playing
  {
  }

  /** Once the player has left `inited` it never returns there. */
  lemma {:induction false} NeverBackToInited(s: PlayerState, es: seq<PlayerEvent>)
    requires s != Inited
    ensures Run(s, es) != Inited
    decreases |es|
  {
    if es != [] {
      NeverBackToInited(Transition(s, es[0]), es[1..]);
    }
  }

  /** Without PLAY the player stays in `inited`. */
  lemma {:induction false} StaysInitedWithoutPlay(es: seq<PlayerEvent>)
    requires forall i :: 0 <= i < |es| ==> es[i] != Play
    ensures Run(Inited, es) == Inited
    decreases |es|
  {
    if es != [] {
      StaysInitedWithoutPlay(es[1..]);
    }
  }

  /** One call per listener, in order, each with state `s`. */
  function Notify(ls: seq<Listener>, s: PlayerState): (r: seq<(Listener, PlayerState)>)
    ensures |r| == |ls| && forall i :: 0 <= i < |ls| ==> r[i] == (ls[i], s)
  {
    seq(|ls|, i requires 0 <= i < |ls| => (ls[i], s))
  }

  /** `ls` without `l`, the others kept in order. */
  function Without(ls: seq<Listener>, l: Listener): (r: seq<Listener>)
    ensures forall x :: x in r <==> x in ls && x != l
    ensures |r| <= |ls|
    ensures NoDups(ls) ==> NoDups(r)
  {
    if ls == [] then []
    else
      var init := Without(ls[..|ls| - 1], l);
      var last := ls[|ls| - 1];
      assert forall x :: x in ls[..|ls| - 1] ==> x in ls;
      assert NoDups(ls) ==> last !in ls[..|ls| - 1];
      if last != l then init + [last] else init
  }

  /** `InterpreterStatus` */
  datatype Status = NotStarted | Running | Stopped

  type Listener = nat

  /** `interpret(machine)` for the player machine. */
  class Interpreter {
    var state: PlayerState
    var status: Status
    /** The listener `Set`, in insertion order. */
    var listeners: seq<Listener>
    /** Every listener call, with the state it received. */
    var notifications: seq<(Listener, PlayerState)>

    ghost predicate Valid()
      reads this
    {
      NoDups(listeners)
    }

    constructor()
      ensures Valid()
      ensures state == Inited && status == NotStarted && listeners == [] && notifications == []
    {
      state := Inited;
      status := NotStarted;
      listeners := [];
      notifications := [];
    }

    /** `send`: ignored unless running; otherwise transition, then call every listener with the new state. */
    method Send(e: PlayerEvent)
      requires Valid()
      modifies this
      ensures Valid()
      ensures old(status) != Running ==> state == old(state) && notifications == old(notifications)
      ensures old(status) == Running ==>
        state == Transition(old(state), e) &&
        notifications == old(notifications) + Notify(listeners, state)
      ensures status == old(status) && listeners == old(listeners)
    {
      if status != Running {
        return;
      }
      state := Transition(state, e);
      ghost var n0 := notifications;
      var i := 0;
      while i < |listeners|
        invariant 0 <= i <= |listeners|
        invariant state == Transition(old(state), e) && status == old(status) && listeners == old(listeners)
        invariant notifications == n0 + Notify(listeners[..i], state)
      {
        assert Notify(listeners[..i + 1], state) == Notify(listeners[..i], state) + [(listeners[i], state)];
        notifications := notifications + [(listeners[i], state)];
        i := i + 1;
      }
      assert listeners[..i] == listeners;
    }

    /** `subscribe`: add the listener to the set and call it at once with the current state. */
    method Subscribe(l: Listener)
      requires Valid()
      modifies this
      ensures Valid()
      ensures listeners == if l in old(listeners) then old(listeners) else old(listeners) + [l]
      ensures notifications == old(notifications) + [(l, state)]
      ensures state == old(state) && status == old(status)
    {
      if l !in listeners {
        listeners := listeners + [l];
      }
      notifications := notifications + [(l, state)];
    }

    /** The subscription's `unsubscribe`: remove only this listener. */
    method Unsubscribe(l: Listener)
      requires Valid()
      modifies this
      ensures Valid()
      ensures listeners == Without(old(listeners), l)
      ensures state == old(state) && status == old(status) && notifications == old(notifications)
    {
      var kept: seq<Listener> := [];
      var i := 0;
      while i < |listeners|
        invariant 0 <= i <= |listeners|
        invariant kept == Without(listeners[..i], l)
      {
        assert listeners[..i + 1][..i] == listeners[..i];
        if listeners[i] != l {
          kept := kept + [listeners[i]];
        }
        i := i + 1;
      }
      assert listeners[..i] == listeners;
      listeners := kept;
    }

    /** `start`: the status becomes Running. */
    method Start()
      modifies this
      ensures status == Running
      ensures state == old(state) && listeners == old(listeners) && notifications == old(notifications)
    {
      status := Running;
    }

    /** `stop`: the status becomes Stopped and every listener is dropped. */
    method Stop()
      modifies this
      ensures Valid()
      ensures status == Stopped && listeners == []
      ensures state == old(state) && notifications == old(notifications)
    {
      status := Stopped;
      listeners := [];
    }
  }

  /** After `stop`, sending changes nothing and calls no listener. */
  method SendAfterStopIgnored(p: Interpreter, e: PlayerEvent)
    requires p.Valid()
    modifies p
    ensures p.state == old(p.state) && p.notifications == old(p.notifications) && p.status == Stopped
  {
    p.Stop();
    p.Send(e);
  }

  /** A fresh service that is started and sent PLAY is `playing`, and its subscriber saw `inited` then `playing`. */
  method PlayAfterStart() returns (final: PlayerState, seen: seq<(Listener, PlayerState)>)
    ensures final == Playing
    ensures seen == [(1, Inited), (1, Playing)]
  {
    var p := new Interpreter();
    p.Subscribe(1);
    p.Send(Play);
    p.Start();
    p.Send(Play);
    final := p.state;
    seen := p.notifications;
  }
}
