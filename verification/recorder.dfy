/**
 * The recorder's emission path: every event goes through `wrappedEmit`, which forwards it
 * (packed when a pack function is configured) and keeps the checkout bookkeeping, the last full
 * snapshot and the number of incremental events since it. A checkout (a fresh Meta plus
 * FullSnapshot pair) is forced after N incremental events or after more than T milliseconds.
 * The clock, the window and the DOM snapshot are inputs, gathered in `Env`.
 */
module Recorder {
  import opened Wrappers
  import opened SnapshotTypes
  import opened EventTypes

  /** What `emit` receives: the event itself, or the string `packFn` made of it. */
  datatype EmitArg = Plain(event: Event) | Packed(packed: string)

  /** One call of the user's `emit(event, isCheckout)`. */
  datatype Emitted = Emitted(arg: EmitArg, isCheckout: Option<bool>)

  datatype Config = Config(checkoutEveryNms: Option<int>, checkoutEveryNth: Option<int>, packFn: Option<Event -> string>)

  /**
   * What a full snapshot reads from the environment: the two `Date.now()` readings, the location
   * and window size for the Meta event, the serialized document (if serializing succeeded) and
   * the scroll offsets.
   */
  datatype Env = Env(metaTime: int, snapshotTime: int, href: string, width: int, height: int,
                     node: Option<SerializedNode>, left: int, top: int)

  /** The closure state of `record`: `lastFullSnapshotEvent` and `incrementalSnapshotCount`. */
  datatype RecState = RecState(lastFullSnapshot: Option<Event>, count: int)

  /** What one `wrappedEmit` call leaves behind; `ok` is false when it threw. */
  datatype Outcome = Outcome(state: RecState, log: seq<Emitted>, ok: bool)

  /** A JavaScript option is truthy when it is set and not 0. */
  predicate Truthy(o: Option<int>) {
    o.Some? && o.value != 0
  }

  function Pack(cfg: Config, e: Event): EmitArg {
    if cfg.packFn.Some? then Packed(cfg.packFn.value(e)) else Plain(e)
  }

  function MetaEvent(env: Env): Event {
    Event(Meta(env.href, env.width, env.height), env.metaTime, None)
  }

  function FullSnapshotEvent(env: Env, node: SerializedNode): Event {
    Event(FullSnapshot(node, env.top, env.left), env.snapshotTime, None)
  }

  /** `exceedCount` */
  predicate ExceedCount(cfg: Config, count: int) {
    Truthy(cfg.checkoutEveryNth) && count >= cfg.checkoutEveryNth.value
  }

  /** `exceedTime`, which throws when no full snapshot was ever taken. */
  function ExceedTime(cfg: Config, timestamp: int, last: Option<Event>): (r: Result<bool, string>)
    ensures r.Err? <==> Truthy(cfg.checkoutEveryNms) && last.None?
    ensures r == Ok(true) <==>
      Truthy(cfg.checkoutEveryNms) && last.Some? && timestamp - last.value.timestamp > cfg.checkoutEveryNms.value
  {
    if !Truthy(cfg.checkoutEveryNms) then Ok(false)
    else if last.None? then Err("Cannot read properties of undefined (reading 'timestamp')")
    else Ok(timestamp - last.value.timestamp > cfg.checkoutEveryNms.value)
  }

  /** `takeFullSnapshot(isCheckout)`: the Meta event, then the FullSnapshot if serializing succeeded. */
  function TakeFullSnapshotSpec(cfg: Config, st: RecState, isCheckout: bool, env: Env): Outcome {
    var meta := Emitted(Pack(cfg, MetaEvent(env)), Some(isCheckout));
    if env.node.None? then Outcome(st, [meta], true)
    else
      var full := FullSnapshotEvent(env, env.node.value);
      Outcome(RecState(Some(full), 0), [meta, Emitted(Pack(cfg, full), None)], true)
  }

  /** `wrappedEmit(e, isCheckout)` */
  function WrappedEmitSpec(cfg: Config, st: RecState, e: Event, isCheckout: Option<bool>, env: Env): Outcome {
    var first := Emitted(Pack(cfg, e), isCheckout);
    match e.body
    case FullSnapshot(_, _, _) => Outcome(RecState(Some(e), 0), [first], true)
    case IncrementalSnapshot(_) =>
      var st' := st.(count := st.count + 1);
      var time := ExceedTime(cfg, e.timestamp, st.lastFullSnapshot);
      if time.Err? then Outcome(st', [first], false)
      else if ExceedCount(cfg, st'.count) || time.value then
        var o := TakeFullSnapshotSpec(cfg, st', true, env);
        Outcome(o.state, [first] + o.log, true)
      else Outcome(st', [first], true)
    case _ => Outcome(st, [first], true)
  }

  /** The event is always forwarded first, packed when `packFn` is given, with `isCheckout` unchanged. */
  lemma EmitsEventFirst(cfg: Config, st: RecState, e: Event, isCheckout: Option<bool>, env: Env)
    ensures var o := WrappedEmitSpec(cfg, st, e, isCheckout, env);
      |o.log| >= 1 && o.log[0].isCheckout == isCheckout &&
      (cfg.packFn.None? ==> o.log[0].arg == Plain(e)) &&
      (cfg.packFn.Some? ==> o.log[0].arg == Packed(cfg.packFn.value(e)))
  {
  }

  /** A FullSnapshot becomes the last full snapshot and zeroes the count. */
  lemma FullSnapshotResetsCount(cfg: Config, st: RecState, e: Event, isCheckout: Option<bool>, env: Env)
    requires e.body.FullSnapshot?
    ensures WrappedEmitSpec(cfg, st, e, isCheckout, env).state == RecState(Some(e), 0)
  {
  }

  /** Only incremental events move the count; other kinds leave the state as it was. */
  lemma OtherKindsKeepState(cfg: Config, st: RecState, e: Event, isCheckout: Option<bool>, env: Env)
    requires !e.body.FullSnapshot? && !e.body.IncrementalSnapshot?
    ensures WrappedEmitSpec(cfg, st, e, isCheckout, env) == Outcome(st, [Emitted(Pack(cfg, e), isCheckout)], true)
  {
  }

  /**
   * The N-th incremental event since the last full snapshot forces a checkout: a Meta event flagged
   * as a checkout, then the FullSnapshot (emitted with no flag), after which the count is 0 again.
   */
  lemma CheckoutAfterNth(cfg: Config, st: RecState, e: Event, isCheckout: Option<bool>, env: Env)
    requires Truthy(cfg.checkoutEveryNth) && st.count + 1 >= cfg.checkoutEveryNth.value
    requires !Truthy(cfg.checkoutEveryNms) || st.lastFullSnapshot.Some?
    requires e.body.IncrementalSnapshot? && env.node.Some?
    ensures var o := WrappedEmitSpec(cfg, st, e, isCheckout, env);
      o.ok && o.state == RecState(Some(FullSnapshotEvent(env, env.node.value)), 0) &&
      |o.log| == 3 &&
      o.log[1] == Emitted(Pack(cfg, MetaEvent(env)), Some(true)) &&
      o.log[2] == Emitted(Pack(cfg, FullSnapshotEvent(env, env.node.value)), None)
  {
  }

  /**
   * With a positive N and a snapshot that succeeds, the count stays in `0 .. N-1` after every event,
   * unless the time check throws (see MissingFullSnapshotThrows).
   */
  lemma CountStaysBelowNth(cfg: Config, st: RecState, e: Event, isCheckout: Option<bool>, env: Env)
    requires Truthy(cfg.checkoutEveryNth) && cfg.checkoutEveryNth.value >= 1
    requires 0 <= st.count < cfg.checkoutEveryNth.value && env.node.Some?
    requires !Truthy(cfg.checkoutEveryNms) || st.lastFullSnapshot.Some?
    ensures var o := WrappedEmitSpec(cfg, st, e, isCheckout, env);
      0 <= o.state.count < cfg.checkoutEveryNth.value
  {
  }

  /** An incremental event more than T ms after the last full snapshot forces a checkout. */
  lemma CheckoutAfterNms(cfg: Config, st: RecState, e: Event, isCheckout: Option<bool>, env: Env)
    requires Truthy(cfg.checkoutEveryNms) && st.lastFullSnapshot.Some?
    requires e.body.IncrementalSnapshot? && e.timestamp - st.lastFullSnapshot.value.timestamp > cfg.checkoutEveryNms.value
    ensures var o := WrappedEmitSpec(cfg, st, e, isCheckout, env);
      o.ok && |o.log| >= 2 && o.log[1] == Emitted(Pack(cfg, MetaEvent(env)), Some(true)) &&
      (env.node.Some? ==> o.state.lastFullSnapshot == Some(FullSnapshotEvent(env, env.node.value)))
  {
  }

  /** Below both thresholds an incremental event is only forwarded and counted: no checkout follows. */
  lemma NoCheckoutBelowThresholds(cfg: Config, st: RecState, e: Event, isCheckout: Option<bool>, env: Env)
    requires e.body.IncrementalSnapshot? && !ExceedCount(cfg, st.count + 1)
    requires ExceedTime(cfg, e.timestamp, st.lastFullSnapshot) == Ok(false)
    ensures WrappedEmitSpec(cfg, st, e, isCheckout, env) ==
      Outcome(st.(count := st.count + 1), [Emitted(Pack(cfg, e), isCheckout)], true)
  {
  }

  /**
   * `wrappedEmit` emits anything beyond the event itself exactly when the event is incremental and
   * a threshold is reached, and what follows then opens with a Meta event flagged as a checkout.
   */
  lemma CheckoutOnlyAtThresholds(cfg: Config, st: RecState, e: Event, isCheckout: Option<bool>, env: Env)
    ensures var o := WrappedEmitSpec(cfg, st, e, isCheckout, env);
      var time := ExceedTime(cfg, e.timestamp, st.lastFullSnapshot);
      (|o.log| > 1 <==> e.body.IncrementalSnapshot? && time.Ok? && (ExceedCount(cfg, st.count + 1) || time.value)) &&
      (|o.log| > 1 ==> o.log[1] == Emitted(Pack(cfg, MetaEvent(env)), Some(true)))
  {
  }

  /** With a time threshold but no full snapshot yet, an incremental event throws after being emitted. */
  lemma MissingFullSnapshotThrows(cfg: Config, st: RecState, e: Event, isCheckout: Option<bool>, env: Env)
    requires Truthy(cfg.checkoutEveryNms) && st.lastFullSnapshot.None? && e.body.IncrementalSnapshot?
    ensures var o := WrappedEmitSpec(cfg, st, e, isCheckout, env);
      !o.ok && o.log == [Emitted(Pack(cfg, e), isCheckout)] && o.state.count == st.count + 1
  {
  }

  /** When serializing fails only the Meta event goes out and the bookkeeping is untouched. */
  lemma FailedSnapshotEmitsMetaOnly(cfg: Config, st: RecState, isCheckout: bool, env: Env)
    requires env.node.None?
    ensures var o := TakeFullSnapshotSpec(cfg, st, isCheckout, env);
      o.state == st && |o.log| == 1 && o.log[0].isCheckout == Some(isCheckout)
  {
  }

  class Recorder {
    const cfg: Config
    var lastFullSnapshotEvent: Option<Event>
    var incrementalSnapshotCount: int
    /** Every call of the user's `emit`, in order. */
    var emitted: seq<Emitted>

    function State(): RecState
      reads this
    {
      RecState(lastFullSnapshotEvent, incrementalSnapshotCount)
    }

    constructor(cfg: Config)
      ensures this.cfg == cfg && lastFullSnapshotEvent == None && incrementalSnapshotCount == 0 && emitted == []
    {
      this.cfg := cfg;
      lastFullSnapshotEvent := None;
      incrementalSnapshotCount := 0;
      emitted := [];
    }

    /** `wrappedEmit`; `ok` is false when it threw. */
    method WrappedEmit(e: Event, isCheckout: Option<bool>, env: Env) returns (ok: bool)
      modifies this
      ensures var o := WrappedEmitSpec(cfg, old(State()), e, isCheckout, env);
        State() == o.state && emitted == old(emitted) + o.log && ok == o.ok
      decreases if e.body.IncrementalSnapshot? then 2 else 0
    {
      emitted := emitted + [Emitted(Pack(cfg, e), isCheckout)];
      ok := true;
      if e.body.FullSnapshot? {
        lastFullSnapshotEvent := Some(e);
        incrementalSnapshotCount := 0;
      } else if e.body.IncrementalSnapshot? {
        incrementalSnapshotCount := incrementalSnapshotCount + 1;
        var exceedCount := ExceedCount(cfg, incrementalSnapshotCount);
        var exceedTime := ExceedTime(cfg, e.timestamp, lastFullSnapshotEvent);
        if exceedTime.Err? {
          ok := false;
          return;
        }
        if exceedCount || exceedTime.value {
          TakeFullSnapshot(true, env);
        }
      }
    }

    /** `takeFullSnapshot(isCheckout)` */
    method TakeFullSnapshot(isCheckout: bool, env: Env)
      modifies this
      ensures var o := TakeFullSnapshotSpec(cfg, old(State()), isCheckout, env);
        State() == o.state && emitted == old(emitted) + o.log
      decreases 1
    {
      var _ := WrappedEmit(MetaEvent(env), Some(isCheckout), env);
      if env.node.None? {
        return;
      }
      var _ := WrappedEmit(FullSnapshotEvent(env, env.node.value), None, env);
    }

    /** The DOMContentLoaded listener. */
    method OnDomContentLoaded(now: int, env: Env)
      modifies this
      ensures State() == old(State())
      ensures emitted == old(emitted) + [Emitted(Pack(cfg, Event(DomContentLoaded, now, None)), None)]
    {
      var _ := WrappedEmit(Event(DomContentLoaded, now, None), None, env);
    }

    /** `init`: the first full snapshot, not a checkout. */
    method Init(env: Env)
      modifies this
      ensures var o := TakeFullSnapshotSpec(cfg, old(State()), false, env);
        State() == o.state && emitted == old(emitted) + o.log
    {
      TakeFullSnapshot(false, env);
    }

    /** The load listener: a Load event, then `init`. */
    method OnLoad(now: int, env: Env)
      modifies this
      ensures var o := TakeFullSnapshotSpec(cfg, old(State()), false, env);
        State() == o.state &&
        emitted == old(emitted) + [Emitted(Pack(cfg, Event(Load, now, None)), None)] + o.log
    {
      var _ := WrappedEmit(Event(Load, now, None), None, env);
      Init(env);
    }
  }

  /**
   * `record(options)`: without an `emit` it throws before anything else; otherwise it starts a
   * recorder and, when the document is already interactive or complete, takes the first snapshot.
   */
  method Record(cfg: Config, hasEmit: bool, documentReady: bool, env: Env) returns (r: Result<Recorder, string>)
    ensures !hasEmit <==> r.Err?
    ensures !hasEmit ==> r.error == "emit function is required"
    ensures r.Ok? ==> fresh(r.value) && r.value.cfg == cfg
    ensures r.Ok? && !documentReady ==> r.value.emitted == [] && r.value.State() == RecState(None, 0)
    ensures r.Ok? && documentReady ==>
      var o := TakeFullSnapshotSpec(cfg, RecState(None, 0), false, env);
      r.value.emitted == o.log && r.value.State() == o.state
  {
    if !hasEmit {
      return Err("emit function is required");
    }
    var rec := new Recorder(cfg);
    if documentReady {
      rec.Init(env);
    }
    r := Ok(rec);
  }

  /**
   * `record.addCustomEvent(tag, payload)`: it throws unless recording was started, that is unless a
   * recorder exists; otherwise it emits a Custom event stamped `now`.
   */
  method AddCustomEvent(started: Option<Recorder>, tag: string, payload: Payload, now: int, env: Env)
    returns (r: Result<(), string>)
    modifies if started.Some? then {started.value} else {}
    ensures started.None? <==> r.Err?
    ensures started.None? ==> r.error == "please add custom event after start recording"
    ensures started.Some? ==>
      started.value.State() == old(started.value.State()) &&
      started.value.emitted == old(started.value.emitted) +
        [Emitted(Pack(started.value.cfg, Event(Custom(tag, payload), now, None)), None)]
  {
    if started.None? {
      return Err("please add custom event after start recording");
    }
    var _ := started.value.WrappedEmit(Event(Custom(tag, payload), now, None), None, env);
    r := Ok(());
  }
}
