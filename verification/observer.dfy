/**
 * Decision logic of the DOM observers: input de-duplication, masking and radio-group unchecking,
 * viewport-resize de-duplication, which mouse interactions are listened to, sampling defaults,
 * and the `-1` guard on patched stylesheet methods. DOM reads (the event target, its attributes,
 * the radios sharing its name, window sizes) arrive as parameters.
 */
module Observer {
  import opened Wrappers
  import opened StringUtils
  import opened SnapshotMirror
  import opened SnapshotUtils
  import opened EventTypes

  // ----- sampling defaults -----

  /** A sampling option: unset, `true`/`false`, or a number. */
  datatype SamplingValue = Unset | Flag(b: bool) | Number(n: int)

  /** The mousemove throttle: no observer at all for `false`, the number when one is given, else 50. */
  function MousemoveThreshold(mousemove: SamplingValue): (r: Option<int>)
    ensures r.None? <==> mousemove == Flag(false)
    ensures mousemove.Number? ==> r == Some(mousemove.n)
    ensures (mousemove.Unset? || mousemove == Flag(true)) ==> r == Some(50)
  {
    match mousemove
    case Flag(false) => None
    case Number(n) => Some(n)
    case _ => Some(50)
  }

  /** The mousemove callback throttle: the number when one is given, else 500. */
  function MousemoveCallbackThreshold(mousemoveCallback: SamplingValue): (r: int)
    ensures mousemoveCallback.Number? ==> r == mousemoveCallback.n
    ensures !mousemoveCallback.Number? ==> r == 500
  {
    if mousemoveCallback.Number? then mousemoveCallback.n else 500
  }

  /** `sampling.scroll || 100`: never 0. */
  function ScrollWait(scroll: Option<int>): (r: int)
    ensures r != 0
    ensures scroll.Some? && scroll.value != 0 ==> r == scroll.value
  {
    if scroll.Some? && scroll.value != 0 then scroll.value else 100
  }

  /** The DOM events the input observer listens to: only `change` when sampling says `'last'`. */
  function InputEventNames(input: Option<string>): (r: seq<string>)
    ensures "change" in r
    ensures "input" in r <==> input != Some("last")
  {
    if input == Some("last") then ["change"] else ["input", "change"]
  }

  // ----- mouse interactions -----

  /** `sampling.mouseInteraction`: `false`, `true` or unset, or a per-key map. */
  datatype MouseInteractionSampling = Disabled | AllEnabled | PerKey(disableMap: map<string, bool>)

  /** `Object.keys(MouseInteractions)`: the reverse-mapping keys "0".."9", then the names. */
  const MouseInteractionKeys: seq<string> :=
    ["0", "1", "2", "3", "4", "5", "6", "7", "8", "9"] + MouseInteractionNames

  predicate IsNumericKey(k: string) {
    |k| > 0 && forall i :: 0 <= i < |k| ==> '0' <= k[i] <= '9'
  }

  predicate EndsWith(s: string, suffix: string) {
    |suffix| <= |s| && s[|s| - |suffix|..] == suffix
  }

  predicate KeptKey(s: MouseInteractionSampling, k: string) {
    !IsNumericKey(k) && !EndsWith(k, "_Departed") && !(s.PerKey? && k in s.disableMap && !s.disableMap[k])
  }

  function FilterKeys(s: MouseInteractionSampling, keys: seq<string>): (r: seq<string>)
    ensures forall k :: k in r <==> k in keys && KeptKey(s, k)
  {
    if keys == [] then []
    else (if KeptKey(s, keys[0]) then [keys[0]] else []) + FilterKeys(s, keys[1..])
  }

  /** The keys the mouse-interaction observer installs a listener for, in enum order. */
  function RecordedInteractionKeys(s: MouseInteractionSampling): seq<string> {
    if s.Disabled? then [] else FilterKeys(s, MouseInteractionKeys)
  }

  lemma NamesNotNumeric(k: string)
    requires k in MouseInteractionNames
    ensures !IsNumericKey(k)
  {
    assert !('0' <= k[0] <= '9');
  }

  lemma NamesDeparted(k: string)
    requires k in MouseInteractionNames
    ensures EndsWith(k, "_Departed") <==> k == "TouchMove_Departed"
  {
  }

  /**
   * A key is listened to exactly when mouse interactions are not disabled, the key is a member
   * name other than `TouchMove_Departed`, and the sampling map does not set it to `false`.
   */
  lemma RecordedInteractions(s: MouseInteractionSampling, k: string)
    ensures k in RecordedInteractionKeys(s) <==>
      !s.Disabled? && k in MouseInteractionNames && k != "TouchMove_Departed" &&
      !(s.PerKey? && k in s.disableMap && !s.disableMap[k])
  {
    if !s.Disabled? {
      if k in MouseInteractionNames {
        NamesNotNumeric(k);
        NamesDeparted(k);
      } else if k in MouseInteractionKeys {
        assert k in ["0", "1", "2", "3", "4", "5", "6", "7", "8", "9"];
        assert IsNumericKey(k);
      }
    }
  }

  /** The listener for one key: blocked targets and touches without a changed touch report nothing. */
  function MouseInteractionCallback(key: string, blocked: bool, point: Option<(int, int)>, id: int)
    : (r: Option<IncrementalData>)
    ensures r.Some? <==> !blocked && point.Some? && MouseInteractionNamed(key).Some?
    ensures r.Some? ==> r.value == MouseInteractionData(MouseInteractionNamed(key).value, id, point.value.0, point.value.1)
  {
    if blocked || point.None? then None
    else match MouseInteractionNamed(key)
      case None => None
      case Some(m) => Some(MouseInteractionData(m, id, point.value.0, point.value.1))
  }

  // ----- input -----

  /** `inputValue` */
  datatype InputValue = InputValue(text: string, isChecked: bool, userTriggered: Option<bool>)

  /** `wrapEventWithUserTriggeredFlag`: a copy, without `userTriggered` when the flag is off. */
  function WrapEventWithUserTriggeredFlag(v: InputValue, enable: bool): (r: InputValue)
    ensures r.text == v.text && r.isChecked == v.isChecked
    ensures enable ==> r == v
    ensures !enable ==> r.userTriggered.None?
  {
    if enable then v else v.(userTriggered := None)
  }

  /** What the input observer reads from an event target. */
  datatype InputTarget = InputTarget(
    node: NodeRef, tagName: string, inputType: string, value: string, checked: bool,
    name: Option<string>, blocked: bool, classes: set<string>)

  const InputTags: seq<string> := ["INPUT", "TEXTAREA", "SELECT"]

  /** A missing, tagless, non-input, blocked or ignored target produces nothing. */
  predicate IgnoredTarget(target: Option<InputTarget>, ignoreClass: string) {
    target.None? || target.value.tagName == "" || target.value.tagName !in InputTags ||
    target.value.blocked || ignoreClass in target.value.classes
  }

  predicate IsCheckable(t: InputTarget) {
    t.inputType == "radio" || t.inputType == "checkbox"
  }

  /** The observer's own test before masking: the option for the lower-cased tag or for the raw type. */
  predicate MaskPrecheck(options: MaskInputOptions, t: InputTarget) {
    OptionSet(options, ToLower(t.tagName)) || OptionSet(options, t.inputType)
  }

  /**
   * The text reported for a target: raw for radios and checkboxes, otherwise masked when set. The
   * observer calls `maskInputValue` without an element, so a custom masking function receives none.
   */
  function ReportedText(options: MaskInputOptions, maskInputFn: Option<MaskInputFn>, t: InputTarget): string {
    if IsCheckable(t) then t.value
    else if MaskPrecheck(options, t) then MaskInputValue(options, t.tagName, Some(t.inputType), Some(t.value), None, maskInputFn, None)
    else t.value
  }

  /**
   * For a lower-case type the two tests agree, so a text input's reported text is exactly what
   * `maskInputValue` makes of it; checkable inputs report their raw value.
   */
  lemma ReportedTextIsMasked(options: MaskInputOptions, maskInputFn: Option<MaskInputFn>, t: InputTarget)
    requires ToLower(t.inputType) == t.inputType
    ensures IsCheckable(t) ==> ReportedText(options, maskInputFn, t) == t.value
    ensures !IsCheckable(t) ==>
      ReportedText(options, maskInputFn, t) == MaskInputValue(options, t.tagName, Some(t.inputType), Some(t.value), None, maskInputFn, None)
  {
  }

  predicate NameTruthy(name: Option<string>) {
    name.Some? && name.value != ""
  }

  /** The unchecked reports for the other radios of the group, in document order. */
  function RadioOffers(t: InputTarget, radios: seq<InputTarget>, enable: bool): seq<(NodeRef, InputValue)> {
    if radios == [] then []
    else
      var last := radios[|radios| - 1];
      RadioOffers(t, radios[..|radios| - 1], enable) +
      (if last.node != t.node then [(last.node, WrapEventWithUserTriggeredFlag(InputValue(last.value, false, Some(false)), enable))] else [])
  }

  /** Every (target, value) pair the handler passes to `cbWithDedup`, in order. */
  function Offers(target: Option<InputTarget>, isTrusted: bool, radios: seq<InputTarget>,
                  options: MaskInputOptions, maskInputFn: Option<MaskInputFn>, ignoreClass: string, enable: bool)
    : seq<(NodeRef, InputValue)>
  {
    if IgnoredTarget(target, ignoreClass) then []
    else
      var t := target.value;
      var isChecked := IsCheckable(t) && t.checked;
      var first := FirstOffer(t, isTrusted, options, maskInputFn, enable);
      if t.inputType == "radio" && NameTruthy(t.name) && isChecked then [first] + RadioOffers(t, radios, enable) else [first]
  }

  lemma {:induction false} RadioOffersAreOthers(t: InputTarget, radios: seq<InputTarget>, enable: bool)
    ensures var r := RadioOffers(t, radios, enable);
      |r| <= |radios| &&
      forall i :: 0 <= i < |r| ==>
        r[i].0 != t.node && !r[i].1.isChecked && r[i].1.userTriggered == (if enable then Some(false) else None)
  {
    if radios != [] {
      RadioOffersAreOthers(t, radios[..|radios| - 1], enable);
    }
  }

  /** Targets that are missing, not inputs, blocked or ignored produce no report at all. */
  lemma IgnoredTargetsReportNothing(target: Option<InputTarget>, isTrusted: bool, radios: seq<InputTarget>,
                                    options: MaskInputOptions, maskInputFn: Option<MaskInputFn>, ignoreClass: string, enable: bool)
    ensures Offers(target, isTrusted, radios, options, maskInputFn, ignoreClass, enable) == [] <==>
      IgnoredTarget(target, ignoreClass)
  {
  }

  /**
   * Checking a named radio reports the target first and then every other radio of the group as
   * unchecked and not user-triggered; the target is never reported twice.
   */
  lemma CheckedRadioUnchecksGroup(target: Option<InputTarget>, isTrusted: bool, radios: seq<InputTarget>,
                                  options: MaskInputOptions, maskInputFn: Option<MaskInputFn>, ignoreClass: string, enable: bool)
    requires !IgnoredTarget(target, ignoreClass)
    requires target.value.inputType == "radio" && target.value.checked && NameTruthy(target.value.name)
    ensures var o := Offers(target, isTrusted, radios, options, maskInputFn, ignoreClass, enable);
      |o| >= 1 && o[0].0 == target.value.node && o[0].1.isChecked && o[0].1.text == target.value.value &&
      forall i :: 1 <= i < |o| ==>
        o[i].0 != target.value.node && !o[i].1.isChecked && o[i].1.userTriggered == (if enable then Some(false) else None)
  {
    RadioOffersAreOthers(target.value, radios, enable);
  }

  /** `cbWithDedup`'s test: no stored value, or a different text or checked state. */
  predicate Differs(last: map<NodeRef, InputValue>, n: NodeRef, v: InputValue) {
    n !in last || last[n].text != v.text || last[n].isChecked != v.isChecked
  }

  /** `cbWithDedup` over a sequence of offers: the final stored values and what was reported. */
  function DedupFold(last: map<NodeRef, InputValue>, offers: seq<(NodeRef, InputValue)>)
    : (map<NodeRef, InputValue>, seq<(NodeRef, InputValue)>)
  {
    if offers == [] then (last, [])
    else
      var (m, reported) := DedupFold(last, offers[..|offers| - 1]);
      var (n, v) := offers[|offers| - 1];
      if Differs(m, n, v) then (m[n := v], reported + [(n, v)]) else (m, reported)
  }

  /** Offering a value again right after it was stored reports nothing and stores nothing. */
  lemma RepeatedOfferIgnored(last: map<NodeRef, InputValue>, n: NodeRef, v: InputValue)
    ensures var (m, r) := DedupFold(last, [(n, v)]);
      n in m && (r == [(n, v)] ==> m == last[n := v]) && (r == [] ==> m == last) && |r| <= 1 &&
      DedupFold(m, [(n, v)]) == (m, [])
  {
    assert [(n, v)][..0] == [];
  }

  /** Every reported pair was offered, and every offered target ends up with a stored value. */
  lemma {:induction false} DedupReportsOffered(last: map<NodeRef, InputValue>, offers: seq<(NodeRef, InputValue)>)
    ensures |DedupFold(last, offers).1| <= |offers|
    ensures forall x :: x in DedupFold(last, offers).1 ==> x in offers
    ensures forall i :: 0 <= i < |offers| ==> offers[i].0 in DedupFold(last, offers).0
    ensures last.Keys <= DedupFold(last, offers).0.Keys
  {
    if offers != [] {
      var init := offers[..|offers| - 1];
      var x := offers[|offers| - 1];
      DedupReportsOffered(last, init);
      assert offers == init + [x];
      DedupFoldSnoc(last, init, x);
      forall i | 0 <= i < |init| ensures offers[i] == init[i] {}
    }
  }

  lemma DedupFoldSnoc(last: map<NodeRef, InputValue>, offers: seq<(NodeRef, InputValue)>, x: (NodeRef, InputValue))
    ensures var p := DedupFold(last, offers);
      DedupFold(last, offers + [x]) == if Differs(p.0, x.0, x.1) then (p.0[x.0 := x.1], p.1 + [x]) else p
  {
    assert (offers + [x])[..|offers|] == offers;
  }

  lemma {:induction false} DedupFoldAppend(last: map<NodeRef, InputValue>, a: seq<(NodeRef, InputValue)>, b: seq<(NodeRef, InputValue)>)
    ensures DedupFold(last, a + b).0 == DedupFold(DedupFold(last, a).0, b).0
    ensures DedupFold(last, a + b).1 == DedupFold(last, a).1 + DedupFold(DedupFold(last, a).0, b).1
    decreases |b|
  {
    if b == [] {
      assert a + b == a;
    } else {
      var init := b[..|b| - 1];
      var x := b[|b| - 1];
      assert b == init + [x];
      assert a + b == (a + init) + [x];
      DedupFoldAppend(last, a, init);
      DedupFoldSnoc(last, a + init, x);
      DedupFoldSnoc(DedupFold(last, a).0, init, x);
      var ra := DedupFold(last, a).1;
      var ri := DedupFold(DedupFold(last, a).0, init).1;
      assert ra + ri + [x] == ra + (ri + [x]);
    }
  }

  lemma RadioOffersSnoc(t: InputTarget, radios: seq<InputTarget>, i: nat, enable: bool)
    requires i < |radios|
    ensures RadioOffers(t, radios[..i + 1], enable) ==
      RadioOffers(t, radios[..i], enable) +
      (if radios[i].node != t.node then [(radios[i].node, WrapEventWithUserTriggeredFlag(InputValue(radios[i].value, false, Some(false)), enable))] else [])
  {
    assert radios[..i + 1][..i] == radios[..i];
  }

  /** The handler's own report for a target it does not ignore. */
  function FirstOffer(t: InputTarget, isTrusted: bool, options: MaskInputOptions,
                      maskInputFn: Option<MaskInputFn>, enable: bool): (NodeRef, InputValue)
  {
    (t.node, WrapEventWithUserTriggeredFlag(InputValue(ReportedText(options, maskInputFn, t), IsCheckable(t) && t.checked, Some(isTrusted)), enable))
  }

  class InputObserver {
    const mirror: Mirror
    const options: MaskInputOptions
    const maskInputFn: Option<MaskInputFn>
    const ignoreClass: string
    const userTriggeredOnInput: bool
    var lastInputValueMap: map<NodeRef, InputValue>
    /** Every `{...v, id}` handed to the input callback, in order. */
    var callbacks: seq<IncrementalData>

    function Payload(x: (NodeRef, InputValue)): IncrementalData
      reads mirror
    {
      InputData(mirror.GetId(Some(x.0)), x.1.text, x.1.isChecked, x.1.userTriggered)
    }

    function Payloads(xs: seq<(NodeRef, InputValue)>): (r: seq<IncrementalData>)
      reads mirror
      ensures |r| == |xs|
    {
      seq(|xs|, i requires 0 <= i < |xs| reads mirror => Payload(xs[i]))
    }

    /**
     * `initInputObserver`. The value map is module-level in the source, shared by every observer and
     * kept across recordings, so the observer starts from the map as the earlier observers left it.
     */
    constructor(mirror: Mirror, options: MaskInputOptions, maskInputFn: Option<MaskInputFn>,
                ignoreClass: string, userTriggeredOnInput: bool, lastInputValues: map<NodeRef, InputValue>)
      ensures this.mirror == mirror && this.options == options && this.maskInputFn == maskInputFn
      ensures this.ignoreClass == ignoreClass && this.userTriggeredOnInput == userTriggeredOnInput
      ensures lastInputValueMap == lastInputValues && callbacks == []
    {
      this.mirror := mirror;
      this.options := options;
      this.maskInputFn := maskInputFn;
      this.ignoreClass := ignoreClass;
      this.userTriggeredOnInput := userTriggeredOnInput;
      lastInputValueMap := lastInputValues;
      callbacks := [];
    }

    /** `cbWithDedup`: report and store `v` only when it differs from the stored value. */
    method CbWithDedup(n: NodeRef, v: InputValue)
      modifies this
      ensures Differs(old(lastInputValueMap), n, v) ==>
        lastInputValueMap == old(lastInputValueMap)[n := v] && callbacks == old(callbacks) + [Payload((n, v))]
      ensures !Differs(old(lastInputValueMap), n, v) ==>
        lastInputValueMap == old(lastInputValueMap) && callbacks == old(callbacks)
    {
      if n !in lastInputValueMap || lastInputValueMap[n].text != v.text || lastInputValueMap[n].isChecked != v.isChecked {
        lastInputValueMap := lastInputValueMap[n := v];
        callbacks := callbacks + [Payload((n, v))];
      }
    }

    /** `eventHandler`: the target's report, then the unchecked radios of its group. */
    method EventHandler(target: Option<InputTarget>, isTrusted: bool, radios: seq<InputTarget>)
      modifies this
      ensures var offers := Offers(target, isTrusted, radios, options, maskInputFn, ignoreClass, userTriggeredOnInput);
        lastInputValueMap == DedupFold(old(lastInputValueMap), offers).0 &&
        callbacks == old(callbacks) + Payloads(DedupFold(old(lastInputValueMap), offers).1)
    {
      if IgnoredTarget(target, ignoreClass) {
        assert Payloads([]) == [];
        return;
      }
      var t := target.value;
      ghost var m0 := lastInputValueMap;
      ghost var c0 := callbacks;
      var isChecked := ReportTarget(t, isTrusted);
      ghost var first := FirstOffer(t, isTrusted, options, maskInputFn, userTriggeredOnInput);
      if t.inputType == "radio" && NameTruthy(t.name) && isChecked {
        ghost var rest := RadioOffers(t, radios, userTriggeredOnInput);
        UncheckOthers(t, radios);
        ReportThenUncheck(m0, c0, first, rest);
        assert Offers(target, isTrusted, radios, options, maskInputFn, ignoreClass, userTriggeredOnInput) == [first] + rest;
      } else {
        assert Offers(target, isTrusted, radios, options, maskInputFn, ignoreClass, userTriggeredOnInput) == [first];
      }
    }

    /** De-duplicating the target's report and then the radio offers is de-duplicating them together. */
    lemma ReportThenUncheck(m0: map<NodeRef, InputValue>, c0: seq<IncrementalData>,
                            first: (NodeRef, InputValue), rest: seq<(NodeRef, InputValue)>)
      ensures var m1 := DedupFold(m0, [first]).0;
        DedupFold(m0, [first] + rest).0 == DedupFold(m1, rest).0 &&
        c0 + Payloads(DedupFold(m0, [first]).1) + Payloads(DedupFold(m1, rest).1) ==
        c0 + Payloads(DedupFold(m0, [first] + rest).1)
    {
      var m1 := DedupFold(m0, [first]).0;
      DedupFoldAppend(m0, [first], rest);
      PayloadsAppend(DedupFold(m0, [first]).1, DedupFold(m1, rest).1);
    }

    /** The first half of `eventHandler`: read, mask and report the target's own value. */
    method ReportTarget(t: InputTarget, isTrusted: bool) returns (isChecked: bool)
      modifies this
      ensures isChecked == (IsCheckable(t) && t.checked)
      ensures var first := FirstOffer(t, isTrusted, options, maskInputFn, userTriggeredOnInput);
        lastInputValueMap == DedupFold(old(lastInputValueMap), [first]).0 &&
        callbacks == old(callbacks) + Payloads(DedupFold(old(lastInputValueMap), [first]).1)
    {
      var text := t.value;
      isChecked := false;
      if IsCheckable(t) {
        isChecked := t.checked;
      } else if MaskPrecheck(options, t) {
        text := MaskInputValue(options, t.tagName, Some(t.inputType), Some(text), None, maskInputFn, None);
      }
      var first := (t.node, WrapEventWithUserTriggeredFlag(InputValue(text, isChecked, Some(isTrusted)), userTriggeredOnInput));
      assert first == FirstOffer(t, isTrusted, options, maskInputFn, userTriggeredOnInput);
      ghost var m0 := lastInputValueMap;
      CbWithDedup(first.0, first.1);
      DedupFoldSnoc(m0, [], first);
      assert [] + [first] == [first];
      PayloadsAppend([], [first]);
    }

    lemma PayloadsAppend(xs: seq<(NodeRef, InputValue)>, ys: seq<(NodeRef, InputValue)>)
      ensures Payloads(xs + ys) == Payloads(xs) + Payloads(ys)
    {
    }

    /** One more offer: the fold stores and reports it exactly when it differs from the stored value. */
    lemma OfferStep(m0: map<NodeRef, InputValue>, offers: seq<(NodeRef, InputValue)>, x: (NodeRef, InputValue))
      ensures var p := DedupFold(m0, offers);
        var q := DedupFold(m0, offers + [x]);
        q.0 == (if Differs(p.0, x.0, x.1) then p.0[x.0 := x.1] else p.0) &&
        Payloads(q.1) == Payloads(p.1) + (if Differs(p.0, x.0, x.1) then [Payload(x)] else [])
    {
      DedupFoldSnoc(m0, offers, x);
      PayloadsAppend(DedupFold(m0, offers).1, [x]);
    }

    /** The radio-group loop of `eventHandler`: every other radio of the group is offered as unchecked. */
    method UncheckOthers(t: InputTarget, radios: seq<InputTarget>)
      modifies this
      ensures lastInputValueMap == DedupFold(old(lastInputValueMap), RadioOffers(t, radios, userTriggeredOnInput)).0
      ensures callbacks == old(callbacks) + Payloads(DedupFold(old(lastInputValueMap), RadioOffers(t, radios, userTriggeredOnInput)).1)
    {
      ghost var m0 := lastInputValueMap;
      ghost var c0 := callbacks;
      var i := 0;
      while i < |radios|
        invariant 0 <= i <= |radios|
        invariant Unchecked(m0, c0, t, radios[..i])
      {
        UncheckRadio(m0, c0, t, radios, i);
        i := i + 1;
      }
      assert radios[..i] == radios;
    }

    /** The loop invariant of `UncheckOthers` after the radios `done`. */
    ghost predicate Unchecked(m0: map<NodeRef, InputValue>, c0: seq<IncrementalData>, t: InputTarget, done: seq<InputTarget>)
      reads this, mirror
    {
      lastInputValueMap == DedupFold(m0, RadioOffers(t, done, userTriggeredOnInput)).0 &&
      callbacks == c0 + Payloads(DedupFold(m0, RadioOffers(t, done, userTriggeredOnInput)).1)
    }

    /** One radio of the group: offered as unchecked unless it is the target itself. */
    method UncheckRadio(ghost m0: map<NodeRef, InputValue>, ghost c0: seq<IncrementalData>, t: InputTarget,
                        radios: seq<InputTarget>, i: nat)
      requires i < |radios| && Unchecked(m0, c0, t, radios[..i])
      modifies this
      ensures Unchecked(m0, c0, t, radios[..i + 1])
    {
      var el := radios[i];
      ghost var offers := RadioOffers(t, radios[..i], userTriggeredOnInput);
      RadioOffersSnoc(t, radios, i, userTriggeredOnInput);
      if el.node != t.node {
        var v := WrapEventWithUserTriggeredFlag(InputValue(el.value, false, Some(false)), userTriggeredOnInput);
        OfferStep(m0, offers, (el.node, v));
        CbWithDedup(el.node, v);
      } else {
        assert offers + [] == offers;
      }
    }
  }

  // ----- viewport -----

  /** The sizes the viewport callback reports for a sequence of measured (width, height) pairs. */
  function ResizeReports(last: (int, int), sizes: seq<(int, int)>): seq<(int, int)>
    decreases |sizes|
  {
    if sizes == [] then []
    else if sizes[0] != last then [sizes[0]] + ResizeReports(sizes[0], sizes[1..])
    else ResizeReports(last, sizes[1..])
  }

  /** Consecutive reports always differ, and the first differs from the starting pair. */
  lemma {:induction false} ResizeReportsChange(last: (int, int), sizes: seq<(int, int)>)
    ensures var r := ResizeReports(last, sizes);
      |r| <= |sizes| && (r != [] ==> r[0] != last) &&
      forall i :: 0 <= i < |r| - 1 ==> r[i] != r[i + 1]
    decreases |sizes|
  {
    if sizes != [] {
      if sizes[0] != last {
        ResizeReportsChange(sizes[0], sizes[1..]);
      } else {
        ResizeReportsChange(last, sizes[1..]);
      }
    }
  }

  /** The first real measurement is always reported: sizes are never -1. */
  lemma FirstMeasurementReported(sizes: seq<(int, int)>)
    requires sizes != [] && sizes[0].0 >= 0
    ensures ResizeReports((-1, -1), sizes) != [] && ResizeReports((-1, -1), sizes)[0] == sizes[0]
  {
  }

  class ViewportResizeObserver {
    var lastH: int
    var lastW: int
    /** Every `{width, height}` handed to the viewport callback, in order. */
    var callbacks: seq<IncrementalData>

    constructor()
      ensures lastH == -1 && lastW == -1 && callbacks == []
    {
      lastH := -1;
      lastW := -1;
      callbacks := [];
    }

    /** `updateDimension`: report only a size different from the last one reported. */
    method UpdateDimension(width: int, height: int)
      modifies this
      ensures lastW == width && lastH == height
      ensures var reported := ResizeReports((old(lastW), old(lastH)), [(width, height)]);
        callbacks == old(callbacks) + (if reported == [] then [] else [ViewportResizeData(width, height)])
    {
      if lastH != height || lastW != width {
        callbacks := callbacks + [ViewportResizeData(width, height)];
        lastH := height;
        lastW := width;
      }
    }
  }

  // ----- stylesheets -----

  /** A call that reached the original, unpatched stylesheet method. */
  datatype OriginalCall = InsertRuleCall(rule: string, index: Option<int>) | DeleteRuleCall(at: int)

  class StyleSheetObserver {
    const mirror: Mirror
    var callbacks: seq<IncrementalData>
    var originalCalls: seq<OriginalCall>

    constructor(mirror: Mirror)
      ensures this.mirror == mirror && callbacks == [] && originalCalls == []
    {
      this.mirror := mirror;
      callbacks := [];
      originalCalls := [];
    }

    /** The patched `insertRule`: report unless the owner node's id is -1, then call the original. */
    method InsertRule(ownerNode: Option<NodeRef>, rule: string, index: Option<int>)
      modifies this
      ensures originalCalls == old(originalCalls) + [InsertRuleCall(rule, index)]
      ensures var id := mirror.GetId(ownerNode);
        callbacks == old(callbacks) +
          (if id != -1 then [StyleSheetRuleData(id, None, [], [StyleRuleAdd(rule, if index.Some? then AtIndex(index.value) else NoIndex)])] else [])
    {
      var id := mirror.GetId(ownerNode);
      if id != -1 {
        callbacks := callbacks + [StyleSheetRuleData(id, None, [], [StyleRuleAdd(rule, if index.Some? then AtIndex(index.value) else NoIndex)])];
      }
      originalCalls := originalCalls + [InsertRuleCall(rule, index)];
    }

    /** The patched `deleteRule`: report unless the owner node's id is -1, then call the original. */
    method DeleteRule(ownerNode: Option<NodeRef>, index: int)
      modifies this
      ensures originalCalls == old(originalCalls) + [DeleteRuleCall(index)]
      ensures var id := mirror.GetId(ownerNode);
        callbacks == old(callbacks) + (if id != -1 then [StyleSheetRuleData(id, None, [AtIndex(index)], [])] else [])
    {
      var id := mirror.GetId(ownerNode);
      if id != -1 {
        callbacks := callbacks + [StyleSheetRuleData(id, None, [AtIndex(index)], [])];
      }
      originalCalls := originalCalls + [DeleteRuleCall(index)];
    }
  }

  /** A stylesheet without an owner node, or one the mirror does not know, is never reported. */
  lemma UnknownOwnerNotReported(m: Mirror, ownerNode: Option<NodeRef>)
    requires ownerNode.None? || ownerNode.value !in m.nodeMetaMap
    ensures m.GetId(ownerNode) == -1
  {
  }
}
