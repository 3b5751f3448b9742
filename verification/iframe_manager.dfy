/**
 * The iframe manager: registers iframes and their content windows, attaches same-origin child
 * documents as mutations, and rewrites events posted by cross-origin iframes into the parent's
 * id space before emitting them. Rewriting updates the iframe's id tables as it goes; each method
 * states its result as the pure rewrite in IframeRewrite through the tables as they end up.
 */
module IframeManagement {
  import opened Wrappers
  import opened SnapshotTypes
  import opened SnapshotMirror
  import opened EventTypes
  import opened CrossOriginMirror
  import opened IframeRewrite

  /** A browsing context that can post messages, identified opaquely. */
  type Window = nat

  /** A `message` event: its `data.type`, its source window, and the posted event and flag. */
  datatype Message = Message(dataType: string, source: Option<Window>, event: Event, isCheckout: Option<bool>)

  /** The constant key list is free of repeats. */
  lemma CustomIdKeysDistinct()
    ensures forall i, j :: 0 <= i < j < |CustomIdKeys| ==> CustomIdKeys[i] != CustomIdKeys[j]
  {
  }

  class IframeManager {
    var iframes: set<Frame>
    var crossOriginIframeMap: map<Window, Frame>
    const crossOriginIframeMirror: CrossOriginIframeMirror
    const crossOriginIframeStyleMirror: CrossOriginIframeMirror
    const mirror: Mirror
    /** Every payload handed to the mutation callback, in order. */
    var mutations: seq<MutationPayload>
    /** Every `wrappedEmit(event, isCheckout)` call, in order. */
    var emitted: seq<(Event, Option<bool>)>

    ghost predicate Valid()
      reads this, crossOriginIframeMirror, crossOriginIframeStyleMirror
    {
      crossOriginIframeMirror != crossOriginIframeStyleMirror &&
      crossOriginIframeMirror.Valid() && crossOriginIframeStyleMirror.Valid()
    }

    function IdTable(f: Frame): map<int, int>
      reads this, crossOriginIframeMirror
    {
      crossOriginIframeMirror.Table(f)
    }

    function StyleTable(f: Frame): map<int, int>
      reads this, crossOriginIframeStyleMirror
    {
      crossOriginIframeStyleMirror.Table(f)
    }

    /** The id generators start at `idStart` and `styleIdStart`. */
    constructor(mirror: Mirror, idStart: int, styleIdStart: int)
      ensures Valid() && fresh(crossOriginIframeMirror) && fresh(crossOriginIframeStyleMirror)
      ensures this.mirror == mirror && iframes == {} && crossOriginIframeMap == map[]
      ensures mutations == [] && emitted == []
      ensures crossOriginIframeMirror.tables == map[] && crossOriginIframeMirror.next == idStart
      ensures crossOriginIframeStyleMirror.tables == map[] && crossOriginIframeStyleMirror.next == styleIdStart
    {
      this.mirror := mirror;
      iframes := {};
      crossOriginIframeMap := map[];
      crossOriginIframeMirror := new CrossOriginIframeMirror(idStart);
      crossOriginIframeStyleMirror := new CrossOriginIframeMirror(styleIdStart);
      mutations := [];
      emitted := [];
    }

    /** `addIframe`: remember the iframe, and its content window when it has one. */
    method AddIframe(iframe: Frame, contentWindow: Option<Window>)
      modifies this
      ensures iframes == old(iframes) + {iframe}
      ensures contentWindow.Some? ==> crossOriginIframeMap == old(crossOriginIframeMap)[contentWindow.value := iframe]
      ensures contentWindow.None? ==> crossOriginIframeMap == old(crossOriginIframeMap)
      ensures mutations == old(mutations) && emitted == old(emitted)
    {
      iframes := iframes + {iframe};
      if contentWindow.Some? {
        crossOriginIframeMap := crossOriginIframeMap[contentWindow.value := iframe];
      }
    }

    /** `attachIframe`: one mutation adding the child document under the iframe's id. */
    method AttachIframe(iframe: Frame, childSn: SerializedNode)
      modifies this
      ensures mutations == old(mutations) + [AttachPayload(mirror.GetId(Some(iframe)), childSn)]
      ensures emitted == old(emitted) && iframes == old(iframes) && crossOriginIframeMap == old(crossOriginIframeMap)
    {
      mutations := mutations + [AttachPayload(mirror.GetId(Some(iframe)), childSn)];
    }

    /** `replaceIdOnNode`: translate the id of the node and, depth first, of all its descendants. */
    method ReplaceIdOnNode(f: Frame, n: SerializedNode) returns (r: SerializedNode)
      requires Valid()
      modifies crossOriginIframeMirror
      ensures Valid()
      ensures Grew(old(IdTable(f)), IdTable(f), NodeIds(n))
      ensures crossOriginIframeMirror.tables - {f} == old(crossOriginIframeMirror.tables) - {f}
      ensures r == RewriteNode(IdTable(f), n)
      decreases n
    {
      ghost var t0 := IdTable(f);
      var id := crossOriginIframeMirror.GetParentId(f, n.id);
      var cs := ChildNodes(n);
      ghost var t1 := IdTable(f);
      ghost var others := crossOriginIframeMirror.tables - {f};
      var out: seq<SerializedNode> := [];
      var i := 0;
      while i < |cs|
        invariant 0 <= i <= |cs| && Valid()
        invariant Grew(t1, IdTable(f), TreeForestIds(cs[..i]))
        invariant crossOriginIframeMirror.tables - {f} == others
        invariant out == RewriteForest(IdTable(f), cs[..i])
      {
        ghost var before := IdTable(f);
        var c := ReplaceIdOnNode(f, cs[i]);
        ForestStep(t1, before, IdTable(f), cs, i);
        out := out + [c];
        i := i + 1;
      }
      assert cs[..i] == cs;
      NodeIdsUnfold(n);
      GrewTransitive(t0, t1, IdTable(f), {n.id}, TreeForestIds(cs));
      RewriteNodeFromParts(IdTable(f), n, id, out);
      if TypeOf(n.kind) == Document || TypeOf(n.kind) == Element {
        r := WithChildNodes(n.(id := id), out);
      } else {
        r := n.(id := id);
      }
    }

    /** One added-node record: `parentId`, `nextId`, `previousId` when numeric, then the node tree. */
    method ReplaceAdd(f: Frame, a: AddedNode) returns (r: AddedNode)
      requires Valid()
      modifies crossOriginIframeMirror
      ensures Valid()
      ensures Grew(old(IdTable(f)), IdTable(f), AddIds(a))
      ensures crossOriginIframeMirror.tables - {f} == old(crossOriginIframeMirror.tables) - {f}
      ensures r == RewriteAdd(IdTable(f), a)
    {
      ghost var t0 := IdTable(f);
      var parentId := crossOriginIframeMirror.GetParentId(f, a.parentId);
      ghost var t1 := IdTable(f);
      var nextId := a.nextId;
      if nextId.Some? {
        var v := crossOriginIframeMirror.GetParentId(f, nextId.value);
        nextId := Some(v);
      }
      ghost var t2 := IdTable(f);
      GrewTransitive(t0, t1, t2, {a.parentId}, OptIds(a.nextId));
      var previousId := a.previousId;
      if previousId.Id? {
        var v := crossOriginIframeMirror.GetParentId(f, previousId.n);
        previousId := Id(v);
      }
      ghost var t3 := IdTable(f);
      GrewTransitive(t0, t2, t3, {a.parentId} + OptIds(a.nextId), MaybeIds(a.previousId));
      var node := ReplaceIdOnNode(f, a.node);
      GrewTransitive(t0, t3, IdTable(f), {a.parentId} + OptIds(a.nextId) + MaybeIds(a.previousId), NodeIds(a.node));
      r := a.(parentId := parentId, nextId := nextId, previousId := previousId, node := node);
    }

    /** `adds.forEach(...)`: each added-node record in turn. */
    method ReplaceAdds(f: Frame, xs: seq<AddedNode>) returns (rs: seq<AddedNode>)
      requires Valid()
      modifies crossOriginIframeMirror
      ensures Valid()
      ensures Grew(old(IdTable(f)), IdTable(f), UnionOver(xs, AddIds))
      ensures crossOriginIframeMirror.tables - {f} == old(crossOriginIframeMirror.tables) - {f}
      ensures rs == RewriteAdds(IdTable(f), xs)
    {
      ghost var t0 := IdTable(f);
      ghost var others := crossOriginIframeMirror.tables - {f};
      rs := [];
      var i := 0;
      while i < |xs|
        invariant 0 <= i <= |xs| && Valid()
        invariant Grew(t0, IdTable(f), UnionOver(xs[..i], AddIds))
        invariant crossOriginIframeMirror.tables - {f} == others
        invariant rs == RewriteAdds(IdTable(f), xs[..i])
      {
        ghost var before := IdTable(f);
        var x := ReplaceAdd(f, xs[i]);
        RewriteAddsStep(t0, before, IdTable(f), xs, i);
        rs := rs + [x];
        i := i + 1;
      }
      assert xs[..i] == xs;
    }

    /** One record: `parentId` then `id`. */
    method ReplaceRemove(f: Frame, x: RemovedNode) returns (r: RemovedNode)
      requires Valid()
      modifies crossOriginIframeMirror
      ensures Valid()
      ensures Grew(old(IdTable(f)), IdTable(f), RemoveIds(x))
      ensures crossOriginIframeMirror.tables - {f} == old(crossOriginIframeMirror.tables) - {f}
      ensures r == RewriteRemove(IdTable(f), x)
    {
      ghost var t0 := IdTable(f);
      var v0 := crossOriginIframeMirror.GetParentId(f, x.parentId);
      ghost var t1 := IdTable(f);
      var v1 := crossOriginIframeMirror.GetParentId(f, x.id);
      GrewTransitive(t0, t1, IdTable(f), {x.parentId}, {x.id});
      r := x.(parentId := v0, id := v1);
    }

    /** `removes.forEach(n => replace(n, ['parentId', 'id']))` */
    method ReplaceRemoves(f: Frame, xs: seq<RemovedNode>) returns (rs: seq<RemovedNode>)
      requires Valid()
      modifies crossOriginIframeMirror
      ensures Valid()
      ensures Grew(old(IdTable(f)), IdTable(f), UnionOver(xs, RemoveIds))
      ensures crossOriginIframeMirror.tables - {f} == old(crossOriginIframeMirror.tables) - {f}
      ensures rs == RewriteRemoves(IdTable(f), xs)
    {
      ghost var t0 := IdTable(f);
      ghost var others := crossOriginIframeMirror.tables - {f};
      rs := [];
      var i := 0;
      while i < |xs|
        invariant 0 <= i <= |xs| && Valid()
        invariant Grew(t0, IdTable(f), UnionOver(xs[..i], RemoveIds))
        invariant crossOriginIframeMirror.tables - {f} == others
        invariant rs == RewriteRemoves(IdTable(f), xs[..i])
      {
        ghost var before := IdTable(f);
        var x := ReplaceRemove(f, xs[i]);
        RewriteRemovesStep(t0, before, IdTable(f), xs, i);
        rs := rs + [x];
        i := i + 1;
      }
      assert xs[..i] == xs;
    }

    /** `attributes.forEach(n => replace(n, ['id']))` */
    method ReplaceAttributes(f: Frame, xs: seq<AttributeMutation>) returns (rs: seq<AttributeMutation>)
      requires Valid()
      modifies crossOriginIframeMirror
      ensures Valid()
      ensures Grew(old(IdTable(f)), IdTable(f), UnionOver(xs, AttributeIds))
      ensures crossOriginIframeMirror.tables - {f} == old(crossOriginIframeMirror.tables) - {f}
      ensures rs == RewriteAttributes(IdTable(f), xs)
    {
      ghost var t0 := IdTable(f);
      ghost var others := crossOriginIframeMirror.tables - {f};
      rs := [];
      var i := 0;
      while i < |xs|
        invariant 0 <= i <= |xs| && Valid()
        invariant Grew(t0, IdTable(f), UnionOver(xs[..i], AttributeIds))
        invariant crossOriginIframeMirror.tables - {f} == others
        invariant rs == RewriteAttributes(IdTable(f), xs[..i])
      {
        ghost var before := IdTable(f);
        var x := xs[i];
        var v0 := crossOriginIframeMirror.GetParentId(f, x.id);
        RewriteAttributesStep(t0, before, IdTable(f), xs, i);
        rs := rs + [x.(id := v0)];
        i := i + 1;
      }
      assert xs[..i] == xs;
    }

    /** `texts.forEach(n => replace(n, ['id']))` */
    method ReplaceTexts(f: Frame, xs: seq<TextMutation>) returns (rs: seq<TextMutation>)
      requires Valid()
      modifies crossOriginIframeMirror
      ensures Valid()
      ensures Grew(old(IdTable(f)), IdTable(f), UnionOver(xs, TextIds))
      ensures crossOriginIframeMirror.tables - {f} == old(crossOriginIframeMirror.tables) - {f}
      ensures rs == RewriteTexts(IdTable(f), xs)
    {
      ghost var t0 := IdTable(f);
      ghost var others := crossOriginIframeMirror.tables - {f};
      rs := [];
      var i := 0;
      while i < |xs|
        invariant 0 <= i <= |xs| && Valid()
        invariant Grew(t0, IdTable(f), UnionOver(xs[..i], TextIds))
        invariant crossOriginIframeMirror.tables - {f} == others
        invariant rs == RewriteTexts(IdTable(f), xs[..i])
      {
        ghost var before := IdTable(f);
        var x := xs[i];
        var v0 := crossOriginIframeMirror.GetParentId(f, x.id);
        RewriteTextsStep(t0, before, IdTable(f), xs, i);
        rs := rs + [x.(id := v0)];
        i := i + 1;
      }
      assert xs[..i] == xs;
    }

    /** `positions.forEach(n => replace(n, ['id']))` */
    method ReplacePositions(f: Frame, xs: seq<MousePosition>) returns (rs: seq<MousePosition>)
      requires Valid()
      modifies crossOriginIframeMirror
      ensures Valid()
      ensures Grew(old(IdTable(f)), IdTable(f), UnionOver(xs, PositionIds))
      ensures crossOriginIframeMirror.tables - {f} == old(crossOriginIframeMirror.tables) - {f}
      ensures rs == RewritePositions(IdTable(f), xs)
    {
      ghost var t0 := IdTable(f);
      ghost var others := crossOriginIframeMirror.tables - {f};
      rs := [];
      var i := 0;
      while i < |xs|
        invariant 0 <= i <= |xs| && Valid()
        invariant Grew(t0, IdTable(f), UnionOver(xs[..i], PositionIds))
        invariant crossOriginIframeMirror.tables - {f} == others
        invariant rs == RewritePositions(IdTable(f), xs[..i])
      {
        ghost var before := IdTable(f);
        var x := xs[i];
        var v0 := crossOriginIframeMirror.GetParentId(f, x.id);
        RewritePositionsStep(t0, before, IdTable(f), xs, i);
        rs := rs + [x.(id := v0)];
        i := i + 1;
      }
      assert xs[..i] == xs;
    }

    /** One record: `start` then `end`. */
    method ReplaceRange(f: Frame, x: SelectionRange) returns (r: SelectionRange)
      requires Valid()
      modifies crossOriginIframeMirror
      ensures Valid()
      ensures Grew(old(IdTable(f)), IdTable(f), RangeIds(x))
      ensures crossOriginIframeMirror.tables - {f} == old(crossOriginIframeMirror.tables) - {f}
      ensures r == RewriteRange(IdTable(f), x)
    {
      ghost var t0 := IdTable(f);
      var v0 := crossOriginIframeMirror.GetParentId(f, x.start);
      ghost var t1 := IdTable(f);
      var v1 := crossOriginIframeMirror.GetParentId(f, x.end);
      GrewTransitive(t0, t1, IdTable(f), {x.start}, {x.end});
      r := x.(start := v0, end := v1);
    }

    /** `ranges.forEach(n => replace(n, ['start', 'end']))` */
    method ReplaceRanges(f: Frame, xs: seq<SelectionRange>) returns (rs: seq<SelectionRange>)
      requires Valid()
      modifies crossOriginIframeMirror
      ensures Valid()
      ensures Grew(old(IdTable(f)), IdTable(f), UnionOver(xs, RangeIds))
      ensures crossOriginIframeMirror.tables - {f} == old(crossOriginIframeMirror.tables) - {f}
      ensures rs == RewriteRanges(IdTable(f), xs)
    {
      ghost var t0 := IdTable(f);
      ghost var others := crossOriginIframeMirror.tables - {f};
      rs := [];
      var i := 0;
      while i < |xs|
        invariant 0 <= i <= |xs| && Valid()
        invariant Grew(t0, IdTable(f), UnionOver(xs[..i], RangeIds))
        invariant crossOriginIframeMirror.tables - {f} == others
        invariant rs == RewriteRanges(IdTable(f), xs[..i])
      {
        ghost var before := IdTable(f);
        var x := ReplaceRange(f, xs[i]);
        RewriteRangesStep(t0, before, IdTable(f), xs, i);
        rs := rs + [x];
        i := i + 1;
      }
      assert xs[..i] == xs;
    }

    /** `styles.forEach(n => replace(n, ['styleId']))` */
    method ReplaceStyles(f: Frame, xs: seq<AdoptedStyle>) returns (rs: seq<AdoptedStyle>)
      requires Valid()
      modifies crossOriginIframeStyleMirror
      ensures Valid()
      ensures Grew(old(StyleTable(f)), StyleTable(f), UnionOver(xs, StyleIds))
      ensures crossOriginIframeStyleMirror.tables - {f} == old(crossOriginIframeStyleMirror.tables) - {f}
      ensures rs == RewriteStyles(StyleTable(f), xs)
    {
      ghost var t0 := StyleTable(f);
      ghost var others := crossOriginIframeStyleMirror.tables - {f};
      rs := [];
      var i := 0;
      while i < |xs|
        invariant 0 <= i <= |xs| && Valid()
        invariant Grew(t0, StyleTable(f), UnionOver(xs[..i], StyleIds))
        invariant crossOriginIframeStyleMirror.tables - {f} == others
        invariant rs == RewriteStyles(StyleTable(f), xs[..i])
      {
        ghost var before := StyleTable(f);
        var x := xs[i];
        var v0 := crossOriginIframeStyleMirror.GetParentId(f, x.styleId);
        RewriteStylesStep(t0, before, StyleTable(f), xs, i);
        rs := rs + [x.(styleId := v0)];
        i := i + 1;
      }
      assert xs[..i] == xs;
    }

    /** The value under one key of `replace`: a number or each number of an array is translated. */
    method ReplaceValue(f: Frame, v: PayloadValue) returns (r: PayloadValue)
      requires Valid()
      modifies crossOriginIframeMirror
      ensures Valid()
      ensures Grew(old(IdTable(f)), IdTable(f), ValueIds(v))
      ensures crossOriginIframeMirror.tables - {f} == old(crossOriginIframeMirror.tables) - {f}
      ensures r == RewriteValue(IdTable(f), v)
    {
      match v
      case PNumber(n) =>
        var x := crossOriginIframeMirror.GetParentId(f, n);
        r := PNumber(x);
      case PNumbers(ns) =>
        var xs := crossOriginIframeMirror.GetParentIds(f, ns);
        r := PNumbers(xs);
      case POther(_) =>
        r := v;
    }

    /** `replace(payload, keys)`: numbers and arrays under the listed keys are translated. */
    method ReplacePayload(f: Frame, p: Payload, keys: seq<string>) returns (r: Payload)
      requires Valid()
      requires forall i, j :: 0 <= i < j < |keys| ==> keys[i] != keys[j]
      modifies crossOriginIframeMirror
      ensures Valid()
      ensures Grew(old(IdTable(f)), IdTable(f), PayloadIds(p, KeySet(keys)))
      ensures crossOriginIframeMirror.tables - {f} == old(crossOriginIframeMirror.tables) - {f}
      ensures r == RewritePayload(IdTable(f), p, KeySet(keys))
    {
      ghost var t0 := IdTable(f);
      ghost var others := crossOriginIframeMirror.tables - {f};
      r := p;
      var i := 0;
      PayloadStart(t0, p, keys);
      while i < |keys|
        invariant 0 <= i <= |keys| && Valid()
        invariant Grew(t0, IdTable(f), PayloadIds(p, KeySet(keys[..i])))
        invariant crossOriginIframeMirror.tables - {f} == others
        invariant r == RewritePayload(IdTable(f), p, KeySet(keys[..i]))
      {
        var key := keys[i];
        ghost var before := IdTable(f);
        ghost var r0 := r;
        if key in p {
          var v := ReplaceValue(f, p[key]);
          r := r[key := v];
        }
        PayloadKeyStep(t0, before, IdTable(f), p, keys, i, r0, r);
        i := i + 1;
      }
      assert keys[..i] == keys;
    }

    /** A mutation's adds, removes, attributes and texts, in that order. */
    method ReplaceMutation(f: Frame, m: MutationPayload) returns (r: MutationPayload)
      requires Valid()
      modifies crossOriginIframeMirror
      ensures Valid()
      ensures Grew(old(IdTable(f)), IdTable(f), MutationIds(m))
      ensures crossOriginIframeMirror.tables - {f} == old(crossOriginIframeMirror.tables) - {f}
      ensures r == RewriteMutation(IdTable(f), m)
    {
      ghost var s0 := IdTable(f);
      var adds := ReplaceAdds(f, m.adds);
      ghost var s1 := IdTable(f);
      var removes := ReplaceRemoves(f, m.removes);
      ghost var s2 := IdTable(f);
      var attributes := ReplaceAttributes(f, m.attributes);
      ghost var s3 := IdTable(f);
      var texts := ReplaceTexts(f, m.texts);
      ghost var s4 := IdTable(f);
      MutationSteps(m, s0, s1, s2, s3, s4);
      r := MutationPayload(texts, attributes, removes, adds, m.isAttachIframe);
    }

    /** `StyleSheetRule`: the node id, then the stylesheet id when present. */
    method TransformStyleSheetRule(f: Frame, id: int, styleId: Option<int>, removes: seq<RuleIndex>, adds: seq<StyleRuleAdd>) returns (r: Option<IncrementalData>)
      requires Valid()
      modifies crossOriginIframeMirror, crossOriginIframeStyleMirror
      ensures Valid()
      ensures Grew(old(IdTable(f)), IdTable(f), DataIds(StyleSheetRuleData(id, styleId, removes, adds)))
      ensures Grew(old(StyleTable(f)), StyleTable(f), DataStyleIds(StyleSheetRuleData(id, styleId, removes, adds)))
      ensures crossOriginIframeMirror.tables - {f} == old(crossOriginIframeMirror.tables) - {f}
      ensures crossOriginIframeStyleMirror.tables - {f} == old(crossOriginIframeStyleMirror.tables) - {f}
      ensures r == RewriteData(IdTable(f), StyleTable(f), StyleSheetRuleData(id, styleId, removes, adds))
    {
      var id' := crossOriginIframeMirror.GetParentId(f, id);
      var styleId' := styleId;
      if styleId.Some? {
        var v := crossOriginIframeStyleMirror.GetParentId(f, styleId.value);
        styleId' := Some(v);
      }
      r := Some(StyleSheetRuleData(id', styleId', removes, adds));
    }

    /** `StyleDeclaration`: the node id and the stylesheet id, each when present. */
    method TransformStyleDeclaration(f: Frame, declId: Option<int>, styleId: Option<int>, property: string) returns (r: Option<IncrementalData>)
      requires Valid()
      modifies crossOriginIframeMirror, crossOriginIframeStyleMirror
      ensures Valid()
      ensures Grew(old(IdTable(f)), IdTable(f), DataIds(StyleDeclarationData(declId, styleId, property)))
      ensures Grew(old(StyleTable(f)), StyleTable(f), DataStyleIds(StyleDeclarationData(declId, styleId, property)))
      ensures crossOriginIframeMirror.tables - {f} == old(crossOriginIframeMirror.tables) - {f}
      ensures crossOriginIframeStyleMirror.tables - {f} == old(crossOriginIframeStyleMirror.tables) - {f}
      ensures r == RewriteData(IdTable(f), StyleTable(f), StyleDeclarationData(declId, styleId, property))
    {
      var id' := declId;
      if declId.Some? {
        var v := crossOriginIframeMirror.GetParentId(f, declId.value);
        id' := Some(v);
      }
      var styleId' := styleId;
      if styleId.Some? {
        var v := crossOriginIframeStyleMirror.GetParentId(f, styleId.value);
        styleId' := Some(v);
      }
      r := Some(StyleDeclarationData(id', styleId', property));
    }

    /** `AdoptedStyleSheet`: the node id, the `styleIds` array, then each style's `styleId`. */
    method TransformAdoptedStyleSheet(f: Frame, id: int, styleIds: seq<int>, styles: Option<seq<AdoptedStyle>>) returns (r: Option<IncrementalData>)
      requires Valid()
      modifies crossOriginIframeMirror, crossOriginIframeStyleMirror
      ensures Valid()
      ensures Grew(old(IdTable(f)), IdTable(f), DataIds(AdoptedStyleSheetData(id, styleIds, styles)))
      ensures Grew(old(StyleTable(f)), StyleTable(f), DataStyleIds(AdoptedStyleSheetData(id, styleIds, styles)))
      ensures crossOriginIframeMirror.tables - {f} == old(crossOriginIframeMirror.tables) - {f}
      ensures crossOriginIframeStyleMirror.tables - {f} == old(crossOriginIframeStyleMirror.tables) - {f}
      ensures r == RewriteData(IdTable(f), StyleTable(f), AdoptedStyleSheetData(id, styleIds, styles))
    {
      var id' := crossOriginIframeMirror.GetParentId(f, id);
      var styleIds', styles' := ReplaceAdoptedStyleIds(f, styleIds, styles);
      r := Some(AdoptedStyleSheetData(id', styleIds', styles'));
    }

    /** The stylesheet ids of an `AdoptedStyleSheet` event: the `styleIds` array, then each style's `styleId`. */
    method ReplaceAdoptedStyleIds(f: Frame, styleIds: seq<int>, styles: Option<seq<AdoptedStyle>>)
      returns (styleIds': seq<int>, styles': Option<seq<AdoptedStyle>>)
      requires Valid()
      modifies crossOriginIframeStyleMirror
      ensures Valid()
      ensures Grew(old(StyleTable(f)), StyleTable(f),
                   Elements(styleIds) + if styles.Some? then UnionOver(styles.value, StyleIds) else {})
      ensures crossOriginIframeStyleMirror.tables - {f} == old(crossOriginIframeStyleMirror.tables) - {f}
      ensures styleIds' == RenameAll(StyleTable(f), styleIds)
      ensures styles' == if styles.Some? then Some(RewriteStyles(StyleTable(f), styles.value)) else None
    {
      ghost var u0 := StyleTable(f);
      styleIds' := crossOriginIframeStyleMirror.GetParentIds(f, styleIds);
      ghost var u1 := StyleTable(f);
      styles' := styles;
      if styles.Some? {
        var ss := ReplaceStyles(f, styles.value);
        styles' := Some(ss);
      }
      GrewTransitive(u0, u1, StyleTable(f), Elements(styleIds),
                     if styles.Some? then UnionOver(styles.value, StyleIds) else {});
      assert styleIds' == RenameAll(StyleTable(f), styleIds);
    }

    /** The inner switch on the incremental source. */
    method TransformIncremental(f: Frame, d: IncrementalData) returns (r: Option<IncrementalData>)
      requires Valid()
      modifies crossOriginIframeMirror, crossOriginIframeStyleMirror
      ensures Valid()
      ensures Grew(old(IdTable(f)), IdTable(f), DataIds(d))
      ensures Grew(old(StyleTable(f)), StyleTable(f), DataStyleIds(d))
      ensures crossOriginIframeMirror.tables - {f} == old(crossOriginIframeMirror.tables) - {f}
      ensures crossOriginIframeStyleMirror.tables - {f} == old(crossOriginIframeStyleMirror.tables) - {f}
      ensures r == RewriteData(IdTable(f), StyleTable(f), d)
    {
      match d
      case MutationData(m) =>
        var m' := ReplaceMutation(f, m);
        r := Some(MutationData(m'));
      case MoveData(src, ps) =>
        var ps' := ReplacePositions(f, ps);
        r := Some(MoveData(src, ps'));
      case ViewportResizeData(_, _) =>
        r := None;
      case MediaInteractionData(k, id, time) =>
        var id' := crossOriginIframeMirror.GetParentId(f, id);
        r := Some(MediaInteractionData(k, id', time));
      case MouseInteractionData(k, id, x, y) =>
        var id' := crossOriginIframeMirror.GetParentId(f, id);
        r := Some(MouseInteractionData(k, id', x, y));
      case ScrollData(id, x, y) =>
        var id' := crossOriginIframeMirror.GetParentId(f, id);
        r := Some(ScrollData(id', x, y));
      case CanvasMutationData(c) =>
        var id' := crossOriginIframeMirror.GetParentId(f, c.id);
        r := Some(CanvasMutationData(c.(id := id')));
      case InputData(id, text, checked, user) =>
        var id' := crossOriginIframeMirror.GetParentId(f, id);
        r := Some(InputData(id', text, checked, user));
      case StyleSheetRuleData(id, styleId, removes, adds) =>
        r := TransformStyleSheetRule(f, id, styleId, removes, adds);
      case StyleDeclarationData(id, styleId, property) =>
        r := TransformStyleDeclaration(f, id, styleId, property);
      case FontData(_, _, _) =>
        r := Some(d);
      case SelectionData(ranges) =>
        var ranges' := ReplaceRanges(f, ranges);
        r := Some(SelectionData(ranges'));
      case AdoptedStyleSheetData(id, styleIds, styles) =>
        r := TransformAdoptedStyleSheet(f, id, styleIds, styles);
      case LogData(_, _) =>
        r := None;
    }

    /**
     * `transformCrossOriginEvent`: the event rewritten through the iframe's tables as they end up,
     * or `None` for the dropped kinds. A full snapshot first resets both tables of the iframe.
     */
    method TransformCrossOriginEvent(f: Frame, e: Event) returns (r: Option<Event>)
      requires Valid()
      modifies crossOriginIframeMirror, crossOriginIframeStyleMirror
      ensures Valid()
      ensures r == Transformed(IdTable(f), StyleTable(f), mirror.GetId(Some(f)), e)
      ensures e.body.FullSnapshot? ==> IdTable(f).Keys == EventIds(e) && StyleTable(f) == map[]
      ensures !e.body.FullSnapshot? ==> Grew(old(IdTable(f)), IdTable(f), EventIds(e))
      ensures !e.body.FullSnapshot? ==> Grew(old(StyleTable(f)), StyleTable(f), EventStyleIds(e))
      ensures crossOriginIframeMirror.tables - {f} == old(crossOriginIframeMirror.tables) - {f}
      ensures crossOriginIframeStyleMirror.tables - {f} == old(crossOriginIframeStyleMirror.tables) - {f}
    {
      match e.body
      case FullSnapshot(node, _, _) =>
        crossOriginIframeMirror.Reset(f);
        crossOriginIframeStyleMirror.Reset(f);
        var node' := ReplaceIdOnNode(f, node);
        r := Some(Event(IncrementalSnapshot(MutationData(AttachPayload(mirror.GetId(Some(f)), node'))), e.timestamp, None));
      case Meta(_, _, _) =>
        r := None;
      case Load =>
        r := None;
      case DomContentLoaded =>
        r := None;
      case Plugin(_, _) =>
        r := Some(e);
      case Custom(tag, p) =>
        CustomIdKeysDistinct();
        var p' := ReplacePayload(f, p, CustomIdKeys);
        r := Some(e.(body := Custom(tag, p')));
      case IncrementalSnapshot(d) =>
        var d' := TransformIncremental(f, d);
        if d'.Some? {
          r := Some(e.(body := IncrementalSnapshot(d'.value)));
        } else {
          r := None;
        }
    }

    /**
     * `handleMessage`: an `rrweb` message from the window of a registered iframe is transformed,
     * and emitted with its `isCheckout` flag unless it was dropped; any other message is ignored.
     */
    method HandleMessage(msg: Message)
      requires Valid()
      modifies this, crossOriginIframeMirror, crossOriginIframeStyleMirror
      ensures Valid()
      ensures iframes == old(iframes) && crossOriginIframeMap == old(crossOriginIframeMap) && mutations == old(mutations)
      ensures msg.dataType != "rrweb" || msg.source.None? || msg.source.value !in crossOriginIframeMap ==>
        emitted == old(emitted) &&
        crossOriginIframeMirror.tables == old(crossOriginIframeMirror.tables) &&
        crossOriginIframeStyleMirror.tables == old(crossOriginIframeStyleMirror.tables)
      ensures msg.dataType == "rrweb" && msg.source.Some? && msg.source.value in crossOriginIframeMap ==>
        var f := crossOriginIframeMap[msg.source.value];
        var r := Transformed(IdTable(f), StyleTable(f), mirror.GetId(Some(f)), msg.event);
        emitted == old(emitted) + (if r.Some? then [(r.value, msg.isCheckout)] else [])
    {
      if msg.dataType == "rrweb" {
        if msg.source.None? {
          return;
        }
        if msg.source.value !in crossOriginIframeMap {
          return;
        }
        var iframe := crossOriginIframeMap[msg.source.value];
        var transformed := TransformCrossOriginEvent(iframe, msg.event);
        if transformed.Some? {
          emitted := emitted + [(transformed.value, msg.isCheckout)];
        }
      }
    }
  }

  /** A message from a window no `addIframe` registered changes nothing. */
  method UnregisteredSourceIgnored(m: IframeManager, w: Window, e: Event, isCheckout: Option<bool>)
    requires m.Valid() && w !in m.crossOriginIframeMap
    modifies m, m.crossOriginIframeMirror, m.crossOriginIframeStyleMirror
    ensures m.emitted == old(m.emitted)
  {
    m.HandleMessage(Message("rrweb", Some(w), e, isCheckout));
  }
}
