# rrweb record and replay core, in Dafny

rrweb records a web page as a stream of timed events. The stream starts with a full snapshot of
the serialized DOM tree and continues with incremental events (mutations, mouse, scroll,
viewport, input, stylesheet and canvas changes). A replayer turns the stream back into a page.
This project models the deterministic core of that pipeline and proves properties about it:

- the serialized-node format and its node registry (`Mirror`): id to node, node to metadata;
- the pure snapshot helpers: structural equality of serialized nodes, input masking, and the
  resolution of `url(...)` references in CSS text;
- the event and mutation formats, with the numeric codes of their enums;
- the rewriting of events posted by cross-origin iframes into the parent recording's id space;
- the recorder's checkout cadence: a new full snapshot after N incremental events or after T ms;
- the observers' decisions: input de-duplication, masking and radio-group unchecking; viewport
  de-duplication; which mouse interactions are recorded; sampling defaults; and the `-1` guard
  on patched stylesheet methods;
- the canvas and inline-video buffers of pending drawing commands, and their flushes;
- the image worker's choice between `unsupported`, `transparent` and full data replies;
- WebGL replay: argument decoding, the table of WebGL variables per context, and one command;
- the player's state machine and its small interpreter.

Live DOM nodes, iframes, windows, canvases and WebGL contexts are opaque identities (`nat`).
Serialized nodes, events and payloads are datatypes. Objects whose fields the source updates
(the mirror, the managers, the observers, the recorder, the worker, the interpreter) are classes.
Each class method is specified against a pure function of the old state. The properties are
then proved about that function. Whatever the browser supplies is passed in as a parameter:
event targets, window sizes, timestamps, snapshot results, encodings, and call results.

Files, one module each: `wrappers.dfy` (Option, Result, NoDups), `string_utils.dfy`,
`snapshot_types.dfy`, `mirror.dfy`, `snapshot_utils.dfy`, `css_urls.dfy`, `canvas_types.dfy`,
`event_types.dfy`, `cross_origin_mirror.dfy`, `iframe_rewrite.dfy`, `iframe_manager.dfy`,
`recorder.dfy`, `observer.dfy`, `canvas_manager.dfy`, `inline_video_manager.dfy`,
`image_worker.dfy`, `webgl_replay.dfy`, `player_machine.dfy`.

## Model

| member | source | states |
|---|---|---|
| SnapshotTypes.NodeTypeCode | packages/rrweb-snapshot/src/types.ts:1-8 | each node type's number is at most 5, and decoding it gives the same type back |
| SnapshotTypes.NodeTypeCodesOnto | packages/rrweb-snapshot/src/types.ts:1-8 | every code 0..5 names a node type whose code is that number |
| SnapshotTypes.ChildNodes | packages/rrweb-snapshot/src/types.ts:10-60 | only Document and Element nodes have children; every child is structurally smaller |
| SnapshotTypes.TextContent | packages/rrweb-snapshot/src/types.ts:52-55 | a CDATA node's text content is always empty |
| SnapshotTypes.WithChildNodes | packages/rrweb-snapshot/src/types.ts:10-44 | replacing the children of a document or element keeps its id and type and yields exactly the given children |
| EventTypes.EventTypeCode | typings/types.d.ts:7-15 | DomContentLoaded=0 through Plugin=6; each code decodes back to its type |
| EventTypes.IncrementalSourceCode | typings/types.d.ts:67-81 | Mutation=0 through Drag=12; each code decodes back to its source |
| EventTypes.MouseInteractionCode | typings/types.d.ts:265-276 | MouseUp=0 through TouchEnd=9; the code is 8 iff the member is TouchMove_Departed |
| EventTypes.MouseInteractionNamed | typings/types.d.ts:265-276 | a name denotes a member iff it is one of the enum's ten names, and that member sits at the name's position |
| SnapshotMirror.Mirror.constructor | packages/rrweb-snapshot/src/utils.ts:163-165 | both maps start empty and the registry is consistent |
| SnapshotMirror.Mirror.GetId | packages/rrweb-snapshot/src/utils.ts:167-174 | -1 for a missing node or a node without metadata, otherwise the id in its metadata |
| SnapshotMirror.Mirror.GetNode | packages/rrweb-snapshot/src/utils.ts:176-178 | a node iff the id is bound, and then the bound node |
| SnapshotMirror.Mirror.GetIds | packages/rrweb-snapshot/src/utils.ts:180-182 | an id is listed iff GetNode finds a node for it |
| SnapshotMirror.Mirror.GetMeta | packages/rrweb-snapshot/src/utils.ts:184-186 | metadata iff the node has some, and its id is what GetId answers |
| SnapshotMirror.Mirror.Has | packages/rrweb-snapshot/src/utils.ts:200-202 | an id is bound exactly when GetNode finds a node for it |
| SnapshotMirror.Mirror.HasNode | packages/rrweb-snapshot/src/utils.ts:204-206 | a node is known exactly when GetMeta finds its metadata |
| SnapshotMirror.Mirror.Add | packages/rrweb-snapshot/src/utils.ts:208-212 | binds meta.id to n and n to meta, nothing else; afterwards getNode, getId, has and hasNode all answer for them; consistency is preserved |
| SnapshotMirror.Mirror.Replace | packages/rrweb-snapshot/src/utils.ts:214-221 | id is rebound to n; n inherits the previous node's metadata when there was one; n's id becomes `id` when the registry round-tripped |
| SnapshotMirror.Mirror.RemoveNodeFromMap | packages/rrweb-snapshot/src/utils.ts:188-199 | the ids of n and of all its descendants leave the id map; the metadata map is unchanged |
| SnapshotMirror.DescendantIdRemoved | packages/rrweb-snapshot/src/utils.ts:190-198 | every node of the subtree, at any depth, has its id among those removed |
| SnapshotMirror.Mirror.Reset | packages/rrweb-snapshot/src/utils.ts:223-226 | both maps become empty: no ids, and no node or metadata for anything |
| SnapshotMirror.ReAddAfterReset | packages/rrweb-snapshot/src/utils.ts:208-226 | after reset then add, the node and id are found again and are the only id |
| SnapshotUtils.IsNodeMetaEqual | packages/rrweb-snapshot/src/utils.ts:316-341 | equal meta implies equal node types |
| SnapshotUtils.IgnoresIdAndChildren | packages/rrweb-snapshot/src/utils.ts:316-341 | the comparison ignores id, the shadow-DOM fields and childNodes |
| SnapshotUtils.MetaEqualIsEquivalence | packages/rrweb-snapshot/src/utils.ts:316-341 | the comparison is reflexive, symmetric and transitive |
| SnapshotUtils.Stars | packages/rrweb-snapshot/src/utils.ts:265 | `'*'.repeat(n)`: n characters, all `*` |
| SnapshotUtils.Utf16Length | packages/rrweb-snapshot/src/utils.ts:265 | `text.length` counts UTF-16 code units: between one and two per character |
| SnapshotUtils.Utf16LengthIsCharCount | packages/rrweb-snapshot/src/utils.ts:265 | the code-unit count equals the character count exactly when no character lies outside the Basic Multilingual Plane |
| SnapshotUtils.AstralMaskedAsTwoStars | packages/rrweb-snapshot/src/utils.ts:261-266 | a masked "😀", one character but two code units, is recorded as "**" |
| SnapshotUtils.MaskInputValue | packages/rrweb-snapshot/src/utils.ts:235-269 | null reads as ""; unmasked values are returned as they are; masked ones become maskInputFn's result on the text and the element, or without it one `*` per UTF-16 code unit of the text |
| SnapshotUtils.OverwriteRecordKeepsValue | packages/rrweb-snapshot/src/utils.ts:499-517 | with overwriteRecord "true" the value is never masked, whatever the options |
| SnapshotUtils.IsElementSrcBlocked | packages/rrweb-snapshot/src/utils.ts:458-465 | blocked exactly for the tag names img, video, audio and source; every blocked name is 3 to 6 lower-case letters |
| SnapshotUtils.SrcBlockedIsCaseSensitive | packages/rrweb-snapshot/src/utils.ts:458-465 | the comparison is strict equality, so a tag name with an upper-case letter (such as "IMG") is never blocked |
| StringUtils.ToLower | packages/rrweb-snapshot/src/utils.ts:272-274 | same length, each character lower-cased |
| StringUtils.Split | packages/rrweb-snapshot/src/utils.ts:381-390 | at least one piece, and no piece contains the separator |
| StringUtils.JoinSplit | packages/rrweb-snapshot/src/utils.ts:423-435 | joining the pieces of a split with the same separator gives the string back |
| CssUrls.ExtractOrigin | packages/rrweb-snapshot/src/utils.ts:381-390 | the origin is a prefix of the URL, holds no `?`, and holds no `/` when the URL has no `//` |
| CssUrls.OriginOfSchemeAndHost | packages/rrweb-snapshot/src/utils.ts:381-390 | the origin of "scheme://host/rest" is "scheme://host" |
| CssUrls.MatchUrlAt | packages/rrweb-snapshot/src/utils.ts:392 | a match starts with "url(", ends with ")" and uses quote '', `'` or `"` |
| CssUrls.MatchedText | packages/rrweb-snapshot/src/utils.ts:392 | the matched text is "url(" + quote + path + quote + ")" |
| CssUrls.AbsoluteReferenceUnchanged | packages/rrweb-snapshot/src/utils.ts:407-417 | an empty, protocol, `www.` or `data:` path leaves the reference exactly as written |
| CssUrls.RootRelativeGetsOrigin | packages/rrweb-snapshot/src/utils.ts:418-422 | a path starting with `/` is prefixed with the origin of href |
| CssUrls.QuotePreserved | packages/rrweb-snapshot/src/utils.ts:407-435 | every replacement keeps the original quote on both sides |
| CssUrls.ResolveRelativePath | packages/rrweb-snapshot/src/utils.ts:423-435 | the push/pop loop equals resolving the path's pieces against href's directory, then joining with `/` |
| CssUrls.PlainPartsAppend | packages/rrweb-snapshot/src/utils.ts:426-434 | pieces other than `.` and `..` are appended in order |
| CssUrls.ParentCancelsPush | packages/rrweb-snapshot/src/utils.ts:426-434 | a `..` right after a pushed piece cancels it |
| CssUrls.RelativePathJoinsDirectory | packages/rrweb-snapshot/src/utils.ts:423-435 | under a stylesheet at dir/file, a plain relative path resolves to dir/path |
| CssUrls.NoReferenceUnchanged | packages/rrweb-snapshot/src/utils.ts:396-398 | text without "url(" comes back unchanged |
| CssUrls.Replacement | packages/rrweb-snapshot/src/utils.ts:398-436 | an empty path gives the match back as written; any other path is rebuilt between "url(" and ")" inside the original quotes |
| CssUrls.Absolutify | packages/rrweb-snapshot/src/utils.ts:392-437 | the left-to-right, non-overlapping replacement; a text whose scanned references all have empty, absolute, `www.` or `data:` paths comes back unchanged |
| CssUrls.AbsolutifyURLs | packages/rrweb-snapshot/src/utils.ts:396-397 | a null text gives ""; a text whose references all keep their text comes back unchanged |
| CrossOriginMirror.CrossOriginIframeMirror.constructor | packages/rrweb/src/record/iframe-manager.ts:42-46 | no tables, and the id generator starts at the given id |
| CrossOriginMirror.CrossOriginIframeMirror.GetParentId | packages/rrweb/src/record/iframe-manager.ts:249-253 | a bound id is returned unchanged; an unbound one gets the next fresh id; other iframes' tables are untouched |
| CrossOriginMirror.CrossOriginIframeMirror.GetParentIds | packages/rrweb/src/record/iframe-manager.ts:244-248 | element by element the translations, and the table grows by exactly the given ids |
| CrossOriginMirror.CrossOriginIframeMirror.Reset | packages/rrweb/src/record/iframe-manager.ts:119-120 | that iframe's table is forgotten; the others and the generator stay |
| CrossOriginMirror.TranslationInjective | packages/rrweb/src/record/iframe-manager.ts:236-258 | two bound (iframe, id) pairs share a translation only when they are the same pair |
| CrossOriginMirror.GrewTransitive | packages/rrweb/src/record/iframe-manager.ts:242-255 | growing a table twice is growing it by both id sets |
| IframeRewrite.RenameAll | packages/rrweb/src/record/iframe-manager.ts:244-248 | an id array is translated element by element |
| IframeRewrite.RewriteNodeKeepsMeta | packages/rrweb/src/record/iframe-manager.ts:276-286 | a rewritten node is meta-equal to the original and has as many children |
| IframeRewrite.RewriteNodeIds | packages/rrweb/src/record/iframe-manager.ts:276-286 | the ids of the rewritten tree are exactly the translations of the original's ids |
| IframeRewrite.RewriteNodeIdentity | packages/rrweb/src/record/iframe-manager.ts:276-286 | a table mapping each id of the tree to itself leaves the tree unchanged |
| IframeRewrite.RewriteNodeStable | packages/rrweb/src/record/iframe-manager.ts:276-286 | rewriting a tree depends only on how its own ids are translated |
| IframeRewrite.RewritePayload | packages/rrweb/src/record/iframe-manager.ts:242-255 | only listed keys holding numbers or arrays change; all other keys are kept |
| IframeRewrite.DroppedKinds | packages/rrweb/src/record/iframe-manager.ts:117-234 | the transform drops an event iff it is Meta, Load, DomContentLoaded, ViewportResize or Log |
| IframeRewrite.FullSnapshotBecomesAttach | packages/rrweb/src/record/iframe-manager.ts:118-143 | a full snapshot becomes a mutation at the same timestamp: one add under the iframe's id, nextId null, empty other lists, attach flag set, the tree meta-equal with translated ids |
| IframeRewrite.PassThroughKinds | packages/rrweb/src/record/iframe-manager.ts:149-216 | Plugin and Font events are emitted exactly as received |
| IframeRewrite.NullIdsKept | packages/rrweb/src/record/iframe-manager.ts:242-255 | a null or missing nextId or previousId stays so; a numeric previousId is translated |
| IframeRewrite.MutationShapeKept | packages/rrweb/src/record/iframe-manager.ts:167-186 | list lengths, the attach flag, text values, attribute values, isShadow and node metadata are kept |
| IframeRewrite.IdentityMutation | packages/rrweb/src/record/iframe-manager.ts:167-186 | a mutation whose ids all translate to themselves is unchanged |
| IframeManagement.CustomIdKeysDistinct | packages/rrweb/src/record/iframe-manager.ts:161 | the custom-event key list has no repeats |
| IframeManagement.IframeManager.constructor | packages/rrweb/src/record/iframe-manager.ts:31-51 | no iframes, and two separate cross-origin mirrors for node ids and stylesheet ids |
| IframeManagement.IframeManager.AddIframe | packages/rrweb/src/record/iframe-manager.ts:53-57 | the iframe is registered, and its content window is mapped to it only when it has one |
| IframeManagement.IframeManager.AttachIframe | packages/rrweb/src/record/iframe-manager.ts:63-79 | exactly one mutation is added: one add under the iframe's id, nextId null, attach flag set |
| IframeManagement.IframeManager.ReplaceIdOnNode | packages/rrweb/src/record/iframe-manager.ts:276-286 | the result is the tree rewritten through the final table, which grew by exactly the tree's ids |
| IframeManagement.IframeManager.ReplaceAdd | packages/rrweb/src/record/iframe-manager.ts:168-175 | parentId, nextId and previousId are translated, then the node tree |
| IframeManagement.IframeManager.ReplaceAdds | packages/rrweb/src/record/iframe-manager.ts:168-175 | every add is rewritten through the final table |
| IframeManagement.IframeManager.ReplaceRemove | packages/rrweb/src/record/iframe-manager.ts:176-178 | parentId and id are translated |
| IframeManagement.IframeManager.ReplaceRemoves | packages/rrweb/src/record/iframe-manager.ts:176-178 | every remove is rewritten through the final table |
| IframeManagement.IframeManager.ReplaceAttributes | packages/rrweb/src/record/iframe-manager.ts:179-181 | every attribute record's id is translated |
| IframeManagement.IframeManager.ReplaceTexts | packages/rrweb/src/record/iframe-manager.ts:182-184 | every text record's id is translated |
| IframeManagement.IframeManager.ReplacePositions | packages/rrweb/src/record/iframe-manager.ts:187-194 | every position's id is translated |
| IframeManagement.IframeManager.ReplaceRange | packages/rrweb/src/record/iframe-manager.ts:217-222 | start and end are translated |
| IframeManagement.IframeManager.ReplaceRanges | packages/rrweb/src/record/iframe-manager.ts:217-222 | every range is rewritten through the final table |
| IframeManagement.IframeManager.ReplaceStyles | packages/rrweb/src/record/iframe-manager.ts:226-228 | every style's styleId is translated through the stylesheet table |
| IframeManagement.IframeManager.ReplacePayload | packages/rrweb/src/record/iframe-manager.ts:236-258 | the payload rewritten through the final table; the table grew by exactly the ids under the keys |
| IframeManagement.IframeManager.ReplaceMutation | packages/rrweb/src/record/iframe-manager.ts:167-186 | adds, removes, attributes and texts rewritten through the final table |
| IframeManagement.IframeManager.TransformIncremental | packages/rrweb/src/record/iframe-manager.ts:165-232 | the incremental payload rewritten per source, or None for ViewportResize and Log |
| IframeManagement.IframeManager.TransformCrossOriginEvent | packages/rrweb/src/record/iframe-manager.ts:113-234 | the result is the pure transform through the final tables; a full snapshot resets both tables first, other kinds only grow them |
| IframeManagement.IframeManager.HandleMessage | packages/rrweb/src/record/iframe-manager.ts:92-111 | a non-rrweb message, or one without a registered source window, changes nothing; otherwise the transformed event is emitted with its isCheckout flag unless dropped |
| IframeManagement.UnregisteredSourceIgnored | packages/rrweb/src/record/iframe-manager.ts:95-98 | a message from an unregistered window emits nothing |
| Recorder.ExceedTime | es/rrweb/src/record/index.js:29-30 | throws iff the time threshold is set and there was no full snapshot; true iff more than T ms passed since the last one |
| Recorder.EmitsEventFirst | es/rrweb/src/record/index.js:21 | the event is emitted first, packed iff packFn is given, with isCheckout unchanged |
| Recorder.FullSnapshotResetsCount | es/rrweb/src/record/index.js:22-25 | a FullSnapshot becomes the last full snapshot and the count becomes 0 |
| Recorder.OtherKindsKeepState | es/rrweb/src/record/index.js:20-35 | events other than full or incremental snapshots are only forwarded |
| Recorder.CheckoutAfterNth | es/rrweb/src/record/index.js:26-33 | the N-th incremental event is followed by a checkout Meta event and a FullSnapshot, and the count becomes 0 |
| Recorder.CountStaysBelowNth | es/rrweb/src/record/index.js:26-33 | with N >= 1 the count stays within 0..N-1 |
| Recorder.CheckoutAfterNms | es/rrweb/src/record/index.js:29-33 | an incremental event more than T ms after the last full snapshot forces a checkout |
| Recorder.NoCheckoutBelowThresholds | es/rrweb/src/record/index.js:26-33 | below both thresholds an incremental event is forwarded and counted, and no snapshot follows |
| Recorder.CheckoutOnlyAtThresholds | es/rrweb/src/record/index.js:20-34 | more than the event itself is emitted exactly when the event is incremental and a threshold is reached, and then a checkout-flagged Meta comes next |
| Recorder.MissingFullSnapshotThrows | es/rrweb/src/record/index.js:29-30 | with T set and no full snapshot yet, an incremental event is emitted and then the time check throws |
| Recorder.FailedSnapshotEmitsMetaOnly | es/rrweb/src/record/index.js:36-50 | when serializing fails only the Meta event is emitted, flagged isCheckout, and the state is unchanged |
| Recorder.Recorder.constructor | es/rrweb/src/record/index.js:18-19 | no last full snapshot, count 0, nothing emitted |
| Recorder.Recorder.WrappedEmit | es/rrweb/src/record/index.js:20-35 | the new state and the emitted events are those of the wrappedEmit specification |
| Recorder.Recorder.TakeFullSnapshot | es/rrweb/src/record/index.js:36-68 | the Meta event, then the FullSnapshot when serializing succeeded, as in the specification |
| Recorder.Recorder.OnDomContentLoaded | es/rrweb/src/record/index.js:71-76 | one DomContentLoaded event is emitted and the state is unchanged |
| Recorder.Recorder.Init | es/rrweb/src/record/index.js:77-78 | takes a non-checkout full snapshot |
| Recorder.Recorder.OnLoad | es/rrweb/src/record/index.js:143-149 | a Load event, then a non-checkout full snapshot |
| Recorder.Record | es/rrweb/src/record/index.js:11-150 | throws iff no emit is given; otherwise it snapshots at once when the document is ready and emits nothing otherwise |
| Recorder.AddCustomEvent | es/rrweb/src/record/index.js:159-170 | throws iff recording has not started; otherwise it emits one Custom event and leaves the checkout state alone |
| Observer.MousemoveThreshold | src/record/observer.ts:173-178 | no observer iff mousemove is false; the given number, otherwise 50 |
| Observer.MousemoveCallbackThreshold | src/record/observer.ts:179-182 | the given number, otherwise 500 |
| Observer.ScrollWait | src/record/observer.ts:351 | `sampling.scroll \|\| 100`: never 0, and the given value when it is non-zero |
| Observer.InputEventNames | src/record/observer.ts:475 | always listens to change; listens to input iff sampling.input is not 'last' |
| Observer.FilterKeys | src/record/observer.ts:307-313 | a key is kept iff it is listed and passes the filter |
| Observer.NamesNotNumeric | src/record/observer.ts:310 | no member name parses as a number |
| Observer.NamesDeparted | src/record/observer.ts:311 | the only member name ending in _Departed is TouchMove_Departed |
| Observer.RecordedInteractions | src/record/observer.ts:277-318 | a key is listened to iff it is a member name, not TouchMove_Departed, and not disabled; none when mouseInteraction is false |
| Observer.MouseInteractionCallback | src/record/observer.ts:287-305 | reports iff the target is not blocked and a point exists, with the member, id and coordinates |
| Observer.WrapEventWithUserTriggeredFlag | src/record/observer.ts:375-382 | text and isChecked are kept; the value is unchanged when enabled, and without userTriggered otherwise |
| Observer.ReportedTextIsMasked | src/record/observer.ts:412-429 | radios and checkboxes report their raw value; other inputs report exactly what maskInputValue makes of it |
| Observer.IgnoredTargetsReportNothing | src/record/observer.ts:400-411 | an event yields no report iff the target is missing, tagless, not INPUT/TEXTAREA/SELECT, blocked or ignored |
| Observer.RadioOffersAreOthers | src/record/observer.ts:443-456 | each radio report is for another element, unchecked, and with userTriggered false, or none when the flag is off |
| Observer.CheckedRadioUnchecksGroup | src/record/observer.ts:437-458 | checking a named radio reports it first as checked, then every other radio as unchecked and never the target again |
| Observer.RepeatedOfferIgnored | src/record/observer.ts:460-474 | offering again the value just stored reports nothing and stores nothing new |
| Observer.DedupReportsOffered | src/record/observer.ts:460-474 | reports are offered values, no more of them than offers; every offered target ends with a stored value |
| Observer.DedupFoldAppend | src/record/observer.ts:460-474 | de-duplicating two batches in turn is de-duplicating their concatenation |
| Observer.InputObserver.Payloads | src/record/observer.ts:469-472 | one callback payload per reported value |
| Observer.InputObserver.constructor | src/record/observer.ts:385-396 | no callbacks and the given options; the value map is the module-level one, passed in as earlier observers left it, so a value recorded before a restart is still suppressed |
| Observer.InputObserver.CbWithDedup | src/record/observer.ts:460-474 | a differing value is stored and reported with the target's id; an equal one changes nothing |
| Observer.InputObserver.EventHandler | src/record/observer.ts:397-459 | the value map and callbacks are those of de-duplicating all the handler's offers in order |
| Observer.InputObserver.ReportTarget | src/record/observer.ts:412-436 | the target's own report goes through de-duplication; the result is its checked state |
| Observer.InputObserver.UncheckOthers | src/record/observer.ts:439-458 | the group's radios are offered in document order through de-duplication |
| Observer.ResizeReportsChange | src/record/observer.ts:358-370 | the first report differs from the starting pair and consecutive reports differ |
| Observer.FirstMeasurementReported | src/record/observer.ts:358-359 | starting from -1/-1, the first real size is reported |
| Observer.ViewportResizeObserver.constructor | src/record/observer.ts:358-359 | lastH and lastW start at -1 |
| Observer.ViewportResizeObserver.UpdateDimension | src/record/observer.ts:360-371 | reports only a size different from the last one; the last size is updated |
| Observer.StyleSheetObserver.constructor | src/record/observer.ts:541-545 | nothing reported and no original call yet |
| Observer.StyleSheetObserver.InsertRule | src/record/observer.ts:547-559 | reports the add unless the owner's id is -1; the original insertRule is always called |
| Observer.StyleSheetObserver.DeleteRule | src/record/observer.ts:562-571 | reports the removal unless the owner's id is -1; the original deleteRule is always called |
| Observer.UnknownOwnerNotReported | src/record/observer.ts:551-553 | a sheet without an owner node, or with an unregistered one, has id -1 |
| CanvasManagement.Restrict | packages/rrweb/src/record/observers/canvas/canvas-manager.ts:317-322 | the visiting order restricted to the remaining canvases keeps exactly those, without repeats |
| CanvasManagement.StripTypes | packages/rrweb/src/record/observers/canvas/canvas-manager.ts:334-337 | the commands without their type, same length and order |
| CanvasManagement.FlushParam | packages/rrweb/src/record/observers/canvas/canvas-manager.ts:334-340 | the callback carries the id, the first entry's type, and all commands in order |
| CanvasManagement.Enqueue | packages/rrweb/src/record/observers/canvas/canvas-manager.ts:113-117 | the target's list, created empty if missing, gets the mutation appended; other lists are unchanged |
| CanvasManagement.EnqueueAllAppends | packages/rrweb/src/record/observers/canvas/canvas-manager.ts:113-117 | repeated processMutation calls append in arrival order and leave other canvases alone |
| CanvasManagement.QueuedCommandsFlushTogether | packages/rrweb/src/record/observers/canvas/canvas-manager.ts:334-340 | commands queued for a fresh canvas are flushed as one callback, in order |
| CanvasManagement.FlushAllSpec | packages/rrweb/src/record/observers/canvas/canvas-manager.ts:316-324 | at most one callback per canvas, and none with id -1 |
| CanvasManagement.WithoutId | packages/rrweb/src/record/observers/canvas/canvas-manager.ts:316-324 | exactly the lists of canvases the mirror has no id for, unchanged |
| CanvasManagement.ObserverFor | packages/rrweb/src/record/observers/canvas/canvas-manager.ts:75-100 | no observer iff recordCanvas is off; sampling defaults to 'all'; a number selects the FPS observer |
| CanvasManagement.CanvasManager.constructor | packages/rrweb/src/record/observers/canvas/canvas-manager.ts:31-39 | empty buffer, stamps (0, null), neither frozen nor locked |
| CanvasManagement.CanvasManager.Reset | packages/rrweb/src/record/observers/canvas/canvas-manager.ts:41-44 | the buffer is emptied; flags and stamps are kept |
| CanvasManagement.CanvasManager.Freeze | packages/rrweb/src/record/observers/canvas/canvas-manager.ts:46-48 | frozen is set; locked and the buffer are untouched |
| CanvasManagement.CanvasManager.Unfreeze | packages/rrweb/src/record/observers/canvas/canvas-manager.ts:50-52 | frozen is cleared; locked and the buffer are untouched |
| CanvasManagement.CanvasManager.Lock | packages/rrweb/src/record/observers/canvas/canvas-manager.ts:54-56 | locked is set; frozen and the buffer are untouched |
| CanvasManagement.CanvasManager.Unlock | packages/rrweb/src/record/observers/canvas/canvas-manager.ts:58-60 | locked is cleared; frozen and the buffer are untouched |
| CanvasManagement.CanvasManager.ProcessMutation | packages/rrweb/src/record/observers/canvas/canvas-manager.ts:103-118 | invokeId becomes latestId, and the mutation is appended to the target's list |
| CanvasManagement.CanvasManager.FlushPendingCanvasMutationFor | packages/rrweb/src/record/observers/canvas/canvas-manager.ts:326-343 | no-op when frozen, locked, nothing pending or id -1; otherwise one callback with the stripped commands, then only that entry is deleted |
| CanvasManagement.CanvasManager.FlushPendingCanvasMutations | packages/rrweb/src/record/observers/canvas/canvas-manager.ts:316-324 | callbacks for every canvas with an id, in buffer order; only lists of canvases without an id remain |
| CanvasManagement.CanvasManager.VisitCanvas | packages/rrweb/src/record/observers/canvas/canvas-manager.ts:318-321 | one step of the loop keeps the flush invariant |
| CanvasManagement.FlushWhileFrozenKeepsQueue | packages/rrweb/src/record/observers/canvas/canvas-manager.ts:327-329 | a frozen manager keeps every queued command through a full flush |
| InlineVideoManagement.InlineVideoManager.constructor | packages/rrweb/src/record/observers/video/inline-video-manager.ts:79-91 | the frame sampler starts iff inlineVideo is set |
| InlineVideoManagement.InlineVideoManager.Reset | packages/rrweb/src/record/observers/video/inline-video-manager.ts:34-37 | the buffer is emptied; flags are kept |
| InlineVideoManagement.InlineVideoManager.Freeze | packages/rrweb/src/record/observers/video/inline-video-manager.ts:39-41 | frozen is set; locked and the buffer are untouched |
| InlineVideoManagement.InlineVideoManager.Unfreeze | packages/rrweb/src/record/observers/video/inline-video-manager.ts:43-45 | frozen is cleared; locked and the buffer are untouched |
| InlineVideoManagement.InlineVideoManager.Lock | packages/rrweb/src/record/observers/video/inline-video-manager.ts:47-49 | locked is set; frozen and the buffer are untouched |
| InlineVideoManagement.InlineVideoManager.Unlock | packages/rrweb/src/record/observers/video/inline-video-manager.ts:51-53 | locked is cleared; frozen and the buffer are untouched |
| InlineVideoManagement.InlineVideoManager.FlushPendingCanvasMutationFor | packages/rrweb/src/record/observers/video/inline-video-manager.ts:228-239 | no-op when frozen, locked, nothing pending or id -1; otherwise one 2D callback with the commands unchanged, then the entry is deleted |
| InlineVideoManagement.FlushTwiceEmitsOnce | packages/rrweb/src/record/observers/video/inline-video-manager.ts:233-238 | two flushes in a row emit at most once |
| ImageWorker.Decimal | packages/rrweb/src/record/workers/image-bitmap-data-url-worker.ts:31 | the decimal text is non-empty and all digits |
| ImageWorker.DecimalRoundTrip | packages/rrweb/src/record/workers/image-bitmap-data-url-worker.ts:31 | reading the decimal text back gives the number |
| ImageWorker.SizeKeyInjective | packages/rrweb/src/record/workers/image-bitmap-data-url-worker.ts:31 | two sizes share a "width-height" key only when they are equal |
| ImageWorker.TransparentLookup | packages/rrweb/src/record/workers/image-bitmap-data-url-worker.ts:26-44 | "" without OffscreenCanvas; otherwise the cached encoding for the key, or the new one, which is then cached |
| ImageWorker.TransparentCached | packages/rrweb/src/record/workers/image-bitmap-data-url-worker.ts:31-40 | a second request of the same size returns the first answer and changes nothing |
| ImageWorker.UnsupportedWithoutOffscreen | packages/rrweb/src/record/workers/image-bitmap-data-url-worker.ts:110-115 | without OffscreenCanvas the reply is exactly unsupported and nothing is remembered |
| ImageWorker.TransparentOnlyOnFirstFrame | packages/rrweb/src/record/workers/image-bitmap-data-url-worker.ts:80-87 | the reply is transparent iff the id has no last encoding and the frame equals the blank encoding |
| ImageWorker.LastBlobRecorded | packages/rrweb/src/record/workers/image-bitmap-data-url-worker.ts:80-109 | with OffscreenCanvas, the id's last encoding becomes this frame's; other ids keep theirs |
| ImageWorker.UnchangedFrameStillPosted | packages/rrweb/src/record/workers/image-bitmap-data-url-worker.ts:89-108 | an unchanged frame is still posted in full |
| ImageWorker.Worker.constructor | packages/rrweb/src/record/workers/image-bitmap-data-url-worker.ts:46-47 | empty caches, logDebug false |
| ImageWorker.Worker.GetTransparentBlobFor | packages/rrweb/src/record/workers/image-bitmap-data-url-worker.ts:26-44 | the result and the new cache are those of the lookup; nothing else changes |
| ImageWorker.Worker.OnMessage | packages/rrweb/src/record/workers/image-bitmap-data-url-worker.ts:56-116 | logDebug is the request's flag; the posted reply and both caches are those of the decision |
| WebGLReplay.EnsureList | packages/rrweb/src/replay/canvas/webgl.ts:15-28 | the (context, constructor) list exists afterwards and is the old one or empty; nothing else is added or changed |
| WebGLReplay.EnsureListIdempotent | packages/rrweb/src/replay/canvas/webgl.ts:15-28 | asking again changes nothing and returns the same list |
| WebGLReplay.SaveResult | packages/rrweb/src/replay/canvas/webgl.ts:62-73 | a WebGL variable is appended to its constructor's list unless present; anything else leaves the table alone |
| WebGLReplay.SaveResultKeepsDistinct | packages/rrweb/src/replay/canvas/webgl.ts:62-73 | lists never gain a duplicate |
| WebGLReplay.Deserialize | packages/rrweb/src/replay/canvas/webgl.ts:75-107 | `deserializeArg`: the image handle counter never goes back and a cached image is never changed or dropped |
| WebGLReplay.DeserializeAll | packages/rrweb/src/replay/canvas/webgl.ts:102-104 | one decoded value per argument; the image counter never goes back and cached images stay |
| WebGLReplay.DeserializeAllElementwise | packages/rrweb/src/replay/canvas/webgl.ts:84-88 | value i is argument i decoded against the caches the arguments before it left |
| WebGLReplay.DeserializeShapes | packages/rrweb/src/replay/canvas/webgl.ts:84-90 | `{rr_type, args}` is constructed from the decoded arguments, an array decodes elementwise, `{rr_type, base64}` decodes without touching the caches, any other `rr_type` object is returned as it came |
| WebGLReplay.ComplexObjectDecoded | packages/rrweb/test/replay/deserialize-args.test.ts:76-97 | an array holding a DataView over a constructed ArrayBuffer, then 5 and 6, decodes elementwise to the constructed values and the numbers, leaving the caches alone |
| WebGLReplay.DeserializeGrows | packages/rrweb/src/replay/canvas/webgl.ts:75-107 | decoding never drops or changes a list or a cached image |
| WebGLReplay.DeserializeAllGrows | packages/rrweb/src/replay/canvas/webgl.ts:102-104 | the same for a list of arguments |
| WebGLReplay.DeserializeKeepsDistinct | packages/rrweb/src/replay/canvas/webgl.ts:75-107 | decoding keeps every list free of duplicates |
| WebGLReplay.DeserializeAllKeepsDistinct | packages/rrweb/src/replay/canvas/webgl.ts:102-104 | the same for a list of arguments |
| WebGLReplay.IndexedLooksUpList | packages/rrweb/src/replay/canvas/webgl.ts:81-83 | `{rr_type, index}` decodes to element index of that type's list, undefined when out of range |
| WebGLReplay.ImageCachedBySrc | packages/rrweb/test/replay/deserialize-args.test.ts:117-132 | a cached src returns the cached image; otherwise a new image is created and cached under src |
| WebGLReplay.UntaggedIntact | packages/rrweb/test/replay/deserialize-args.test.ts:71-74 | numbers, null and arrays of them decode to themselves and leave the caches alone |
| WebGLReplay.UntaggedAllIntact | packages/rrweb/src/replay/canvas/webgl.ts:102-105 | the same for a list of arguments |
| WebGLReplay.WebGLReplayer.constructor | packages/rrweb/src/replay/canvas/webgl.ts:11-14 | the variable table is the module-level one shared by every replayer, passed in as earlier replays left it; no image, call or error yet |
| WebGLReplay.WebGLReplayer.VariableListFor | packages/rrweb/src/replay/canvas/webgl.ts:15-28 | returns the stored list, or an empty one that is stored from now on |
| WebGLReplay.WebGLReplayer.SaveToWebGLVarMap | packages/rrweb/src/replay/canvas/webgl.ts:62-73 | the table becomes SaveResult of the old one |
| WebGLReplay.WebGLReplayer.WebglMutation | packages/rrweb/src/replay/canvas/webgl.ts:109-175 | nothing without a context; a setter assigns args[0] and calls nothing; otherwise decode, call, then record the result or pass the error to the handler |
| WebGLReplay.CreateShaderRecordsVariable | packages/rrweb/test/replay/webgl-mutation.test.ts:20-46 | after createShader returns a WebGLShader, that list grows from 0 to 1 |
| PlayerMachine.Transition | es/rrweb/src/replay/machine.js:57-86 | the player table, where an unhandled event keeps the state: every change of state enters or leaves playing, and no change enters inited |
| PlayerMachine.InitedOnlyPlays | es/rrweb/src/replay/machine.js:59-63 | inited changes state iff the event is PLAY, and then to playing |
| PlayerMachine.PlayingTransitions | es/rrweb/src/replay/machine.js:64-70 | PAUSE to paused, END to ended, FAST_FORWARD to skipping, nothing else |
| PlayerMachine.SingleExitToPlaying | es/rrweb/src/replay/machine.js:71-85 | paused, skipping and ended each leave only on their one event, back to playing |
| PlayerMachine.ChangesPassThroughPlaying | es/rrweb/src/replay/machine.js:58-86 | every change of state enters or leaves playing |
| PlayerMachine.NeverBackToInited | es/rrweb/src/replay/machine.js:58-86 | once left, inited is never reached again |
| PlayerMachine.StaysInitedWithoutPlay | es/rrweb/src/replay/machine.js:57-63 | without PLAY the player stays inited |
| PlayerMachine.Notify | es/rrweb/src/replay/machine.js:25 | one call per listener, in order, each with the state |
| PlayerMachine.Without | es/rrweb/src/replay/machine.js:31 | exactly the other listeners remain, and no duplicates appear |
| PlayerMachine.Interpreter.constructor | es/rrweb/src/replay/machine.js:14-16 | inited, NotStarted, no listeners |
| PlayerMachine.Interpreter.Send | es/rrweb/src/replay/machine.js:19-26 | ignored unless Running; otherwise the state transitions and every listener is called with the new state |
| PlayerMachine.Interpreter.Subscribe | es/rrweb/src/replay/machine.js:27-30 | the listener is added once and called at once with the current state |
| PlayerMachine.Interpreter.Unsubscribe | es/rrweb/src/replay/machine.js:31 | only that listener is removed |
| PlayerMachine.Interpreter.Start | es/rrweb/src/replay/machine.js:34-38 | the status becomes Running |
| PlayerMachine.Interpreter.Stop | es/rrweb/src/replay/machine.js:39-43 | the status becomes Stopped and every listener is dropped |
| PlayerMachine.SendAfterStopIgnored | es/rrweb/src/replay/machine.js:19-22 | after stop, send changes nothing and calls no listener |
| PlayerMachine.PlayAfterStart | es/rrweb/src/replay/machine.js:19-38 | PLAY before start is ignored, after start it reaches playing; the subscriber saw inited then playing |

## Left out

- Live DOM, CSSOM, WebGL and window objects are not modelled. Nodes, iframes, windows, canvases and contexts are opaque numbers. The values the code reads from them arrive as parameters: targets, sizes, radios of a group, timestamps, snapshot results, encodings, and call results or errors.
- The implementation of the cross-origin iframe mirror is not part of this model. It is modelled by its contract: an injective per-iframe table that binds fresh ids from a counter. `GetParentId` and `GetParentIds` pin the fresh id they hand out to the counter. Only the event-level contract, `TransformCrossOriginEvent`, leaves open the order in which the ids of one event are translated.
- IframeManagement.IframeManager.ReplacePayload: a Custom event's payload is always a map in the model. In the source a `null` or `undefined` payload makes `replace` throw a TypeError out of `handleMessage`, so nothing is emitted. That path is not represented.
- Event rewriting in the iframe manager mutates the event in place. The model returns the rewritten value instead, so aliasing between the posted and the emitted object is not captured.
- The `Log` incremental kind falls through the inner switch of `transformCrossOriginEvent`. The function then returns `undefined` and the event is dropped. The model follows the code. The newer `StyleDeclaration`, `Selection` and `AdoptedStyleSheet` kinds handled there are data variants without numeric codes, because the enum shown stops at `Drag`.
- `takeFullSnapshot` passes `isCheckout` only to the Meta event; the FullSnapshot is emitted without a flag. The model follows this code, not the description that both events carry it.
- Recorder.CheckoutAfterNth: holds only when the time threshold is unset or a full snapshot exists. Otherwise the time check throws first, which MissingFullSnapshotThrows states.
- Recorder.CountStaysBelowNth: holds under the same condition, and when the snapshot succeeds, for the same reason.
- Observer.ReportedTextIsMasked: stated for lower-case input types. The observer's precheck reads the raw `type`, while `maskInputValue` lower-cases it. Browsers report `type` in lower case.
- `record`: the `snapshot(document)` call, scroll offsets, `document.readyState`, listener registration and removal, `polyfill`, the assignment of the snapshot's id map to `mirror.map` after a successful snapshot, the observers wired in `init`, `Date.now` and `console.warn` are not modelled. Their outcomes are parameters.
- `addLoadListener`, the load listener call and `adoptStyleSheets` in `attachIframe` are not modelled. They are callbacks into code that is not part of this model.
- The observers' prototype patching (rules, style declarations, canvas, fonts, input setters), `throttle` timing, `Date.now` offsets, `getNestedCSSRulePositions` and the MutationObserver wiring are not modelled. They intercept host APIs.
- `initMoveObserver` is modelled only through its sampling defaults, and the scroll observer only through its wait.
- Canvas and video: the FPS sampling loops, `requestAnimationFrame`, `createImageBitmap`, worker posting and the floating-point scale are not modelled. `flushPendingCanvasMutations` is modelled without re-scheduling itself. Map iteration order is insertion order, kept as a sequence beside the map.
- Nothing in the inline-video manager shown here adds to its buffer, so its flush only ever acts on a buffer filled from outside.
- Image worker: `OffscreenCanvas`, drawing, `convertToBlob` and base64 `encode` are not modelled. Their results are opaque strings passed in. Debug logging has no effect on the model.
- WebGLReplay.WebGLReplayer.WebglMutation: a setter command always records its assignment and never an error. In the source the assignment sits inside the `try`, so assigning to a getter-only property throws in strict mode and reaches `errorHandler`. Whether a property is read-only is host behaviour, outside the model.
- ImageWorker.Worker.OnMessage: runs each message to completion. The source handler is async and awaits `convertToBlob` and `arrayBuffer`, so two messages can interleave around `lastBlobMap`. The canvas manager sends at most one frame per canvas id at a time: it sets the id's in-progress flag before sending and clears it only when the reply arrives. So two frames of one id never interleave, and treating each message as atomic is sound for `lastBlobMap`. Two ids of the same size can both miss `transparentBlobMap` and store the blank encoding twice. Both writes store the same blank encoding, which the model takes to be fixed per size.
- WebGL replay: `getContext` becomes an optional context parameter. The method call's return or throw is a parameter. `window[name]` constructors and base64 `decode` produce opaque values. A throw inside decoding is not modelled. The `debugMode` branch is constant-false code and is not modelled.
- Player machine: the xstate/fsm library is not part of this model. Its `transition` is taken to keep the state on an event the state does not handle. The machine defines no actions, so `executeStateActions` does nothing. The State object is reduced to its value.
- Attribute objects are compared as property lists. This is what `JSON.stringify` compares for the attribute values allowed.
- StringUtils.ToLower: `toLowerCase` is modelled for ASCII letters only.
- Numbers are integers; the floating-point parts are not modelled.
- Mirror.GetIds: returns the set of bound ids, not the insertion-ordered array.
- The CSS helpers `stringifyStylesheet`, `stringifyRule`, `escapeImportStatement`, `fixSafariColons` and `fixBrowserCompatibilityIssuesInCSS` are not modelled. Neither are `obfuscateText` (random), `shouldObfuscateTextByDefault` (regular expressions), `is2DCanvasBlank` (pixels), `getInputType`, `extractFileExtension`, `isShadowRoot` and `isNativeShadowDom`.
