/**
 * The recorded event stream: the `EventType`, `IncrementalSource` and `MouseInteractions`
 * enums with their numbers, timed events, incremental payloads and mutation batches.
 */
module EventTypes {
  import opened Wrappers
  import opened SnapshotTypes
  import opened CanvasTypes

  datatype EventType = DomContentLoadedType | LoadType | FullSnapshotType | IncrementalSnapshotType
                     | MetaType | CustomType | PluginType

  function EventTypeOfCode(code: int): Option<EventType> {
    match code
    case 0 => Some(DomContentLoadedType)
    case 1 => Some(LoadType)
    case 2 => Some(FullSnapshotType)
    case 3 => Some(IncrementalSnapshotType)
    case 4 => Some(MetaType)
    case 5 => Some(CustomType)
    case 6 => Some(PluginType)
    case _ => None
  }

  /** DomContentLoaded=0 through Plugin=6; decoding a code gives the type back. */
  function EventTypeCode(t: EventType): (code: nat)
    ensures code <= 6 && EventTypeOfCode(code) == Some(t)
  {
    match t
    case DomContentLoadedType => 0
    case LoadType => 1
    case FullSnapshotType => 2
    case IncrementalSnapshotType => 3
    case MetaType => 4
    case CustomType => 5
    case PluginType => 6
  }

  datatype IncrementalSource = Mutation | MouseMove | MouseInteraction | Scroll | ViewportResize | Input
                             | TouchMove | MediaInteraction | StyleSheetRule | CanvasMutation | Font | Log | Drag

  function IncrementalSourceOfCode(code: int): Option<IncrementalSource> {
    match code
    case 0 => Some(Mutation)
    case 1 => Some(MouseMove)
    case 2 => Some(MouseInteraction)
    case 3 => Some(Scroll)
    case 4 => Some(ViewportResize)
    case 5 => Some(Input)
    case 6 => Some(TouchMove)
    case 7 => Some(MediaInteraction)
    case 8 => Some(StyleSheetRule)
    case 9 => Some(CanvasMutation)
    case 10 => Some(Font)
    case 11 => Some(Log)
    case 12 => Some(Drag)
    case _ => None
  }

  /** Mutation=0 through Drag=12; decoding a code gives the source back. */
  function IncrementalSourceCode(s: IncrementalSource): (code: nat)
    ensures code <= 12 && IncrementalSourceOfCode(code) == Some(s)
  {
    match s
    case Mutation => 0
    case MouseMove => 1
    case MouseInteraction => 2
    case Scroll => 3
    case ViewportResize => 4
    case Input => 5
    case TouchMove => 6
    case MediaInteraction => 7
    case StyleSheetRule => 8
    case CanvasMutation => 9
    case Font => 10
    case Log => 11
    case Drag => 12
  }

  datatype MouseInteractions = MouseUp | MouseDown | Click | ContextMenu | DblClick | Focus | Blur
                             | TouchStart | TouchMove_Departed | TouchEnd

  /** The enum's member names in declaration order. */
  const MouseInteractionNames: seq<string> :=
    ["MouseUp", "MouseDown", "Click", "ContextMenu", "DblClick", "Focus", "Blur",
     "TouchStart", "TouchMove_Departed", "TouchEnd"]

  function MouseInteractionOfCode(code: int): Option<MouseInteractions> {
    match code
    case 0 => Some(MouseUp)
    case 1 => Some(MouseDown)
    case 2 => Some(Click)
    case 3 => Some(ContextMenu)
    case 4 => Some(DblClick)
    case 5 => Some(Focus)
    case 6 => Some(Blur)
    case 7 => Some(TouchStart)
    case 8 => Some(TouchMove_Departed)
    case 9 => Some(TouchEnd)
    case _ => None
  }

  /** MouseUp=0 through TouchEnd=9, with TouchMove_Departed=8; decoding a code gives the member back. */
  function MouseInteractionCode(m: MouseInteractions): (code: nat)
    ensures code <= 9 && MouseInteractionOfCode(code) == Some(m)
    ensures m == TouchMove_Departed <==> code == 8
  {
    match m
    case MouseUp => 0
    case MouseDown => 1
    case Click => 2
    case ContextMenu => 3
    case DblClick => 4
    case Focus => 5
    case Blur => 6
    case TouchStart => 7
    case TouchMove_Departed => 8
    case TouchEnd => 9
  }

  /** `MouseInteractions[name]`: the member a name stands for. */
  function MouseInteractionNamed(name: string): (m: Option<MouseInteractions>)
    ensures m.Some? <==> name in MouseInteractionNames
    ensures m.Some? ==> MouseInteractionNames[MouseInteractionCode(m.value)] == name
  {
    if name == "MouseUp" then Some(MouseUp)
    else if name == "MouseDown" then Some(MouseDown)
    else if name == "Click" then Some(Click)
    else if name == "ContextMenu" then Some(ContextMenu)
    else if name == "DblClick" then Some(DblClick)
    else if name == "Focus" then Some(Focus)
    else if name == "Blur" then Some(Blur)
    else if name == "TouchStart" then Some(TouchStart)
    else if name == "TouchMove_Departed" then Some(TouchMove_Departed)
    else if name == "TouchEnd" then Some(TouchEnd)
    else None
  }

  datatype MediaInteractions = Play | Pause | Seeked

  /** An optional id that may also be given as `null` (`previousId?: number | null`). */
  datatype MaybeId = Missing | Null | Id(n: int)

  /** `textMutation` */
  datatype TextMutation = TextMutation(id: int, value: Option<string>)

  datatype StyleValue = StylePair(value: string, priority: string) | StyleString(s: string) | StyleFalse

  /** An attribute mutation's value: a string, a style map, or `null` for a removed attribute. */
  datatype AttributeChange = ChangedTo(s: string) | StyleChange(style: map<string, StyleValue>) | Removed

  /** `attributeMutation` */
  datatype AttributeMutation = AttributeMutation(id: int, attributes: map<string, AttributeChange>)

  /** `removedNodeMutation` */
  datatype RemovedNode = RemovedNode(parentId: int, id: int, isShadow: Option<bool>)

  /** `addedNodeMutation`: `nextId` is a number or null, `previousId` may also be missing. */
  datatype AddedNode = AddedNode(parentId: int, previousId: MaybeId, nextId: Option<int>, node: SerializedNode)

  /** `mutationCallbackParam`: exactly four lists and the optional `isAttachIframe: true` flag. */
  datatype MutationPayload = MutationPayload(
    texts: seq<TextMutation>,
    attributes: seq<AttributeMutation>,
    removes: seq<RemovedNode>,
    adds: seq<AddedNode>,
    isAttachIframe: bool)

  datatype MousePosition = MousePosition(x: int, y: int, id: int, timeOffset: int)

  /** A rule position: absent, a plain index, or a path of indices into nested grouping rules. */
  datatype RuleIndex = NoIndex | AtIndex(i: int) | AtPath(path: seq<int>)

  datatype StyleRuleAdd = StyleRuleAdd(rule: string, index: RuleIndex)

  datatype SelectionRange = SelectionRange(start: int, startOffset: int, end: int, endOffset: int)

  datatype AdoptedStyle = AdoptedStyle(styleId: int, rules: seq<StyleRuleAdd>)

  /**
   * Incremental payloads by source. The last three are handled by the cross-origin iframe
   * rewriting but carry no number in the `IncrementalSource` enum above.
   */
  datatype IncrementalData =
    | MutationData(mutation: MutationPayload)
    | MoveData(moveSource: IncrementalSource, positions: seq<MousePosition>)
    | MouseInteractionData(interaction: MouseInteractions, id: int, x: int, y: int)
    | ScrollData(id: int, x: int, y: int)
    | ViewportResizeData(width: int, height: int)
    | InputData(id: int, text: string, isChecked: bool, userTriggered: Option<bool>)
    | MediaInteractionData(media: MediaInteractions, id: int, currentTime: Option<int>)
    | StyleSheetRuleData(id: int, styleId: Option<int>, removes: seq<RuleIndex>, adds: seq<StyleRuleAdd>)
    | CanvasMutationData(canvas: CanvasMutationParam)
    | FontData(family: string, fontSource: string, buffer: bool)
    | LogData(level: string, payload: seq<string>)
    | StyleDeclarationData(declId: Option<int>, styleId: Option<int>, property: string)
    | SelectionData(ranges: seq<SelectionRange>)
    | AdoptedStyleSheetData(id: int, styleIds: seq<int>, styles: Option<seq<AdoptedStyle>>)

  /** The value of one key of a custom event's payload. */
  datatype PayloadValue = PNumber(n: int) | PNumbers(ns: seq<int>) | POther(text: string)

  type Payload = map<string, PayloadValue>

  datatype EventBody =
    | DomContentLoaded
    | Load
    | FullSnapshot(node: SerializedNode, initialTop: int, initialLeft: int)
    | IncrementalSnapshot(data: IncrementalData)
    | Meta(href: string, width: int, height: int)
    | Custom(tag: string, payload: Payload)
    | Plugin(plugin: string, pluginPayload: Payload)

  /** `eventWithTime`: an event plus its numeric timestamp and optional delay. */
  datatype Event = Event(body: EventBody, timestamp: int, delay: Option<int>)

  function TypeOfEvent(e: EventBody): (t: EventType)
  {
    match e
    case DomContentLoaded => DomContentLoadedType
    case Load => LoadType
    case FullSnapshot(_, _, _) => FullSnapshotType
    case IncrementalSnapshot(_) => IncrementalSnapshotType
    case Meta(_, _, _) => MetaType
    case Custom(_, _) => CustomType
    case Plugin(_, _) => PluginType
  }
}
