/**
 * The serialized-node format of rrweb-snapshot: a tagged tree in which every node carries
 * an integer `id`, and only documents and elements carry children.
 */
module SnapshotTypes {
  import opened Wrappers

  /** `NodeType`, numbered in declaration order. */
  datatype NodeType = Document | DocumentType | Element | Text | CDATA | Comment

  function NodeTypeOfCode(code: int): Option<NodeType> {
    match code
    case 0 => Some(Document)
    case 1 => Some(DocumentType)
    case 2 => Some(Element)
    case 3 => Some(Text)
    case 4 => Some(CDATA)
    case 5 => Some(Comment)
    case _ => None
  }

  /** The number the enum assigns to each node type; decoding it gives the type back. */
  function NodeTypeCode(t: NodeType): (code: nat)
    ensures code <= 5
    ensures NodeTypeOfCode(code) == Some(t)
  {
    match t
    case Document => 0
    case DocumentType => 1
    case Element => 2
    case Text => 3
    case CDATA => 4
    case Comment => 5
  }

  /** Every code from 0 to 5 names exactly one node type. */
  lemma NodeTypeCodesOnto(code: int)
    requires 0 <= code <= 5
    ensures NodeTypeOfCode(code).Some? && NodeTypeCode(NodeTypeOfCode(code).value) == code
  {
  }

  /** An attribute value: a string, a number, `true` or `null`. */
  datatype AttrValue = AttrString(s: string) | AttrNumber(n: int) | AttrTrue | AttrNull

  /** An attribute object as its own properties in enumeration order (what `JSON.stringify` sees). */
  type Attributes = seq<(string, AttrValue)>

  /** The per-variant part of a serialized node. Optional `true`-only flags are `bool` (false = absent). */
  datatype NodeKind =
    | DocumentNode(childNodes: seq<SerializedNode>, compatMode: Option<string>)
    | DocumentTypeNode(name: string, publicId: string, systemId: string)
    | ElementNode(tagName: string, attributes: Attributes, childNodes: seq<SerializedNode>,
                  isSVG: bool, needBlock: Option<bool>, needMask: Option<bool>, isCustom: bool)
    | TextNode(textContent: string, isStyle: bool)
    | CDATANode
    | CommentNode(textContent: string)

  /** `serializedNodeWithId`: any variant plus a numeric id and the optional shadow-DOM fields. */
  datatype SerializedNode = SerializedNode(
    kind: NodeKind,
    id: int,
    rootId: Option<int>,
    isShadowHost: Option<bool>,
    isShadow: Option<bool>)

  function TypeOf(k: NodeKind): NodeType {
    match k
    case DocumentNode(_, _) => Document
    case DocumentTypeNode(_, _, _) => DocumentType
    case ElementNode(_, _, _, _, _, _, _) => Element
    case TextNode(_, _) => Text
    case CDATANode => CDATA
    case CommentNode(_) => Comment
  }

  /** The `childNodes` of a node; only documents and elements have any. */
  function ChildNodes(n: SerializedNode): (cs: seq<SerializedNode>)
    ensures cs != [] ==> TypeOf(n.kind) == Document || TypeOf(n.kind) == Element
    ensures forall i :: 0 <= i < |cs| ==> cs[i] < n
  {
    match n.kind
    case DocumentNode(cs, _) => cs
    case ElementNode(_, _, cs, _, _, _, _) => cs
    case _ => []
  }

  /** `textContent` of a text-like node; a CDATA node's is always the empty string. */
  function TextContent(k: NodeKind): (t: string)
    requires TypeOf(k) in {Text, CDATA, Comment}
    ensures TypeOf(k) == CDATA ==> t == ""
  {
    match k
    case TextNode(t, _) => t
    case CommentNode(t) => t
    case CDATANode => ""
  }

  /** The same node with its children replaced (documents and elements only). */
  function WithChildNodes(n: SerializedNode, cs: seq<SerializedNode>): (r: SerializedNode)
    requires TypeOf(n.kind) == Document || TypeOf(n.kind) == Element
    ensures ChildNodes(r) == cs && r.id == n.id && TypeOf(r.kind) == TypeOf(n.kind)
  {
    match n.kind
    case DocumentNode(_, cm) => n.(kind := DocumentNode(cs, cm))
    case ElementNode(t, a, _, s, b, m, c) => n.(kind := ElementNode(t, a, cs, s, b, m, c))
  }
}
