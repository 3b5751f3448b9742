/**
 * Pure helpers of rrweb-snapshot's utils: per-variant structural equality of serialized
 * nodes, the input-masking decision and masking itself, and the list of source-blocked tags.
 */
module SnapshotUtils {
  import opened Wrappers
  import opened StringUtils
  import opened SnapshotTypes

  /**
   * `isNodeMetaEqual`: false when the node types differ, otherwise a comparison of the
   * variant's own fields. Attribute objects are compared through `JSON.stringify`, which for
   * the attribute values allowed here is equality of the property lists.
   */
  predicate IsNodeMetaEqual(a: SerializedNode, b: SerializedNode)
    ensures IsNodeMetaEqual(a, b) ==> TypeOf(a.kind) == TypeOf(b.kind)
  {
    match (a.kind, b.kind)
    case (DocumentNode(_, m1), DocumentNode(_, m2)) => m1 == m2
    case (DocumentTypeNode(n1, p1, s1), DocumentTypeNode(n2, p2, s2)) => n1 == n2 && p1 == p2 && s1 == s2
    case (TextNode(t1, _), TextNode(t2, _)) => t1 == t2
    case (CDATANode, CDATANode) => true
    case (CommentNode(t1), CommentNode(t2)) => t1 == t2
    case (ElementNode(g1, a1, _, v1, b1, _, _), ElementNode(g2, a2, _, v2, b2, _, _)) =>
      g1 == g2 && a1 == a2 && v1 == v2 && b1 == b2
    case _ => false
  }

  /** The comparison never looks at `id`, at the shadow-DOM fields, or at `childNodes`. */
  lemma IgnoresIdAndChildren(a: SerializedNode, b: SerializedNode, id: int, cs: seq<SerializedNode>)
    ensures IsNodeMetaEqual(a.(id := id, rootId := None, isShadowHost := None, isShadow := None), b)
            == IsNodeMetaEqual(a, b)
    ensures TypeOf(a.kind) in {Document, Element} ==>
            IsNodeMetaEqual(WithChildNodes(a, cs), b) == IsNodeMetaEqual(a, b)
  {
  }

  /** `isNodeMetaEqual` is an equivalence relation. */
  lemma MetaEqualIsEquivalence(a: SerializedNode, b: SerializedNode, c: SerializedNode)
    ensures IsNodeMetaEqual(a, a)
    ensures IsNodeMetaEqual(a, b) ==> IsNodeMetaEqual(b, a)
    ensures IsNodeMetaEqual(a, b) && IsNodeMetaEqual(b, c) ==> IsNodeMetaEqual(a, c)
  {
  }

  /** A mask-input option map; a missing key reads as `undefined`, which is falsy. */
  type MaskInputOptions = map<string, bool>

  predicate OptionSet(options: MaskInputOptions, key: string) {
    key in options && options[key]
  }

  /**
   * `maskedInputType`: never when `overwriteRecord` is the string "true"; otherwise exactly when
   * the option for the lower-cased tag name, or for the lower-cased non-empty type, is set.
   */
  predicate MaskedInputType(options: MaskInputOptions, tagName: string, inputType: Option<string>,
                            overwriteRecord: Option<string>)
  {
    overwriteRecord != Some("true") &&
    (OptionSet(options, ToLower(tagName)) ||
     (inputType.Some? && inputType.value != "" && OptionSet(options, ToLower(inputType.value))))
  }

  /**
   * The custom masking function, given the current text and the element, an opaque node that is
   * absent when the caller passes none.
   */
  type MaskInputFn = (string, Option<nat>) -> string

  function Stars(n: nat): (r: string)
    ensures |r| == n && forall i :: 0 <= i < n ==> r[i] == '*'
  {
    if n == 0 then [] else Stars(n - 1) + ['*']
  }

  /** A character outside the Basic Multilingual Plane takes a surrogate pair in UTF-16. */
  predicate Astral(c: char) {
    c as int > 0xFFFF
  }

  /** A string's `length` in JavaScript: the number of UTF-16 code units. */
  function Utf16Length(s: string): (r: nat)
    ensures |s| <= r <= 2 * |s|
  {
    if s == [] then 0 else Utf16Length(s[..|s| - 1]) + (if Astral(s[|s| - 1]) then 2 else 1)
  }

  /** The code-unit count equals the character count exactly when no character is astral. */
  lemma {:induction false} Utf16LengthIsCharCount(s: string)
    ensures Utf16Length(s) == |s| <==> forall i :: 0 <= i < |s| ==> !Astral(s[i])
  {
    if s != [] {
      var init := s[..|s| - 1];
      Utf16LengthIsCharCount(init);
      if Utf16Length(s) == |s| {
        assert Utf16Length(init) == |init| && !Astral(s[|s| - 1]);
        forall i | 0 <= i < |s| ensures !Astral(s[i]) {
          if i < |init| {
            assert s[i] == init[i];
          }
        }
      } else {
        assert Utf16Length(init) >= |init|;
        if Utf16Length(init) == |init| {
          assert Astral(s[|s| - 1]);
        } else {
          var j :| 0 <= j < |init| && Astral(init[j]);
          assert s[j] == init[j];
        }
      }
    }
  }

  /**
   * `maskInputValue`: a null value reads as the empty string; a value of a masked input is
   * replaced by `maskInputFn`'s result or, without one, by one `*` per UTF-16 code unit.
   */
  function MaskInputValue(options: MaskInputOptions, tagName: string, inputType: Option<string>,
                          value: Option<string>, overwriteRecord: Option<string>,
                          maskInputFn: Option<MaskInputFn>, element: Option<nat>): (r: string)
    ensures !MaskedInputType(options, tagName, inputType, overwriteRecord) ==> r == value.GetOr("")
    ensures MaskedInputType(options, tagName, inputType, overwriteRecord) && maskInputFn.None? ==>
      |r| == Utf16Length(value.GetOr("")) && forall i :: 0 <= i < |r| ==> r[i] == '*'
    ensures MaskedInputType(options, tagName, inputType, overwriteRecord) && maskInputFn.Some? ==>
      r == maskInputFn.value(value.GetOr(""), element)
  {
    var text := value.GetOr("");
    if MaskedInputType(options, tagName, inputType, overwriteRecord) then
      if maskInputFn.Some? then maskInputFn.value(text, element) else Stars(Utf16Length(text))
    else text
  }

  /** A masked emoji, one character but two code units, becomes two stars. */
  lemma AstralMaskedAsTwoStars(options: MaskInputOptions, tagName: string, inputType: Option<string>)
    requires MaskedInputType(options, tagName, inputType, None)
    ensures MaskInputValue(options, tagName, inputType, Some("\U{1F600}"), None, None, None) == "**"
  {
    assert Astral('\U{1F600}');
    assert Utf16Length("\U{1F600}") == 2;
  }

  /** An `overwriteRecord` of "true" keeps every value as typed, whatever the options say. */
  lemma OverwriteRecordKeepsValue(options: MaskInputOptions, tagName: string, inputType: Option<string>,
                                  value: Option<string>, maskInputFn: Option<MaskInputFn>, element: Option<nat>)
    ensures MaskInputValue(options, tagName, inputType, value, Some("true"), maskInputFn, element) == value.GetOr("")
  {
  }

  /** The tags whose source attribute is blocked, written in lower case. */
  const SrcBlockedTags: set<string> := {"img", "video", "audio", "source"}

  /** `isElementSrcBlocked`: exactly the four media tags, compared without case folding. */
  predicate IsElementSrcBlocked(tagName: string): (r: bool)
    ensures r <==> tagName in SrcBlockedTags
    ensures r ==> 3 <= |tagName| <= 6 && forall i :: 0 <= i < |tagName| ==> 'a' <= tagName[i] <= 'z'
  {
    tagName == "img" || tagName == "video" || tagName == "audio" || tagName == "source"
  }

  /** The comparison is case-sensitive: a tag name holding an upper-case letter, such as "IMG", is not blocked. */
  lemma SrcBlockedIsCaseSensitive(tagName: string, i: nat)
    requires i < |tagName| && 'A' <= tagName[i] <= 'Z'
    ensures !IsElementSrcBlocked(tagName)
  {
  }
}
