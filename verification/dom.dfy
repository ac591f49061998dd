/**
 The part of the document object model the HTML tree builder produces:
 element type ids, the type-specific fields set at creation, attributes,
 and the node kinds the tokenizer asks for.
 */
module Dom {
  import opened Common

  /** The element type ids the tree builder can create. */
  datatype ElementTypeId =
    | HTMLElementTypeId
    | HTMLAnchorElementTypeId
    | HTMLAppletElementTypeId
    | HTMLAreaElementTypeId
    | HTMLBRElementTypeId
    | HTMLBodyElementTypeId
    | HTMLCanvasElementTypeId
    | HTMLDivElementTypeId
    | HTMLDListElementTypeId
    | HTMLFontElementTypeId
    | HTMLFormElementTypeId
    | HTMLHRElementTypeId
    | HTMLHeadElementTypeId
    | HTMLHtmlElementTypeId
    | HTMLInputElementTypeId
    | HTMLLinkElementTypeId
    | HTMLListItemElementTypeId
    | HTMLMetaElementTypeId
    | HTMLOListElementTypeId
    | HTMLOptionElementTypeId
    | HTMLParagraphElementTypeId
    | HTMLScriptElementTypeId
    | HTMLSelectElementTypeId
    | HTMLSmallElementTypeId
    | HTMLSourceElementTypeId
    | HTMLSpanElementTypeId
    | HTMLStyleElementTypeId
    | HTMLTableCaptionElementTypeId
    | HTMLTableCellElementTypeId
    | HTMLTableElementTypeId
    | HTMLTableSectionElementTypeId
    | HTMLTextAreaElementTypeId
    | HTMLTimeElementTypeId
    | HTMLTitleElementTypeId
    | HTMLTableRowElementTypeId
    | HTMLUListElementTypeId
    | HTMLImageElementTypeId
    | HTMLIframeElementTypeId
    | HTMLHeadingElementTypeId
    | UnknownElementTypeId

  datatype HeadingLevel = Heading1 | Heading2 | Heading3 | Heading4 | Heading5 | Heading6

  type PipelineId = nat

  /** Identifies a nested frame's page within its parent pipeline. */
  type SubpageId = nat

  /**
   What an iframe records about its nested page: the parent pipeline and the
   subpage id allocated for it.  The size channel and the constellation
   channel it also holds are not modelled.
   */
  datatype IFrameSize = IFrameSize(pipelineId: PipelineId, subpageId: SubpageId)

  /** The fields some element kinds add to the generic element. */
  datatype ElementData =
    | Plain
    | Heading(level: HeadingLevel)
    | Image(image: Option<Url>)
    | IFrame(frame: Option<Url>, size: Option<IFrameSize>)

  /** An element: type id, tag name as written, attributes (one value per name), and kind-specific fields. */
  datatype Element = Element(typeId: ElementTypeId, tagName: string, attrs: map<string, string>, data: ElementData)

  /** A document node. */
  datatype Node =
    | ElementNode(element: Element)
    | TextNode(text: string)
    | CommentNode(comment: string)
    | DoctypeNode(name: string, publicId: Option<string>, systemId: Option<string>, forceQuirks: bool)

  datatype Attribute = Attribute(name: string, value: string)

  function GetAttr(e: Element, name: string): Option<string>
  {
    if name in e.attrs then Some(e.attrs[name]) else None
  }

  /** The names `attrs` sets. */
  function Names(attrs: seq<Attribute>): set<string>
  {
    set a | a in attrs :: a.name
  }

  /** Position `k` holds the last attribute in `attrs` with its name. */
  ghost predicate IsLastOfName(attrs: seq<Attribute>, k: int)
  {
    && 0 <= k < |attrs|
    && forall j :: k < j < |attrs| ==> attrs[j].name != attrs[k].name
  }

  /**
   Sets the attributes one after the other, as the tree builder does for a
   new element's tag: a name given twice keeps its last value, names not
   given keep their old value, and nothing but the attributes changes.
   */
  function SetAttrs(e: Element, attrs: seq<Attribute>): (r: Element)
    ensures r.typeId == e.typeId && r.tagName == e.tagName && r.data == e.data
    ensures r.attrs.Keys == e.attrs.Keys + Names(attrs)
    ensures forall k :: IsLastOfName(attrs, k) ==> r.attrs[attrs[k].name] == attrs[k].value
    ensures forall name :: name in e.attrs && name !in Names(attrs) ==> r.attrs[name] == e.attrs[name]
    decreases |attrs|
  {
    if attrs == [] then e
    else
      var r := SetAttrs(e.(attrs := e.attrs[attrs[0].name := attrs[0].value]), attrs[1..]);
      assert Names(attrs) == {attrs[0].name} + Names(attrs[1..]) by {
        assert forall a :: a in attrs <==> a == attrs[0] || a in attrs[1..];
      }
      assert forall k :: 0 < k && IsLastOfName(attrs, k) ==> IsLastOfName(attrs[1..], k - 1);
      assert IsLastOfName(attrs, 0) ==> attrs[0].name !in Names(attrs[1..]);
      r
  }
}
