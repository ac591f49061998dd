/**
 The element factory: maps a tag name to a new element of the matching
 type, with the kind-specific fields at their defaults.  Tag names are
 compared exactly (case-sensitively), the first listed match wins, and any
 other name yields an element of unknown type that keeps the name as written.
 */
module ElementFactory {
  import opened Common
  import opened Dom

  /** Every tag name the factory recognises. */
  const KnownTags: set<string> := {
    "a", "applet", "area", "br", "body", "canvas", "div", "dl", "font", "form", "hr", "head",
    "html", "input", "link", "li", "meta", "ol", "option", "p", "script", "select", "small",
    "source", "span", "style", "caption", "td", "table", "tbody", "textarea", "time", "title",
    "tr", "ul", "img", "iframe", "h1", "h2", "h3", "h4", "h5", "h6", "aside", "b", "i",
    "section"}

  /** The tags that create a generic HTML element. */
  const GenericHtmlTags: set<string> := {"aside", "b", "i", "section"}

  /**
   The one tag name from which an element of type `id` is created, for the
   type ids that have exactly one; headings, generic HTML elements and
   unknown elements have none.
   */
  function CanonicalTag(id: ElementTypeId): Option<string>
  {
    match id
    case HTMLAnchorElementTypeId => Some("a")
    case HTMLAppletElementTypeId => Some("applet")
    case HTMLAreaElementTypeId => Some("area")
    case HTMLBRElementTypeId => Some("br")
    case HTMLBodyElementTypeId => Some("body")
    case HTMLCanvasElementTypeId => Some("canvas")
    case HTMLDivElementTypeId => Some("div")
    case HTMLDListElementTypeId => Some("dl")
    case HTMLFontElementTypeId => Some("font")
    case HTMLFormElementTypeId => Some("form")
    case HTMLHRElementTypeId => Some("hr")
    case HTMLHeadElementTypeId => Some("head")
    case HTMLHtmlElementTypeId => Some("html")
    case HTMLInputElementTypeId => Some("input")
    case HTMLLinkElementTypeId => Some("link")
    case HTMLListItemElementTypeId => Some("li")
    case HTMLMetaElementTypeId => Some("meta")
    case HTMLOListElementTypeId => Some("ol")
    case HTMLOptionElementTypeId => Some("option")
    case HTMLParagraphElementTypeId => Some("p")
    case HTMLScriptElementTypeId => Some("script")
    case HTMLSelectElementTypeId => Some("select")
    case HTMLSmallElementTypeId => Some("small")
    case HTMLSourceElementTypeId => Some("source")
    case HTMLSpanElementTypeId => Some("span")
    case HTMLStyleElementTypeId => Some("style")
    case HTMLTableCaptionElementTypeId => Some("caption")
    case HTMLTableCellElementTypeId => Some("td")
    case HTMLTableElementTypeId => Some("table")
    case HTMLTableSectionElementTypeId => Some("tbody")
    case HTMLTextAreaElementTypeId => Some("textarea")
    case HTMLTimeElementTypeId => Some("time")
    case HTMLTitleElementTypeId => Some("title")
    case HTMLTableRowElementTypeId => Some("tr")
    case HTMLUListElementTypeId => Some("ul")
    case HTMLImageElementTypeId => Some("img")
    case HTMLIframeElementTypeId => Some("iframe")
    case _ => None
  }

  /** The tag name of a heading of the given level. */
  function HeadingTag(level: HeadingLevel): string
  {
    match level
    case Heading1 => "h1"
    case Heading2 => "h2"
    case Heading3 => "h3"
    case Heading4 => "h4"
    case Heading5 => "h5"
    case Heading6 => "h6"
  }

  /**
   The dispatch on the tag name, in the order of the tree builder's tests:
   the type id and the kind-specific fields of the element to create.
   */
  function Dispatch(tag: string): (ElementTypeId, ElementData)
  {
    if tag == "a" then (HTMLAnchorElementTypeId, Plain)
    else if tag == "applet" then (HTMLAppletElementTypeId, Plain)
    else if tag == "area" then (HTMLAreaElementTypeId, Plain)
    else if tag == "br" then (HTMLBRElementTypeId, Plain)
    else if tag == "body" then (HTMLBodyElementTypeId, Plain)
    else if tag == "canvas" then (HTMLCanvasElementTypeId, Plain)
    else if tag == "div" then (HTMLDivElementTypeId, Plain)
    else if tag == "dl" then (HTMLDListElementTypeId, Plain)
    else if tag == "font" then (HTMLFontElementTypeId, Plain)
    else if tag == "form" then (HTMLFormElementTypeId, Plain)
    else if tag == "hr" then (HTMLHRElementTypeId, Plain)
    else if tag == "head" then (HTMLHeadElementTypeId, Plain)
    else if tag == "html" then (HTMLHtmlElementTypeId, Plain)
    else if tag == "input" then (HTMLInputElementTypeId, Plain)
    else if tag == "link" then (HTMLLinkElementTypeId, Plain)
    else if tag == "li" then (HTMLListItemElementTypeId, Plain)
    else if tag == "meta" then (HTMLMetaElementTypeId, Plain)
    else if tag == "ol" then (HTMLOListElementTypeId, Plain)
    else if tag == "option" then (HTMLOptionElementTypeId, Plain)
    else if tag == "p" then (HTMLParagraphElementTypeId, Plain)
    else if tag == "script" then (HTMLScriptElementTypeId, Plain)
    else if tag == "select" then (HTMLSelectElementTypeId, Plain)
    else if tag == "small" then (HTMLSmallElementTypeId, Plain)
    else if tag == "source" then (HTMLSourceElementTypeId, Plain)
    else if tag == "span" then (HTMLSpanElementTypeId, Plain)
    else if tag == "style" then (HTMLStyleElementTypeId, Plain)
    else if tag == "caption" then (HTMLTableCaptionElementTypeId, Plain)
    else if tag == "td" then (HTMLTableCellElementTypeId, Plain)
    else if tag == "table" then (HTMLTableElementTypeId, Plain)
    else if tag == "tbody" then (HTMLTableSectionElementTypeId, Plain)
    else if tag == "textarea" then (HTMLTextAreaElementTypeId, Plain)
    else if tag == "time" then (HTMLTimeElementTypeId, Plain)
    else if tag == "title" then (HTMLTitleElementTypeId, Plain)
    else if tag == "tr" then (HTMLTableRowElementTypeId, Plain)
    else if tag == "ul" then (HTMLUListElementTypeId, Plain)
    else if tag == "img" then (HTMLImageElementTypeId, Image(None))
    else if tag == "iframe" then (HTMLIframeElementTypeId, IFrame(None, None))
    else if tag == "h1" then (HTMLHeadingElementTypeId, Heading(Heading1))
    else if tag == "h2" then (HTMLHeadingElementTypeId, Heading(Heading2))
    else if tag == "h3" then (HTMLHeadingElementTypeId, Heading(Heading3))
    else if tag == "h4" then (HTMLHeadingElementTypeId, Heading(Heading4))
    else if tag == "h5" then (HTMLHeadingElementTypeId, Heading(Heading5))
    else if tag == "h6" then (HTMLHeadingElementTypeId, Heading(Heading6))
    else if tag == "aside" then (HTMLElementTypeId, Plain)
    else if tag == "b" then (HTMLElementTypeId, Plain)
    else if tag == "i" then (HTMLElementTypeId, Plain)
    else if tag == "section" then (HTMLElementTypeId, Plain)
    else (UnknownElementTypeId, Plain)
  }

  /**
   Creates the element for `tag`: never fails, and keeps the tag name as
   written whatever the type.  The lemmas below say which type each tag gets.
   */
  function BuildElementFromTag(tag: string): (e: Element)
    ensures e.tagName == tag && e.attrs == map[]
  {
    var (id, data) := Dispatch(tag);
    Element(id, tag, map[], data)
  }

  /** A name outside the dispatch table creates an unknown element (and keeps the name). */
  lemma UnlistedTagsAreUnknown(tag: string)
    requires tag !in KnownTags
    ensures BuildElementFromTag(tag) == Element(UnknownElementTypeId, tag, map[], Plain)
  {
  }

  /** Only images, iframes and headings carry kind-specific fields, and images and iframes start with them empty. */
  lemma KindFieldsStartEmpty(tag: string)
    ensures var e := BuildElementFromTag(tag);
            && (e.typeId == HTMLImageElementTypeId ==> e.data == Image(None))
            && (e.typeId == HTMLIframeElementTypeId ==> e.data == IFrame(None, None))
            && (e.typeId !in {HTMLImageElementTypeId, HTMLIframeElementTypeId, HTMLHeadingElementTypeId} ==> e.data == Plain)
  {
  }

  /** The tags `a` to `html` each create an element of their own type id. */
  lemma {:induction false} ListedTagsAToHtml(id: ElementTypeId)
    requires id in {HTMLAnchorElementTypeId, HTMLAppletElementTypeId, HTMLAreaElementTypeId, HTMLBRElementTypeId, HTMLBodyElementTypeId, HTMLCanvasElementTypeId, HTMLDivElementTypeId, HTMLDListElementTypeId, HTMLFontElementTypeId, HTMLFormElementTypeId, HTMLHRElementTypeId, HTMLHeadElementTypeId, HTMLHtmlElementTypeId}
    ensures CanonicalTag(id).Some? && BuildElementFromTag(CanonicalTag(id).value).typeId == id
  {
    match id
    case HTMLAnchorElementTypeId =>
    case HTMLAppletElementTypeId =>
    case HTMLAreaElementTypeId =>
    case HTMLBRElementTypeId =>
    case HTMLBodyElementTypeId =>
    case HTMLCanvasElementTypeId =>
    case HTMLDivElementTypeId =>
    case HTMLDListElementTypeId =>
    case HTMLFontElementTypeId =>
    case HTMLFormElementTypeId =>
    case HTMLHRElementTypeId =>
    case HTMLHeadElementTypeId =>
    case HTMLHtmlElementTypeId =>
    case _ =>
  }

  /** The tags `input` to `ol` each create an element of their own type id. */
  lemma {:induction false} ListedTagsInputToOl(id: ElementTypeId)
    requires id in {HTMLInputElementTypeId, HTMLLinkElementTypeId, HTMLListItemElementTypeId, HTMLMetaElementTypeId, HTMLOListElementTypeId}
    ensures CanonicalTag(id).Some? && BuildElementFromTag(CanonicalTag(id).value).typeId == id
  {
    match id
    case HTMLInputElementTypeId =>
    case HTMLLinkElementTypeId =>
    case HTMLListItemElementTypeId =>
    case HTMLMetaElementTypeId =>
    case HTMLOListElementTypeId =>
    case _ =>
  }

  /** The tags `option` to `select` each create an element of their own type id. */
  lemma {:induction false} ListedTagsOptionToSelect(id: ElementTypeId)
    requires id in {HTMLOptionElementTypeId, HTMLParagraphElementTypeId, HTMLScriptElementTypeId, HTMLSelectElementTypeId}
    ensures CanonicalTag(id).Some? && BuildElementFromTag(CanonicalTag(id).value).typeId == id
  {
    match id
    case HTMLOptionElementTypeId =>
    case HTMLParagraphElementTypeId =>
    case HTMLScriptElementTypeId =>
    case HTMLSelectElementTypeId =>
    case _ =>
  }

  /** The tags `small` to `span` each create an element of their own type id. */
  lemma {:induction false} ListedTagsSmallToSpan(id: ElementTypeId)
    requires id in {HTMLSmallElementTypeId, HTMLSourceElementTypeId, HTMLSpanElementTypeId}
    ensures CanonicalTag(id).Some? && BuildElementFromTag(CanonicalTag(id).value).typeId == id
  {
    match id
    case HTMLSmallElementTypeId =>
    case HTMLSourceElementTypeId =>
    case HTMLSpanElementTypeId =>
    case _ =>
  }

  /** The tags `style` to `td` each create an element of their own type id. */
  lemma {:induction false} ListedTagsStyleCaptionTd(id: ElementTypeId)
    requires id in {HTMLStyleElementTypeId, HTMLTableCaptionElementTypeId, HTMLTableCellElementTypeId}
    ensures CanonicalTag(id).Some? && BuildElementFromTag(CanonicalTag(id).value).typeId == id
  {
    match id
    case HTMLStyleElementTypeId =>
    case HTMLTableCaptionElementTypeId =>
    case HTMLTableCellElementTypeId =>
    case _ =>
  }

  /** The tags `table` to `textarea` each create an element of their own type id. */
  lemma {:induction false} ListedTagsTableToTextarea(id: ElementTypeId)
    requires id in {HTMLTableElementTypeId, HTMLTableSectionElementTypeId, HTMLTextAreaElementTypeId}
    ensures CanonicalTag(id).Some? && BuildElementFromTag(CanonicalTag(id).value).typeId == id
  {
    match id
    case HTMLTableElementTypeId =>
    case HTMLTableSectionElementTypeId =>
    case HTMLTextAreaElementTypeId =>
    case _ =>
  }

  /** The tags `time` to `tr` each create an element of their own type id. */
  lemma {:induction false} ListedTagsTimeToTr(id: ElementTypeId)
    requires id in {HTMLTimeElementTypeId, HTMLTitleElementTypeId, HTMLTableRowElementTypeId}
    ensures CanonicalTag(id).Some? && BuildElementFromTag(CanonicalTag(id).value).typeId == id
  {
    match id
    case HTMLTimeElementTypeId =>
    case HTMLTitleElementTypeId =>
    case HTMLTableRowElementTypeId =>
    case _ =>
  }

  /** The tags `ul` to `img` each create an element of their own type id. */
  lemma {:induction false} ListedTagsUlAndImg(id: ElementTypeId)
    requires id in {HTMLUListElementTypeId, HTMLImageElementTypeId}
    ensures CanonicalTag(id).Some? && BuildElementFromTag(CanonicalTag(id).value).typeId == id
  {
    match id
    case HTMLUListElementTypeId =>
    case HTMLImageElementTypeId =>
    case _ =>
  }

  /** The tag `iframe` creates an element of its own type id. */
  lemma {:induction false} ListedTagsIframe(id: ElementTypeId)
    requires id in {HTMLIframeElementTypeId}
    ensures CanonicalTag(id).Some? && BuildElementFromTag(CanonicalTag(id).value).typeId == id
  {
    match id
    case HTMLIframeElementTypeId =>
    case _ =>
  }

  /** `h1` to `h6` create headings of level 1 to 6. */
  lemma {:induction false} HeadingTagsHaveTheirLevel(level: HeadingLevel)
    ensures BuildElementFromTag(HeadingTag(level)) == Element(HTMLHeadingElementTypeId, HeadingTag(level), map[], Heading(level))
  {
    match level
    case Heading1 =>
    case Heading2 =>
    case Heading3 =>
    case Heading4 =>
    case Heading5 =>
    case Heading6 =>
  }

  /** `aside` and `b` create generic HTML elements. */
  lemma GenericTagsAsideAndB(tag: string)
    requires tag in {"aside", "b"}
    ensures tag in GenericHtmlTags && BuildElementFromTag(tag).typeId == HTMLElementTypeId
  {
  }

  /** `i` and `section` create generic HTML elements. */
  lemma GenericTagsIAndSection(tag: string)
    requires tag in {"i", "section"}
    ensures tag in GenericHtmlTags && BuildElementFromTag(tag).typeId == HTMLElementTypeId
  {
  }

  /** Images and iframes start with empty image, frame and size slots. */
  lemma ReplacedElementDefaults()
    ensures BuildElementFromTag("img") == Element(HTMLImageElementTypeId, "img", map[], Image(None))
    ensures BuildElementFromTag("iframe") == Element(HTMLIframeElementTypeId, "iframe", map[], IFrame(None, None))
  {
  }

  /** Matching is case-sensitive: an upper-case spelling is an unknown element that keeps its name. */
  lemma CaseSensitive()
    ensures BuildElementFromTag("DIV") == Element(UnknownElementTypeId, "DIV", map[], Plain)
    ensures BuildElementFromTag("H1").typeId == UnknownElementTypeId
  {
  }
}
