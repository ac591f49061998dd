/**
 The tree builder: the callbacks the HTML tokenizer calls to build the
 document, and the requests they send to the stylesheet listener, the
 script listener, the image cache and the parser's caller.

 Nodes live in an arena and are named by their index (a handle); a node's
 handle is the arena's length when it is created.  The builder's state is
 the arena, the next free subpage id, and every message sent so far, in
 sending order.
 */
module TreeBuilder {
  import opened Common
  import opened Dom
  import opened ElementFactory
  import opened Messages

  type Handle = nat

  /** A node with its tree links. */
  datatype Slot = Slot(node: Node, parent: Option<Handle>, children: seq<Handle>)

  /** A start tag as the tokenizer reports it: the name and the attributes in source order. */
  datatype Tag = Tag(name: string, attributes: seq<Attribute>)

  /**
   What the callbacks take from their surroundings: the document URL, which
   is the base of every reference, and the id of the page's pipeline.
   */
  datatype Context = Context(documentUrl: Url, pipelineId: PipelineId)

  datatype Builder = Builder(arena: seq<Slot>, nextSubpageId: SubpageId, sent: seq<Outbound>)

  /** Why a callback aborts the parse. */
  datatype BuildError =
    | InvalidHandle      // a handle that names no node
    | NotAnElement       // a script completed on a node that is not an element
    | NotText            // a style element with a child that is not text
    | CloneUnimplemented // the tokenizer asked for a copy of a node

  /** The base URL given to every inline stylesheet: a fixed placeholder, whatever the document. */
  const InlineStyleBase: Url := Url("http://example.com/")

  /** The tree links only name nodes of the arena. */
  predicate HandlesInRange(arena: seq<Slot>)
  {
    forall i :: 0 <= i < |arena| ==>
      && (arena[i].parent.Some? ==> arena[i].parent.value < |arena|)
      && (forall k :: 0 <= k < |arena[i].children| ==> arena[i].children[k] < |arena|)
  }

  /**
   The parent links and the child lists agree: `c` is among the children of
   `p` exactly when `p` is the parent of `c`.  So a node sits in at most one
   child list, the one of its parent.
   */
  predicate LinksAgree(arena: seq<Slot>)
  {
    && HandlesInRange(arena)
    && forall p, c :: 0 <= p < |arena| && 0 <= c < |arena| ==>
         (c in arena[p].children <==> arena[c].parent == Some(p))
  }

  // ---------------------------------------------------------------------
  // Requests made when an element is created

  /** A `<link>` asks for a stylesheet when it has both `rel` and `href` and `rel` is exactly `stylesheet`. */
  predicate LinksStylesheet(e: Element)
  {
    "rel" in e.attrs && "href" in e.attrs && e.attrs["rel"] == "stylesheet"
  }

  /** The stylesheet request of a new `<link>` element. */
  function LinkRequests(e: Element, base: Url): (r: seq<Outbound>)
    ensures |r| <= 1
    ensures r != [] <==> LinksStylesheet(e)
    ensures r != [] ==> r[0] == ToCss(CSSTaskNewFile(UrlProvenance(MakeUrl(e.attrs["href"], base))))
  {
    match (GetAttr(e, "rel"), GetAttr(e, "href"))
    case (Some(rel), Some(href)) =>
      if rel == "stylesheet" then [ToCss(CSSTaskNewFile(UrlProvenance(MakeUrl(href, base))))] else []
    case _ => []
  }

  /** An element after its creation requests, the next free subpage id, and the messages sent. */
  datatype Effects = Effects(element: Element, nextSubpageId: SubpageId, sent: seq<Outbound>)

  /** The element keeps its type, name and attributes. */
  predicate SameHeader(e: Element, f: Element)
  {
    f.typeId == e.typeId && f.tagName == e.tagName && f.attrs == e.attrs
  }

  /**
   A new `<iframe>` with a `src` takes the next subpage id, records its URL
   and size slot, and announces itself to the parser's caller with that id;
   one without `src` changes nothing.
   */
  function IFrameEffects(e: Element, ctx: Context, next: SubpageId): (r: Effects)
    ensures SameHeader(e, r.element)
    ensures r.nextSubpageId == next + (if "src" in e.attrs then 1 else 0)
    ensures FrameIds(r.sent) == Range(next, r.nextSubpageId)
    ensures "src" !in e.attrs ==> r.element == e && r.sent == []
    ensures "src" in e.attrs ==>
              && r.element.data == IFrame(Some(MakeUrl(e.attrs["src"], ctx.documentUrl)), Some(IFrameSize(ctx.pipelineId, next)))
              && r.sent == [ToDiscovery(HtmlDiscoveredIFrame(r.element.data.frame.value, next, SizeFuture(next)))]
  {
    match GetAttr(e, "src")
    case None => Effects(e, next, [])
    case Some(src) =>
      var url := MakeUrl(src, ctx.documentUrl);
      var subpageId := next;
      var size := IFrameSize(ctx.pipelineId, subpageId);
      Effects(e.(data := IFrame(Some(url), Some(size))), subpageId + 1,
              [ToDiscovery(HtmlDiscoveredIFrame(url, subpageId, SizeFuture(subpageId)))])
  }

  /**
   A new `<img>` with a `src` records the resolved URL and asks the image
   cache to prefetch exactly that URL; one without `src` changes nothing.
   */
  function ImageEffects(e: Element, base: Url): (r: (Element, seq<Outbound>))
    ensures SameHeader(e, r.0)
    ensures "src" !in e.attrs ==> r.0 == e && r.1 == []
    ensures "src" in e.attrs ==>
              && r.0.data == Image(Some(MakeUrl(e.attrs["src"], base)))
              && r.1 == [ToImageCache(Prefetch(r.0.data.image.value))]
  {
    match GetAttr(e, "src")
    case None => (e, [])
    case Some(src) =>
      var url := MakeUrl(src, base);
      (e.(data := Image(Some(url))), [ToImageCache(Prefetch(url))])
  }

  /**
   The requests a new element makes, chosen by its type: links, iframes and
   images; every other element makes none.  At most one message is sent, it
   is never a stop message, and subpage ids are consumed exactly for the
   frames announced.
   */
  function ElementEffects(e: Element, ctx: Context, next: SubpageId): (r: Effects)
    ensures SameHeader(e, r.element)
    ensures |r.sent| <= 1 && NoExit(r.sent)
    ensures next <= r.nextSubpageId
    ensures FrameIds(r.sent) == Range(next, r.nextSubpageId)
    ensures e.typeId == HTMLLinkElementTypeId ==> r == Effects(e, next, LinkRequests(e, ctx.documentUrl))
    ensures e.typeId == HTMLIframeElementTypeId ==> r == IFrameEffects(e, ctx, next)
    ensures e.typeId == HTMLImageElementTypeId ==> r == Effects(ImageEffects(e, ctx.documentUrl).0, next, ImageEffects(e, ctx.documentUrl).1)
    ensures e.typeId !in {HTMLLinkElementTypeId, HTMLIframeElementTypeId, HTMLImageElementTypeId} ==> r == Effects(e, next, [])
  {
    match e.typeId
    case HTMLLinkElementTypeId => Effects(e, next, LinkRequests(e, ctx.documentUrl))
    case HTMLIframeElementTypeId => IFrameEffects(e, ctx, next)
    case HTMLImageElementTypeId =>
      var (f, sent) := ImageEffects(e, ctx.documentUrl);
      Effects(f, next, sent)
    case _ => Effects(e, next, [])
  }

  // ---------------------------------------------------------------------
  // The callbacks

  /** Adds a node with no links and returns its handle. */
  function AddNode(b: Builder, n: Node): (r: (Builder, Handle))
    ensures r.1 == |b.arena| && r.0.arena == b.arena + [Slot(n, None, [])]
    ensures r.0.nextSubpageId == b.nextSubpageId && r.0.sent == b.sent
  {
    (b.(arena := b.arena + [Slot(n, None, [])]), |b.arena|)
  }

  /** A new node has no links, so adding one keeps the links agreeing. */
  lemma AddUnlinkedKeepsLinksAgreeing(arena: seq<Slot>, n: Node)
    requires LinksAgree(arena)
    ensures LinksAgree(arena + [Slot(n, None, [])])
  {
    var grown := arena + [Slot(n, None, [])];
    forall p, c | 0 <= p < |grown| && 0 <= c < |grown|
      ensures c in grown[p].children <==> grown[c].parent == Some(p)
    {
      if p < |arena| && c < |arena| {
        assert grown[p] == arena[p] && grown[c] == arena[c];
      } else if p < |arena| {
        assert c == |arena| && grown[p] == arena[p];
        assert c !in arena[p].children;
      }
    }
  }

  /** The element for a start tag: the factory's element for the name, with the attributes set in order. */
  function NewElement(tag: Tag): (e: Element)
    ensures e.typeId == BuildElementFromTag(tag.name).typeId && e.data == BuildElementFromTag(tag.name).data
    ensures e.tagName == tag.name
    ensures e.attrs.Keys == Names(tag.attributes)
    ensures forall k :: IsLastOfName(tag.attributes, k) ==> e.attrs[tag.attributes[k].name] == tag.attributes[k].value
  {
    SetAttrs(BuildElementFromTag(tag.name), tag.attributes)
  }

  /** Creates the element for a start tag and makes its creation requests. */
  function CreateElement(b: Builder, ctx: Context, tag: Tag): (r: (Builder, Handle))
    ensures r.1 == |b.arena| && |r.0.arena| == |b.arena| + 1 && r.0.arena[..|b.arena|] == b.arena
    ensures r.0.arena[r.1].parent == None && r.0.arena[r.1].children == []
    ensures r.0.arena[r.1].node.ElementNode? && SameHeader(NewElement(tag), r.0.arena[r.1].node.element)
    ensures r.0.arena[r.1].node == ElementNode(ElementEffects(NewElement(tag), ctx, b.nextSubpageId).element)
    ensures r.0.sent == b.sent + ElementEffects(NewElement(tag), ctx, b.nextSubpageId).sent
    ensures r.0.nextSubpageId == ElementEffects(NewElement(tag), ctx, b.nextSubpageId).nextSubpageId
  {
    var fx := ElementEffects(NewElement(tag), ctx, b.nextSubpageId);
    (Builder(b.arena + [Slot(ElementNode(fx.element), None, [])], fx.nextSubpageId, b.sent + fx.sent), |b.arena|)
  }

  /**
   Links `child` as the last child of `parent`.  Nothing else changes: no
   node's contents, no other node's children, no other node's parent.
   */
  function AppendChild(arena: seq<Slot>, parent: Handle, child: Handle): (r: Result<seq<Slot>, BuildError>)
    ensures r.Failure? <==> parent >= |arena| || child >= |arena|
    ensures r.Failure? ==> r.error == InvalidHandle
    ensures r.Success? ==>
              && |r.value| == |arena|
              && r.value[parent].children == arena[parent].children + [child]
              && r.value[child].parent == Some(parent)
              && (forall i :: 0 <= i < |arena| ==> r.value[i].node == arena[i].node)
              && (forall i :: 0 <= i < |arena| && i != parent ==> r.value[i].children == arena[i].children)
              && (forall i :: 0 <= i < |arena| && i != child ==> r.value[i].parent == arena[i].parent)
    ensures r.Success? && HandlesInRange(arena) ==> HandlesInRange(r.value)
  {
    if parent >= |arena| || child >= |arena| then Failure(InvalidHandle)
    else
      var linked := arena[parent := arena[parent].(children := arena[parent].children + [child])];
      Success(linked[child := linked[child].(parent := Some(parent))])
  }

  /**
   Appending a detached node under another node keeps the links agreeing:
   the child ends up in exactly one child list, its new parent's.
   */
  lemma AppendChildKeepsLinksAgreeing(arena: seq<Slot>, parent: Handle, child: Handle)
    requires LinksAgree(arena)
    requires parent < |arena| && child < |arena| && child != parent && arena[child].parent == None
    ensures AppendChild(arena, parent, child).Success?
    ensures LinksAgree(AppendChild(arena, parent, child).value)
  {
    var linked := AppendChild(arena, parent, child).value;
    forall p, c | 0 <= p < |linked| && 0 <= c < |linked|
      ensures c in linked[p].children <==> linked[c].parent == Some(p)
    {
      if p == parent {
        assert linked[p].children == arena[p].children + [child];
        assert c in linked[p].children <==> c in arena[p].children || c == child;
      } else {
        assert linked[p].children == arena[p].children;
      }
      if c == child {
        assert c !in arena[p].children;
      }
    }
  }

  /**
   A callback keeps the links agreeing, provided the tokenizer only appends
   a node that is detached and is not the new parent itself.
   */
  lemma StepKeepsLinksAgreeing(b: Builder, ctx: Context, ev: TreeEvent)
    requires LinksAgree(b.arena)
    requires ev.AppendChildEvent? && ev.child < |b.arena| ==> ev.child != ev.parent && b.arena[ev.child].parent == None
    requires Step(b, ctx, ev).Success?
    ensures LinksAgree(Step(b, ctx, ev).value.arena)
  {
    match ev
    case CreateCommentEvent(comment) => AddUnlinkedKeepsLinksAgreeing(b.arena, CommentNode(comment));
    case CreateDoctypeEvent(name, publicId, systemId, forceQuirks) =>
      AddUnlinkedKeepsLinksAgreeing(b.arena, DoctypeNode(name, publicId, systemId, forceQuirks));
    case CreateElementEvent(tag) =>
      var fx := ElementEffects(NewElement(tag), ctx, b.nextSubpageId);
      AddUnlinkedKeepsLinksAgreeing(b.arena, ElementNode(fx.element));
    case CreateTextEvent(text) => AddUnlinkedKeepsLinksAgreeing(b.arena, TextNode(text));
    case AppendChildEvent(parent, child) => AppendChildKeepsLinksAgreeing(b.arena, parent, child);
    case CompleteScriptEvent(_) =>
    case CompleteStyleEvent(_) =>
    case StubEvent =>
  }

  /** Every child of the list is a text node of the arena. */
  predicate AllText(arena: seq<Slot>, children: seq<Handle>)
  {
    forall k :: 0 <= k < |children| ==> children[k] < |arena| && arena[children[k]].node.TextNode?
  }

  /** The texts of the children, in child order. */
  function ChildTexts(arena: seq<Slot>, children: seq<Handle>): (r: seq<string>)
    requires AllText(arena, children)
    ensures |r| == |children|
    ensures forall k :: 0 <= k < |children| ==> r[k] == arena[children[k]].node.text
  {
    seq(|children|, k requires 0 <= k < |children| => arena[children[k]].node.text)
  }

  /**
   The text of a style element: its children's texts concatenated in child
   order.  A child that is not a text node aborts, as does a dangling handle.
   */
  function StyleText(arena: seq<Slot>, children: seq<Handle>): (r: Result<string, BuildError>)
    ensures r.Success? <==> AllText(arena, children)
    ensures r.Success? ==> r.value == Flatten(ChildTexts(arena, children))
    ensures r.Failure? ==> r.error in {InvalidHandle, NotText}
    decreases |children|
  {
    if children == [] then Success([])
    else if children[0] >= |arena| then Failure(InvalidHandle)
    else match arena[children[0]].node
      case TextNode(text) =>
        var rest := StyleText(arena, children[1..]);
        assert AllText(arena, children) <==> AllText(arena, children[1..]) by {
          assert forall k :: 0 < k < |children| ==> children[k] == children[1..][k - 1];
        }
        if rest.Success? then
          assert ChildTexts(arena, children) == [text] + ChildTexts(arena, children[1..]);
          Success(text + rest.value)
        else Failure(rest.error)
      case _ => Failure(NotText)
  }

  /**
   The gathering loop of the style callback: pushes each child's text in
   turn, then concatenates the pieces.  It computes StyleText.
   */
  method CollectStyleText(arena: seq<Slot>, children: seq<Handle>) returns (r: Result<string, BuildError>)
    ensures r == StyleText(arena, children)
  {
    var data: seq<string> := [];
    var i := 0;
    assert children[i..] == children;
    PrependEmpty(StyleText(arena, children));
    while i < |children|
      invariant 0 <= i <= |children|
      invariant StyleText(arena, children) == Prepend(Flatten(data), StyleText(arena, children[i..]))
    {
      var h := children[i];
      if h >= |arena| {
        return Failure(InvalidHandle);
      }
      match arena[h].node {
        case TextNode(text) =>
          StyleTextStep(arena, children, i, Flatten(data));
          FlattenSnoc(data, text);
          data := data + [text];
        case _ =>
          return Failure(NotText);
      }
      i := i + 1;
    }
    assert Flatten(data) + [] == Flatten(data);
    return Success(Flatten(data));
  }

  lemma PrependEmpty(r: Result<string, BuildError>)
    ensures Prepend([], r) == r
  {
    if r.Success? {
      assert [] + r.value == r.value;
    }
  }

  /** Consuming one text child moves its text from the remaining children to the gathered prefix. */
  lemma StyleTextStep(arena: seq<Slot>, children: seq<Handle>, i: nat, s: string)
    requires i < |children| && children[i] < |arena| && arena[children[i]].node.TextNode?
    ensures Prepend(s, StyleText(arena, children[i..]))
            == Prepend(s + arena[children[i]].node.text, StyleText(arena, children[i + 1..]))
  {
    assert children[i..][1..] == children[i + 1..];
    var rest := StyleText(arena, children[i + 1..]);
    if rest.Success? {
      assert s + (arena[children[i]].node.text + rest.value) == (s + arena[children[i]].node.text) + rest.value;
    }
  }

  /** Puts `s` in front of a successful text and leaves a failure alone. */
  function Prepend(s: string, r: Result<string, BuildError>): Result<string, BuildError>
  {
    match r
    case Success(t) => Success(s + t)
    case Failure(e) => Failure(e)
  }

  /**
   The end of a `<script>`: one request to the script listener when the
   element has a `src`, nothing otherwise.  A node that is not an element
   aborts.
   */
  function CompleteScript(b: Builder, ctx: Context, script: Handle): (r: Result<Builder, BuildError>)
    ensures r.Failure? <==> script >= |b.arena| || !b.arena[script].node.ElementNode?
    ensures r.Success? ==> r.value.arena == b.arena && r.value.nextSubpageId == b.nextSubpageId
    ensures r.Success? ==>
              var e := b.arena[script].node.element;
              r.value.sent == b.sent + (if "src" in e.attrs then [ToJs(JSTaskNewFile(MakeUrl(e.attrs["src"], ctx.documentUrl)))] else [])
  {
    if script >= |b.arena| then Failure(InvalidHandle)
    else match b.arena[script].node
      case ElementNode(e) =>
        (match GetAttr(e, "src")
         case Some(src) => Success(b.(sent := b.sent + [ToJs(JSTaskNewFile(MakeUrl(src, ctx.documentUrl)))]))
         case None => Success(b))
      case _ => Failure(NotAnElement)
  }

  /**
   The end of a `<style>`: one inline stylesheet, with the placeholder base,
   whose text is the children's texts in child order.
   */
  function CompleteStyle(b: Builder, style: Handle): (r: Result<Builder, BuildError>)
    ensures r.Failure? <==> style >= |b.arena| || !AllText(b.arena, b.arena[style].children)
    ensures r.Success? ==>
              && r.value.arena == b.arena && r.value.nextSubpageId == b.nextSubpageId
              && r.value.sent == b.sent + [ToCss(CSSTaskNewFile(InlineProvenance(InlineStyleBase,
                                             Flatten(ChildTexts(b.arena, b.arena[style].children)))))]
  {
    if style >= |b.arena| then Failure(InvalidHandle)
    else match StyleText(b.arena, b.arena[style].children)
      case Success(text) => Success(b.(sent := b.sent + [ToCss(CSSTaskNewFile(InlineProvenance(InlineStyleBase, text)))]))
      case Failure(e) => Failure(e)
  }

  // ---------------------------------------------------------------------
  // A run of callbacks

  /** One call from the tokenizer. */
  datatype TreeEvent =
    | CreateCommentEvent(comment: string)
    | CreateDoctypeEvent(name: string, publicId: Option<string>, systemId: Option<string>, forceQuirks: bool)
    | CreateElementEvent(tag: Tag)
    | CreateTextEvent(text: string)
    | AppendChildEvent(parent: Handle, child: Handle)
    | CompleteScriptEvent(script: Handle)
    | CompleteStyleEvent(style: Handle)
    | CloneNodeEvent(node: Handle, deep: bool)
    | StubEvent   // insert_before, remove_child, reparent_children and the others that only return a constant

  /** Handles the tokenizer's call `ev`. */
  function Step(b: Builder, ctx: Context, ev: TreeEvent): (r: Result<Builder, BuildError>)
    ensures ev.CloneNodeEvent? ==> r == Failure(CloneUnimplemented)
    ensures ev.StubEvent? ==> r == Success(b)
    ensures r.Success? ==> Extends(b, r.value)
    ensures r.Success? && HandlesInRange(b.arena) ==> HandlesInRange(r.value.arena)
  {
    match ev
    case CreateCommentEvent(comment) =>
      AddNodeExtends(b, CommentNode(comment));
      Success(AddNode(b, CommentNode(comment)).0)
    case CreateDoctypeEvent(name, publicId, systemId, forceQuirks) =>
      AddNodeExtends(b, DoctypeNode(name, publicId, systemId, forceQuirks));
      Success(AddNode(b, DoctypeNode(name, publicId, systemId, forceQuirks)).0)
    case CreateElementEvent(tag) =>
      CreateElementExtends(b, ctx, tag);
      Success(CreateElement(b, ctx, tag).0)
    case CreateTextEvent(text) =>
      AddNodeExtends(b, TextNode(text));
      Success(AddNode(b, TextNode(text)).0)
    case AppendChildEvent(parent, child) =>
      (match AppendChild(b.arena, parent, child)
       case Success(arena) =>
         AppendChildExtends(b, parent, child);
         Success(b.(arena := arena))
       case Failure(e) => Failure(e))
    case CompleteScriptEvent(script) =>
      var r := CompleteScript(b, ctx, script);
      if r.Success? then CompleteScriptExtends(b, ctx, script); r else r
    case CompleteStyleEvent(style) =>
      var r := CompleteStyle(b, style);
      if r.Success? then CompleteStyleExtends(b, style); r else r
    case CloneNodeEvent(_, _) => Failure(CloneUnimplemented)
    case StubEvent =>
      assert b.sent[|b.sent|..] == [];
      Success(b)
  }

  lemma AddNodeExtends(b: Builder, n: Node)
    ensures Extends(b, AddNode(b, n).0)
    ensures HandlesInRange(b.arena) ==> HandlesInRange(AddNode(b, n).0.arena)
  {
    assert b.sent[|b.sent|..] == [];
  }

  lemma CreateElementExtends(b: Builder, ctx: Context, tag: Tag)
    ensures Extends(b, CreateElement(b, ctx, tag).0)
    ensures HandlesInRange(b.arena) ==> HandlesInRange(CreateElement(b, ctx, tag).0.arena)
  {
    var c := CreateElement(b, ctx, tag).0;
    assert c.sent[|b.sent|..] == ElementEffects(NewElement(tag), ctx, b.nextSubpageId).sent;
    assert forall i :: 0 <= i < |b.arena| ==> c.arena[i] == b.arena[i];
  }

  lemma AppendChildExtends(b: Builder, parent: Handle, child: Handle)
    requires AppendChild(b.arena, parent, child).Success?
    ensures Extends(b, b.(arena := AppendChild(b.arena, parent, child).value))
  {
    assert b.sent[|b.sent|..] == [];
  }

  lemma CompleteScriptExtends(b: Builder, ctx: Context, script: Handle)
    requires CompleteScript(b, ctx, script).Success?
    ensures Extends(b, CompleteScript(b, ctx, script).value)
  {
    var c := CompleteScript(b, ctx, script).value;
    assert c.sent[|b.sent|..] == c.sent[|b.sent|..|c.sent|];
  }

  lemma CompleteStyleExtends(b: Builder, style: Handle)
    requires CompleteStyle(b, style).Success?
    ensures Extends(b, CompleteStyle(b, style).value)
  {
    var c := CompleteStyle(b, style).value;
    assert c.sent[|b.sent|..] == c.sent[|b.sent|..|c.sent|];
  }

  /**
   `c` is a later state of the builder than `b`: nodes are only added,
   existing nodes keep their contents, child lists only grow at the end,
   messages are only appended, none of the new ones is a stop message, and
   the frames announced since `b` carry the subpage ids consumed since `b`,
   in order.
   */
  ghost predicate Extends(b: Builder, c: Builder)
  {
    && |b.arena| <= |c.arena|
    && (forall i :: 0 <= i < |b.arena| ==> c.arena[i].node == b.arena[i].node)
    && (forall i :: 0 <= i < |b.arena| ==> b.arena[i].children <= c.arena[i].children)
    && b.sent <= c.sent
    && NoExit(c.sent[|b.sent|..])
    && b.nextSubpageId <= c.nextSubpageId
    && FrameIds(c.sent[|b.sent|..]) == Range(b.nextSubpageId, c.nextSubpageId)
  }

  lemma {:induction false} RangeAppend(lo: nat, mid: nat, hi: nat)
    requires lo <= mid <= hi
    ensures Range(lo, mid) + Range(mid, hi) == Range(lo, hi)
  {
  }

  /** Being a later state is transitive. */
  lemma ExtendsTransitive(a: Builder, b: Builder, c: Builder)
    requires Extends(a, b) && Extends(b, c)
    ensures Extends(a, c)
  {
    assert c.sent[|a.sent|..] == b.sent[|a.sent|..] + c.sent[|b.sent|..];
    FrameIdsOfAppend(b.sent[|a.sent|..], c.sent[|b.sent|..]);
    RangeAppend(a.nextSubpageId, b.nextSubpageId, c.nextSubpageId);
    forall i | 0 <= i < |a.arena|
      ensures a.arena[i].children <= c.arena[i].children
    {
      assert a.arena[i].children <= b.arena[i].children;
    }
  }

  /** Handles the calls in order, stopping at the first that aborts. */
  function Run(b: Builder, ctx: Context, events: seq<TreeEvent>): (r: Result<Builder, BuildError>)
    ensures r.Success? ==> Extends(b, r.value)
    ensures r.Success? && HandlesInRange(b.arena) ==> HandlesInRange(r.value.arena)
    ensures r.Success? ==> forall k :: 0 <= k < |events| ==> !events[k].CloneNodeEvent?
    decreases |events|
  {
    if events == [] then
      assert b.sent[|b.sent|..] == [];
      Success(b)
    else match Step(b, ctx, events[0])
      case Failure(e) => Failure(e)
      case Success(b1) =>
        var r := Run(b1, ctx, events[1..]);
        if r.Success? then
          ExtendsTransitive(b, b1, r.value);
          assert forall k :: 0 < k < |events| ==> events[k] == events[1..][k - 1];
          r
        else r
  }
}
