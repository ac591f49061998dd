/**
 The parser's entry point: loads the page, feeds the payload chunks to the
 tokenizer, which drives the tree builder, and once the page has loaded
 tells both listeners to stop.

 The tokenizer is a parameter: given the chunks in arrival order, it yields
 the calls it makes on the tree builder.  The resource loader is a parameter
 too: given a URL, it yields the messages of that load.  The caller receives
 three kinds of discovery messages, each from its own sender, and the
 senders run concurrently; they are reported here per sender, each in its
 own sending order.
 */
module HtmlParser {
  import opened Common
  import opened Dom
  import opened ElementFactory
  import opened Messages
  import opened TreeBuilder
  import opened Listeners

  /** Why the parse does not produce a document. */
  datatype ParseError =
    | PageLoadFailed                    // the page load ended with an error
    | PageLoadIncomplete                // the page load never ended: the parser waits forever
    | TreeBuildFailed(error: BuildError) // a tree builder callback aborted

  /** The document and the discovery messages the caller receives, by sender. */
  datatype HtmlParserResult = HtmlParserResult(
    root: Handle,
    document: Builder,
    frames: seq<HtmlDiscoveryMessage>,     // from the tree builder
    styles: seq<HtmlDiscoveryMessage>,     // from the stylesheet listener
    scripts: Option<HtmlDiscoveryMessage>) // from the script listener

  /** The document element the tree is built under. */
  const RootElement: Element := Element(HTMLHtmlElementTypeId, "html", map[], Plain)

  /** The builder before the first callback: only the root, and nothing sent. */
  function InitialBuilder(nextSubpageId: SubpageId): (b: Builder)
    ensures |b.arena| == 1 && b.arena[0] == Slot(ElementNode(BuildElementFromTag("html")), None, [])
    ensures b.sent == [] && b.nextSubpageId == nextSubpageId
    ensures LinksAgree(b.arena)
  {
    Builder([Slot(ElementNode(RootElement), None, [])], nextSubpageId, [])
  }

  /** The stop messages, sent once the page has loaded. */
  const StopListeners: seq<Outbound> := [ToCss(CSSTaskExit), ToJs(JSTaskExit)]

  /**
   What the listeners see and report once the tree is built and both stop
   messages have been sent.
   */
  function Finish(b: Builder, load: Url -> seq<LoadProgress>): (r: HtmlParserResult)
    requires NoExit(b.sent)
    ensures r.root == 0 && r.document == b.(sent := b.sent + StopListeners)
    ensures r.frames == Discoveries(b.sent)
    ensures var css := CssMessages(b.sent);
            && |r.styles| == |css|
            && forall i :: 0 <= i < |css| ==> css[i].CSSTaskNewFile? && r.styles[i] == Style(css[i].provenance)
    ensures r.scripts == Report(RequestedUrls(JsMessages(b.sent)), load)
  {
    var sent := b.sent + StopListeners;
    var css, js := CssMessages(b.sent), JsMessages(b.sent);
    StylesheetRequestsThenStop(b.sent);
    ScriptRequestsThenStop(b.sent);
    DiscoveriesOfAppend(b.sent, StopListeners);
    assert Discoveries(StopListeners) == [];
    var styles := CssLinkListener(CssMessages(sent));
    assert forall i :: 0 <= i < |css| ==> CssMessages(sent)[i] == css[i];
    var scripts := JsScriptListener(JsMessages(sent), load);
    assert scripts == Report(RequestedUrls(js), load);
    HtmlParserResult(0, b.(sent := sent), Discoveries(sent), styles, scripts)
  }

  /** After requests with no stop message, the stylesheet listener's first stop message is the one sent last. */
  lemma StylesheetRequestsThenStop(sent: seq<Outbound>)
    requires NoExit(sent)
    ensures CssMessages(sent + StopListeners) == CssMessages(sent) + [CSSTaskExit]
    ensures CssExitAt(CssMessages(sent + StopListeners), |CssMessages(sent)|)
  {
    CssMessagesOfAppend(sent, StopListeners);
    assert CssMessages(StopListeners) == [CSSTaskExit];
    var css := CssMessages(sent);
    assert CSSTaskExit !in css;
    forall i | 0 <= i < |css|
      ensures (css + [CSSTaskExit])[i].CSSTaskNewFile?
    {
      assert (css + [CSSTaskExit])[i] == css[i] && css[i] in css;
    }
  }

  /** After requests with no stop message, the script listener's first stop message is the one sent last. */
  lemma ScriptRequestsThenStop(sent: seq<Outbound>)
    requires NoExit(sent)
    ensures JsMessages(sent + StopListeners) == JsMessages(sent) + [JSTaskExit]
    ensures JsExitAt(JsMessages(sent + StopListeners), |JsMessages(sent)|)
    ensures JsMessages(sent + StopListeners)[..|JsMessages(sent)|] == JsMessages(sent)
  {
    JsMessagesOfAppend(sent, StopListeners);
    assert JsMessages(StopListeners) == [JSTaskExit];
    var js := JsMessages(sent);
    assert JSTaskExit !in js;
    forall i | 0 <= i < |js|
      ensures (js + [JSTaskExit])[i].JSTaskNewFile?
    {
      assert (js + [JSTaskExit])[i] == js[i] && js[i] in js;
    }
    assert (js + [JSTaskExit])[..|js|] == js;
  }

  /**
   Parses the page at `url`.  The load's payload chunks are fed in arrival
   order; a load that ends with an error aborts the parse, and the listeners
   are told to stop only after the load has ended well.
   */
  function ParseHtml(url: Url, load: Url -> seq<LoadProgress>, tokenize: seq<Bytes> -> seq<TreeEvent>,
                     pipelineId: PipelineId, nextSubpageId: SubpageId): (r: Result<HtmlParserResult, ParseError>)
    ensures forall k :: DoneAt(load(url), k) && !load(url)[k].ok ==> r == Failure(PageLoadFailed)
    ensures (forall i :: 0 <= i < |load(url)| ==> load(url)[i].Payload?) ==> r == Failure(PageLoadIncomplete)
    ensures forall k :: DoneAt(load(url), k) && load(url)[k].ok ==>
              var events := tokenize(PayloadsBefore(load(url), k));
              var built := Run(InitialBuilder(nextSubpageId), Context(url, pipelineId), events);
              && (r.Success? <==> built.Success?)
              && (built.Failure? ==> r == Failure(TreeBuildFailed(built.error)))
              && (built.Success? ==> r == Success(Finish(built.value, load)))
    ensures r.Success? ==> ParsedDocument(r.value, nextSubpageId)
  {
    match ReadResponse(load(url))
    case Incomplete(_) => Failure(PageLoadIncomplete)
    case Complete(chunks, ok) =>
      if !ok then Failure(PageLoadFailed)
      else
        var b0 := InitialBuilder(nextSubpageId);
        match Run(b0, Context(url, pipelineId), tokenize(chunks))
        case Failure(e) => Failure(TreeBuildFailed(e))
        case Success(b) =>
          assert b.sent == b.sent[|b0.sent|..];
          FinishedDocument(b0, b, load);
          Success(Finish(b, load))
  }

  /**
   A parse result's document: the root element at handle 0, tree links that
   name nodes of the document, the two stop messages last and no stop
   message before them, and the frames announced with consecutive subpage
   ids from the first free one.
   */
  ghost predicate ParsedDocument(r: HtmlParserResult, firstSubpageId: SubpageId)
  {
    var sent := r.document.sent;
    && r.root == 0 && 0 < |r.document.arena|
    && r.document.arena[0].node == ElementNode(RootElement)
    && HandlesInRange(r.document.arena)
    && |sent| >= 2 && sent[|sent| - 2..] == StopListeners && NoExit(sent[..|sent| - 2])
    && firstSubpageId <= r.document.nextSubpageId
    && FrameIds(sent) == Range(firstSubpageId, r.document.nextSubpageId)
  }

  lemma FinishedDocument(b0: Builder, b: Builder, load: Url -> seq<LoadProgress>)
    requires b0 == InitialBuilder(b0.nextSubpageId)
    requires Extends(b0, b) && HandlesInRange(b.arena)
    ensures NoExit(b.sent)
    ensures ParsedDocument(Finish(b, load), b0.nextSubpageId)
  {
    assert b.sent[|b0.sent|..] == b.sent;
    var sent := b.sent + StopListeners;
    assert sent[..|sent| - 2] == b.sent;
    assert sent[|sent| - 2..] == StopListeners;
    FrameIdsOfAppend(b.sent, StopListeners);
    assert FrameIds(StopListeners) == [];
  }
}
