/**
 The messages the HTML parser exchanges with its helper listeners, with the
 page that asked for the parse, and with the image cache.
 */
module Messages {
  import opened Common
  import opened Dom

  /** Where a stylesheet comes from: a linked URL, or the text of a `<style>` element with its base URL. */
  datatype StylesheetProvenance =
    | UrlProvenance(url: Url)
    | InlineProvenance(base: Url, data: string)

  /**
   A parsed stylesheet.  CSS fetching and parsing are not modelled: the sheet
   stands for the result of parsing the given source.
   */
  datatype Stylesheet = ParsedStylesheet(source: StylesheetProvenance)

  /** Requests to the stylesheet listener. */
  datatype CSSMessage = CSSTaskNewFile(provenance: StylesheetProvenance) | CSSTaskExit

  /** Requests to the script listener. */
  datatype JSMessage = JSTaskNewFile(url: Url) | JSTaskExit

  /**
   The receiving end of the one-shot channel on which a nested frame reports
   its size.  It is identified by the subpage id of the frame that holds the
   sending end.
   */
  datatype SizeFuture = SizeFuture(subpageId: SubpageId)

  /** What the parser reports to its caller about resources it found. */
  datatype HtmlDiscoveryMessage =
    | HtmlDiscoveredStyle(sheet: Stylesheet)
    | HtmlDiscoveredIFrame(url: Url, subpageId: SubpageId, size: SizeFuture)
    | HtmlDiscoveredScript(scripts: seq<Bytes>)

  /** The one request the tree builder makes of the image cache. */
  datatype ImageCacheMsg = Prefetch(url: Url)

  /** A message the tree builder sends, tagged with the channel it goes to. */
  datatype Outbound =
    | ToCss(css: CSSMessage)
    | ToJs(js: JSMessage)
    | ToDiscovery(discovery: HtmlDiscoveryMessage)
    | ToImageCache(image: ImageCacheMsg)

  /** The messages of `sent` that went to the stylesheet listener, in sending order. */
  function CssMessages(sent: seq<Outbound>): (r: seq<CSSMessage>)
    ensures |r| <= |sent|
    ensures forall m :: m in r <==> ToCss(m) in sent
    decreases |sent|
  {
    if sent == [] then []
    else (if sent[0].ToCss? then [sent[0].css] else []) + CssMessages(sent[1..])
  }

  /** The messages of `sent` that went to the script listener, in sending order. */
  function JsMessages(sent: seq<Outbound>): (r: seq<JSMessage>)
    ensures |r| <= |sent|
    ensures forall m :: m in r <==> ToJs(m) in sent
    decreases |sent|
  {
    if sent == [] then []
    else (if sent[0].ToJs? then [sent[0].js] else []) + JsMessages(sent[1..])
  }

  /** The messages of `sent` that went straight to the parser's caller, in sending order. */
  function Discoveries(sent: seq<Outbound>): (r: seq<HtmlDiscoveryMessage>)
    ensures |r| <= |sent|
    ensures forall m :: m in r <==> ToDiscovery(m) in sent
    decreases |sent|
  {
    if sent == [] then []
    else (if sent[0].ToDiscovery? then [sent[0].discovery] else []) + Discoveries(sent[1..])
  }

  /** The subpage ids of the nested frames announced in `sent`, in announcement order. */
  function FrameIds(sent: seq<Outbound>): seq<SubpageId>
    decreases |sent|
  {
    if sent == [] then []
    else
      (if sent[0].ToDiscovery? && sent[0].discovery.HtmlDiscoveredIFrame? then [sent[0].discovery.subpageId] else [])
      + FrameIds(sent[1..])
  }

  /** Each channel projection distributes over concatenation. */
  lemma {:induction false} CssMessagesOfAppend(a: seq<Outbound>, b: seq<Outbound>)
    ensures CssMessages(a + b) == CssMessages(a) + CssMessages(b)
    decreases |a|
  {
    if a == [] {
      assert a + b == b;
    } else {
      assert (a + b)[0] == a[0];
      assert (a + b)[1..] == a[1..] + b;
      CssMessagesOfAppend(a[1..], b);
    }
  }

  lemma {:induction false} JsMessagesOfAppend(a: seq<Outbound>, b: seq<Outbound>)
    ensures JsMessages(a + b) == JsMessages(a) + JsMessages(b)
    decreases |a|
  {
    if a == [] {
      assert a + b == b;
    } else {
      assert (a + b)[0] == a[0];
      assert (a + b)[1..] == a[1..] + b;
      JsMessagesOfAppend(a[1..], b);
    }
  }

  lemma {:induction false} DiscoveriesOfAppend(a: seq<Outbound>, b: seq<Outbound>)
    ensures Discoveries(a + b) == Discoveries(a) + Discoveries(b)
    decreases |a|
  {
    if a == [] {
      assert a + b == b;
    } else {
      assert (a + b)[0] == a[0];
      assert (a + b)[1..] == a[1..] + b;
      DiscoveriesOfAppend(a[1..], b);
    }
  }

  lemma {:induction false} FrameIdsOfAppend(a: seq<Outbound>, b: seq<Outbound>)
    ensures FrameIds(a + b) == FrameIds(a) + FrameIds(b)
    decreases |a|
  {
    if a == [] {
      assert a + b == b;
    } else {
      assert (a + b)[0] == a[0];
      assert (a + b)[1..] == a[1..] + b;
      FrameIdsOfAppend(a[1..], b);
    }
  }

  /** No message of `sent` tells a listener to stop. */
  predicate NoExit(sent: seq<Outbound>)
  {
    forall i :: 0 <= i < |sent| ==> sent[i] != ToCss(CSSTaskExit) && sent[i] != ToJs(JSTaskExit)
  }

  /** `lo, lo + 1, ..., hi - 1`. */
  function Range(lo: nat, hi: nat): (r: seq<nat>)
    requires lo <= hi
    ensures |r| == hi - lo
    ensures forall i :: 0 <= i < |r| ==> r[i] == lo + i
    decreases hi - lo
  {
    if lo == hi then [] else [lo] + Range(lo + 1, hi)
  }
}
