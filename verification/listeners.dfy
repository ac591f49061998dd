/**
 The two helper listeners of the HTML parser and the script fetch worker,
 as functions of the messages they receive.

 Each listener collects requests until its stop message and only then
 reports, in request order.  A listener whose stop message never arrives
 reports nothing; the script listener also reports nothing while one of its
 fetches is still waiting for the end of its load.
 */
module Listeners {
  import opened Common
  import opened Messages

  // ---------------------------------------------------------------------
  // Stylesheets

  /** The stylesheet listener's first stop message is at position `k`. */
  ghost predicate CssExitAt(msgs: seq<CSSMessage>, k: int)
  {
    && 0 <= k < |msgs|
    && msgs[k] == CSSTaskExit
    && forall i :: 0 <= i < k ==> msgs[i].CSSTaskNewFile?
  }

  /** What the listener reports for a stylesheet request. */
  function Style(p: StylesheetProvenance): HtmlDiscoveryMessage
  {
    HtmlDiscoveredStyle(ParsedStylesheet(p))
  }

  /** Reports the parsed sheets, one per pending request, in request order. */
  function Drain(pending: seq<StylesheetProvenance>): (out: seq<HtmlDiscoveryMessage>)
    ensures |out| == |pending|
    ensures forall i :: 0 <= i < |pending| ==> out[i] == Style(pending[i])
    decreases |pending|
  {
    if pending == [] then [] else [Style(pending[0])] + Drain(pending[1..])
  }

  /**
   The listener loop with the requests received so far: a request is queued,
   the stop message drains the queue, and without a stop message nothing is
   reported.
   */
  function CssListen(msgs: seq<CSSMessage>, pending: seq<StylesheetProvenance>): (out: seq<HtmlDiscoveryMessage>)
    ensures (forall i :: 0 <= i < |msgs| ==> msgs[i].CSSTaskNewFile?) ==> out == []
    ensures forall k :: CssExitAt(msgs, k) ==>
              && |out| == |pending| + k
              && (forall i :: 0 <= i < |pending| ==> out[i] == Style(pending[i]))
              && (forall i :: 0 <= i < k ==> out[|pending| + i] == Style(msgs[i].provenance))
    decreases |msgs|
  {
    if msgs == [] then []
    else match msgs[0]
      case CSSTaskExit =>
        assert forall k :: CssExitAt(msgs, k) ==> k == 0;
        Drain(pending)
      case CSSTaskNewFile(p) =>
        assert forall k :: CssExitAt(msgs, k) ==> k > 0 && CssExitAt(msgs[1..], k - 1);
        CssListen(msgs[1..], pending + [p])
  }

  /**
   The stylesheet listener: nothing before the stop message; after it, one
   parsed sheet per request received before it, in the order received.
   */
  function CssLinkListener(msgs: seq<CSSMessage>): (out: seq<HtmlDiscoveryMessage>)
    ensures (forall i :: 0 <= i < |msgs| ==> msgs[i].CSSTaskNewFile?) ==> out == []
    ensures forall k :: CssExitAt(msgs, k) ==>
              |out| == k && forall i :: 0 <= i < k ==> out[i] == Style(msgs[i].provenance)
  {
    CssListen(msgs, [])
  }

  // ---------------------------------------------------------------------
  // Scripts

  /** What a fetch worker reports: the script or `None` once its load ends, or nothing yet. */
  datatype FetchOutcome = Fetched(script: Option<Bytes>) | Waiting

  /**
   The fetch worker of one script: the payload chunks in arrival order make
   up the script if the load ends well; a failed load yields `None`.
   */
  function ScriptWorker(stream: seq<LoadProgress>): (r: FetchOutcome)
    ensures forall k :: DoneAt(stream, k) ==>
              r == Fetched(if stream[k].ok then Some(Flatten(PayloadsBefore(stream, k))) else None)
    ensures (forall i :: 0 <= i < |stream| ==> stream[i].Payload?) ==> r == Waiting
  {
    match ReadResponse(stream)
    case Complete(chunks, ok) => Fetched(if ok then Some(Flatten(chunks)) else None)
    case Incomplete(_) => Waiting
  }

  /**
   The worker's receive loop: appends each payload to a buffer and stops at
   the first completion signal.  It computes ScriptWorker.
   */
  method FetchScript(stream: seq<LoadProgress>) returns (r: FetchOutcome)
    ensures r == ScriptWorker(stream)
  {
    var buf: Bytes := [];
    var i := 0;
    while i < |stream|
      invariant 0 <= i <= |stream|
      invariant forall j :: 0 <= j < i ==> stream[j].Payload?
      invariant buf == Flatten(PayloadsBefore(stream, i))
    {
      match stream[i] {
        case Payload(data) =>
          assert PayloadsBefore(stream, i + 1) == PayloadsBefore(stream, i) + [data];
          FlattenSnoc(PayloadsBefore(stream, i), data);
          buf := buf + data;
        case Done(ok) =>
          assert DoneAt(stream, i);
          return Fetched(if ok then Some(buf) else None);
      }
      i := i + 1;
    }
    return Waiting;
  }

  /** The number of present values. */
  function CountSome<T>(xs: seq<Option<T>>): nat
    decreases |xs|
  {
    if xs == [] then 0 else (if xs[0].Some? then 1 else 0) + CountSome(xs[1..])
  }

  /** The present values, in order; absent ones leave no trace. */
  function FilterSome<T(!new)>(xs: seq<Option<T>>): (r: seq<T>)
    ensures |r| == CountSome(xs) <= |xs|
    ensures forall x :: x in r <==> Some(x) in xs
    decreases |xs|
  {
    if xs == [] then []
    else
      var rest := FilterSome(xs[1..]);
      assert forall x :: Some(x) in xs <==> Some(x) == xs[0] || Some(x) in xs[1..];
      if xs[0].Some? then [xs[0].value] + rest else rest
  }

  lemma {:induction false} CountSomeSnoc<T>(xs: seq<Option<T>>, x: Option<T>)
    ensures CountSome(xs + [x]) == CountSome(xs) + (if x.Some? then 1 else 0)
    decreases |xs|
  {
    if xs == [] {
      assert [] + [x] == [x];
      assert [x][1..] == [];
    } else {
      assert (xs + [x])[0] == xs[0];
      assert (xs + [x])[1..] == xs[1..] + [x];
      CountSomeSnoc(xs[1..], x);
    }
  }

  /**
   FilterSome keeps order: the present value at position `i` lands at
   position "number of present values before `i`", so present values keep
   their relative order and nothing is placed for an absent one.
   */
  lemma {:induction false} FilterSomeKeepsOrder<T(!new)>(xs: seq<Option<T>>, i: nat)
    requires i < |xs| && xs[i].Some?
    ensures CountSome(xs[..i]) < |FilterSome(xs)|
    ensures FilterSome(xs)[CountSome(xs[..i])] == xs[i].value
    decreases i
  {
    if i == 0 {
      assert xs[..0] == [];
    } else {
      FilterSomeKeepsOrder(xs[1..], i - 1);
      assert xs[1..][..i - 1] == xs[..i][1..];
      assert xs[..i][0] == xs[0];
    }
  }

  /** Between two present values, the earlier keeps the smaller position. */
  lemma {:induction false} CountSomeMonotone<T>(xs: seq<Option<T>>, i: nat, j: nat)
    requires i < j <= |xs| && xs[i].Some?
    ensures CountSome(xs[..i]) < CountSome(xs[..j])
    decreases j - i
  {
    CountSomeSnoc(xs[..j - 1], xs[j - 1]);
    assert xs[..j - 1] + [xs[j - 1]] == xs[..j];
    if i < j - 1 {
      CountSomeMonotone(xs, i, j - 1);
    }
  }

  /** A failed fetch takes no place in the output: one success and one failure give one script. */
  lemma FailedFetchesAreDropped(a: Bytes, c: Bytes)
    ensures FilterSome([Some(a), None, Some(c)]) == [a, c]
  {
    assert [Some(a), None, Some(c)][1..] == [None, Some(c)];
    assert [None, Some(c)][1..] == [Some(c)];
  }

  /** The script listener's first stop message is at position `k`. */
  ghost predicate JsExitAt(msgs: seq<JSMessage>, k: int)
  {
    && 0 <= k < |msgs|
    && msgs[k] == JSTaskExit
    && forall i :: 0 <= i < k ==> msgs[i].JSTaskNewFile?
  }

  /** The outcomes of the fetches started for `urls`, in request order. */
  function Outcomes(urls: seq<Url>, load: Url -> seq<LoadProgress>): (r: seq<FetchOutcome>)
    ensures |r| == |urls|
    ensures forall i :: 0 <= i < |urls| ==> r[i] == ScriptWorker(load(urls[i]))
    decreases |urls|
  {
    if urls == [] then [] else [ScriptWorker(load(urls[0]))] + Outcomes(urls[1..], load)
  }

  /** The scripts of finished fetches: the fetched ones, or `None` for failures. */
  function Results(outcomes: seq<FetchOutcome>): (r: seq<Option<Bytes>>)
    requires forall i :: 0 <= i < |outcomes| ==> outcomes[i].Fetched?
    ensures |r| == |outcomes|
    ensures forall i :: 0 <= i < |outcomes| ==> r[i] == outcomes[i].script
  {
    seq(|outcomes|, i requires 0 <= i < |outcomes| => outcomes[i].script)
  }

  /** The URLs requested by `msgs`, in request order. */
  function RequestedUrls(msgs: seq<JSMessage>): (r: seq<Url>)
    ensures |r| <= |msgs|
    ensures (forall i :: 0 <= i < |msgs| ==> msgs[i].JSTaskNewFile?) ==>
              |r| == |msgs| && forall i :: 0 <= i < |msgs| ==> r[i] == msgs[i].url
    decreases |msgs|
  {
    if msgs == [] then []
    else (if msgs[0].JSTaskNewFile? then [msgs[0].url] else []) + RequestedUrls(msgs[1..])
  }

  /** Every fetch has ended. */
  predicate AllFetched(outcomes: seq<FetchOutcome>)
  {
    forall i :: 0 <= i < |outcomes| ==> outcomes[i].Fetched?
  }

  /** What the listener reports once it has stopped with the requests `urls`. */
  function Report(urls: seq<Url>, load: Url -> seq<LoadProgress>): (r: Option<HtmlDiscoveryMessage>)
    ensures r.Some? <==> AllFetched(Outcomes(urls, load))
    ensures r.Some? ==> r.value.HtmlDiscoveredScript? && |r.value.scripts| <= |urls|
    ensures r.Some? ==> forall s :: s in r.value.scripts <==>
              exists i :: 0 <= i < |urls| && ScriptWorker(load(urls[i])) == Fetched(Some(s))
    ensures r.Some? ==> r.value.scripts == FilterSome(Results(Outcomes(urls, load)))
  {
    var outcomes := Outcomes(urls, load);
    if AllFetched(outcomes) then
      var results := Results(outcomes);
      assert forall s :: Some(s) in results <==>
               exists i :: 0 <= i < |urls| && ScriptWorker(load(urls[i])) == Fetched(Some(s));
      Some(HtmlDiscoveredScript(FilterSome(results)))
    else None
  }

  /**
   The reported scripts are in request order: when the fetches for the
   `i`-th and the `j`-th request, `i < j`, both succeed, their scripts are
   reported at positions `pi < pj`, where `pi` counts the successful fetches
   before request `i`.
   */
  lemma ScriptsInRequestOrder(urls: seq<Url>, load: Url -> seq<LoadProgress>, i: nat, j: nat)
    requires AllFetched(Outcomes(urls, load))
    requires i < j < |urls| && Outcomes(urls, load)[i].script.Some? && Outcomes(urls, load)[j].script.Some?
    ensures Report(urls, load).Some?
    ensures var outcomes := Outcomes(urls, load);
            var results := Results(outcomes);
            var scripts := Report(urls, load).value.scripts;
            var pi, pj := CountSome(results[..i]), CountSome(results[..j]);
            && pi < pj < |scripts|
            && scripts[pi] == outcomes[i].script.value && scripts[pj] == outcomes[j].script.value
  {
    var results := Results(Outcomes(urls, load));
    FilterSomeKeepsOrder(results, i);
    FilterSomeKeepsOrder(results, j);
    CountSomeMonotone(results, i, j);
  }

  /** Moving the first request of `msgs[..k]` to the end of the URLs seen so far. */
  lemma RequestedAfterFirst(msgs: seq<JSMessage>, urls: seq<Url>, k: nat)
    requires 0 < k <= |msgs| && msgs[0].JSTaskNewFile?
    ensures (urls + [msgs[0].url]) + RequestedUrls(msgs[1..][..k - 1]) == urls + RequestedUrls(msgs[..k])
  {
    assert msgs[..k][0] == msgs[0];
    assert msgs[..k][1..] == msgs[1..][..k - 1];
  }

  /**
   The script listener loop with the URLs requested so far: after the stop
   message it waits for every fetch in request order and reports the
   fetched scripts in one message, leaving out the failed ones.
   */
  function JsListen(msgs: seq<JSMessage>, urls: seq<Url>, load: Url -> seq<LoadProgress>): (r: Option<HtmlDiscoveryMessage>)
    ensures (forall i :: 0 <= i < |msgs| ==> msgs[i].JSTaskNewFile?) ==> r == None
    ensures forall k :: JsExitAt(msgs, k) ==> r == Report(urls + RequestedUrls(msgs[..k]), load)
    decreases |msgs|
  {
    if msgs == [] then None
    else match msgs[0]
      case JSTaskExit =>
        assert forall k :: JsExitAt(msgs, k) ==> k == 0;
        assert urls + RequestedUrls(msgs[..0]) == urls;
        Report(urls, load)
      case JSTaskNewFile(url) =>
        var r := JsListen(msgs[1..], urls + [url], load);
        forall k | JsExitAt(msgs, k)
          ensures r == Report(urls + RequestedUrls(msgs[..k]), load)
        {
          assert JsExitAt(msgs[1..], k - 1);
          RequestedAfterFirst(msgs, urls, k);
        }
        r
  }

  /**
   The script listener: nothing without a stop message or while a fetch is
   waiting; otherwise one message holding the fetched scripts of the
   requests received before the stop message, in request order, with the
   failed fetches left out.
   */
  function JsScriptListener(msgs: seq<JSMessage>, load: Url -> seq<LoadProgress>): (r: Option<HtmlDiscoveryMessage>)
    ensures (forall i :: 0 <= i < |msgs| ==> msgs[i].JSTaskNewFile?) ==> r == None
    ensures forall k :: JsExitAt(msgs, k) ==> r == Report(RequestedUrls(msgs[..k]), load)
  {
    assert forall k :: 0 <= k <= |msgs| ==> [] + RequestedUrls(msgs[..k]) == RequestedUrls(msgs[..k]);
    JsListen(msgs, [], load)
  }
}
