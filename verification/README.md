# Servo's tiny Bloom filter and HTML tree builder, in Dafny

This project models two pieces of Servo's early code base and proves properties of them.

1. **`TinyBloomFilter`** (`src/components/util/tiny_bloom.rs`) is a one-word Bloom filter.
   - A 32-bit set records 64-bit hashes.
   - Each hash sets two bit positions: its low five bits, and the five bits above them.
   - Probing a hash answers "possibly included" when both of its positions are set.
   - The model is module `TinyBloom`. It is pure `bv32`/`bv64` arithmetic, with the hash function as a parameter.

2. **The decision logic of the hubbub HTML parser glue** (`src/components/script/html/hubbub_html_parser.rs`). Tasks, channels and the tokenizer's foreign interface are all taken out. The logic is split across six modules:
   - `ElementFactory` is the tag-to-element factory (`build_element_from_tag`).
   - `TreeBuilder` holds the tree-builder callbacks the tokenizer calls. They create nodes, link children, and complete scripts and styles. Creating an element also sends the requests it implies: a stylesheet for `<link>`, a subpage and a discovery message for `<iframe>`, and a prefetch for `<img>`.
   - `Listeners` holds the stylesheet listener, the script listener, and the per-script fetch worker. Each is a function over the messages it receives.
   - `HtmlParser` holds `parse_html`. It reads the page load, feeds the payload chunks to the tokenizer, runs the callbacks, and sends the two stop messages.
   - `Common`, `Dom` and `Messages` hold the shared value types: URLs, load messages, elements, attributes, and the channel messages.

Modelling choices:
- Nodes live in an arena and are named by integer handles.
- The builder records every message it sends, in order, tagged with its channel.
- Each listener is a function of that channel's messages, in sending order.
- The tokenizer is a parameter: the callbacks it makes for the page's chunks.
- The resource loader is a parameter: the message stream of a load, per URL.
- URL resolution (`make_url`) is the symbolic term `Resolved(reference, base)`.
- A parsed stylesheet stands for the parse of its provenance.

## Model

| member | source | states |
|---|---|---|
| TinyBloom.New | src/components/util/tiny_bloom.rs:14-18 | A new filter has no bit set. |
| TinyBloom.Clear | src/components/util/tiny_bloom.rs:59-61 | Clearing leaves no bit set, and the result equals a new filter. |
| TinyBloom.ProbeSequence | src/components/util/tiny_bloom.rs:20-24 | The probe sequence has exactly two offsets, both in 0..31. They are `hash % 32` and `(hash / 32) % 32`. |
| TinyBloom.SetOneBit | src/components/util/tiny_bloom.rs:28 | `bits \| 1 << off` sets bit `off`, keeps every other bit as it was, and clears nothing. |
| TinyBloom.SetBits | src/components/util/tiny_bloom.rs:26-30 | The insertion loop sets a bit exactly when it was already set or is one of the offsets. Old bits are never cleared. |
| TinyBloom.AllBitsSet | src/components/util/tiny_bloom.rs:33-41 | The `ret &= ...` loop is true exactly when every probed bit is 1. |
| TinyBloom.InsertHashed | src/components/util/tiny_bloom.rs:26-30 | After inserting `hash`, bit `i` is set iff it was set before or `i` is one of the two probe positions. The old bits are a subset of the new ones. |
| TinyBloom.MayIncludeHashed | src/components/util/tiny_bloom.rs:32-42 | True iff both probe bits of `hash` are set. |
| TinyBloom.Insert | src/components/util/tiny_bloom.rs:47-49 | For any hash function, the inserted value is then possibly included, and every value possibly included before still is. |
| TinyBloom.MayInclude | src/components/util/tiny_bloom.rs:55-57 | A value is possibly included iff both probe bits of its hash are set. |
| TinyBloom.DefinitelyExcludes | src/components/util/tiny_bloom.rs:51-57 | Exactly the negation of `may_include`. When true, one of the value's probe bits is clear. |
| TinyBloom.InsertedIsIncluded | src/components/util/tiny_bloom.rs:26-42 | No false negatives: right after `insert_hashed(h)`, `may_include_hashed(h)` holds, whatever the earlier state. |
| TinyBloom.InsertIsMonotone | src/components/util/tiny_bloom.rs:26-30 | Insertion keeps all old bits. A hash possibly included before stays possibly included. |
| TinyBloom.InsertSetsProbeBits | src/components/util/tiny_bloom.rs:26-30 | The bits after insertion are the old bits or-ed with `1 << (h & 0x1F)` and `1 << ((h >> 5) & 0x1F)`. |
| TinyBloom.InsertIdempotent | src/components/util/tiny_bloom.rs:26-30 | Inserting the same hash twice gives the same filter as inserting it once. |
| TinyBloom.InsertCommutes | src/components/util/tiny_bloom.rs:26-30 | Two insertions give the same filter in either order. |
| TinyBloom.EmptyExcludesEverything | src/components/util/tiny_bloom.rs:59-61 | On a new or cleared filter, `may_include_hashed` is false for every hash. |
| TinyBloom.InsertAllBits | src/components/util/tiny_bloom.rs:26-30 | After a run of insertions, a bit is set iff it was set before or some inserted hash probes it. |
| TinyBloom.MembershipAfterInserts | src/components/util/tiny_bloom.rs:64-74 | After inserting a list of hashes into a new filter, every inserted hash is possibly included. A hash is possibly included exactly when both of its positions are probed by some inserted hash. |
| TinyBloom.CopiesAreIndependent | src/components/util/tiny_bloom.rs:78-90 | Two copies of one new filter evolve separately. Inserting into one leaves the other a new filter plus only its own insertion. Each copy excludes the other's value unless its own two positions cover the other's. |
| Common.ReadResponse | src/components/script/html/hubbub_html_parser.rs:199-214 | Reading a load returns the payload chunks before the first `Done`, in arrival order, and that `Done`'s status. A stream with no `Done` is incomplete, and its chunks are all the payloads. |
| Common.FlattenSnoc | src/components/script/html/hubbub_html_parser.rs:201-203 | Appending a chunk to the buffer appends its bytes to the concatenation of the earlier chunks. |
| Dom.SetAttrs | src/components/script/html/hubbub_html_parser.rs:363-368 | Setting a tag's attributes in order gives these results. The element's names are the old names plus the tag's names. A name given twice keeps its last value. Names not given keep their old values. Type, tag name and kind fields are unchanged. |
| ElementFactory.BuildElementFromTag | src/components/script/html/hubbub_html_parser.rs:231-288 | The factory is total. It keeps the tag name exactly as written and starts with no attributes. |
| ElementFactory.UnlistedTagsAreUnknown | src/components/script/html/hubbub_html_parser.rs:285-287 | A name outside the 47 listed tags creates an `UnknownElementTypeId` element that keeps the name, has no attributes, and has no kind fields. |
| ElementFactory.KindFieldsStartEmpty | src/components/script/html/hubbub_html_parser.rs:269-277 | For every tag name, an image starts with `image: None` and an iframe starts with `frame: None, size: None`. Every other type except headings has no kind fields. |
| ElementFactory.ListedTagsAToHtml | src/components/script/html/hubbub_html_parser.rs:233-245 | `a` through `html` each create an element of their own type id. |
| ElementFactory.ListedTagsInputToOl | src/components/script/html/hubbub_html_parser.rs:246-250 | `input`, `link`, `li`, `meta` and `ol` each create an element of their own type id. |
| ElementFactory.ListedTagsOptionToSelect | src/components/script/html/hubbub_html_parser.rs:251-254 | `option`, `p`, `script` and `select` each create an element of their own type id. |
| ElementFactory.ListedTagsSmallToSpan | src/components/script/html/hubbub_html_parser.rs:255-257 | `small`, `source` and `span` each create an element of their own type id. |
| ElementFactory.ListedTagsStyleCaptionTd | src/components/script/html/hubbub_html_parser.rs:258-260 | `style`, `caption` and `td` each create an element of their own type id. |
| ElementFactory.ListedTagsTableToTextarea | src/components/script/html/hubbub_html_parser.rs:261-263 | `table`, `tbody` and `textarea` each create an element of their own type id. |
| ElementFactory.ListedTagsTimeToTr | src/components/script/html/hubbub_html_parser.rs:264-266 | `time`, `title` and `tr` each create an element of their own type id. |
| ElementFactory.ListedTagsUlAndImg | src/components/script/html/hubbub_html_parser.rs:267-269 | `ul` and `img` each create an element of their own type id. |
| ElementFactory.ListedTagsIframe | src/components/script/html/hubbub_html_parser.rs:270 | `iframe` creates an `HTMLIframeElementTypeId` element. |
| ElementFactory.HeadingTagsHaveTheirLevel | src/components/script/html/hubbub_html_parser.rs:272-277 | `h1` to `h6` create `HTMLHeadingElementTypeId` elements with levels `Heading1` to `Heading6`. |
| ElementFactory.GenericTagsAsideAndB | src/components/script/html/hubbub_html_parser.rs:280-281 | `aside` and `b` create generic `HTMLElementTypeId` elements. |
| ElementFactory.GenericTagsIAndSection | src/components/script/html/hubbub_html_parser.rs:282-283 | `i` and `section` create generic `HTMLElementTypeId` elements. |
| ElementFactory.ReplacedElementDefaults | src/components/script/html/hubbub_html_parser.rs:269-270 | `img` gives an image element with no image. `iframe` gives an iframe element with no frame URL and no size. |
| ElementFactory.CaseSensitive | src/components/script/html/hubbub_html_parser.rs:83 | Matching is exact: `DIV` and `H1` create unknown elements, and `DIV` keeps its upper-case name. |
| TreeBuilder.LinkRequests | src/components/script/html/hubbub_html_parser.rs:373-386 | A `<link>` sends at most one request. It sends one iff both `rel` and `href` are present and `rel` is exactly `stylesheet`. The request is for `href` resolved against the document URL. |
| TreeBuilder.IFrameEffects | src/components/script/html/hubbub_html_parser.rs:388-421 | An `<iframe>` with `src` takes the current subpage id and advances the counter by exactly one. It records the resolved URL, and a size slot with the pipeline id and that subpage id. It sends one discovery carrying the same URL and id. Without `src`, nothing changes and nothing is sent. The ids announced are exactly the ids consumed. |
| TreeBuilder.ImageEffects | src/components/script/html/hubbub_html_parser.rs:423-439 | An `<img>` with `src` records the resolved URL and sends exactly one prefetch of that URL. Without `src`, the element is untouched and nothing is sent. |
| TreeBuilder.ElementEffects | src/components/script/html/hubbub_html_parser.rs:371-442 | The creation requests depend on the element's type: link, iframe, image, or none. Type, name and attributes are kept. At most one message is sent, and never a stop message. The subpage counter only grows, by exactly the frames announced. |
| TreeBuilder.AddNode | src/components/script/html/hubbub_html_parser.rs:339-358 | Comment, doctype and text nodes are appended to the arena with no links. The new handle is the old arena length. Nothing is sent. |
| TreeBuilder.NewElement | src/components/script/html/hubbub_html_parser.rs:359-368 | The element for a start tag has the factory's type and kind fields for the tag name and keeps the name. Its attributes are the tag's attributes, with the last value winning for repeated names. |
| TreeBuilder.CreateElement | src/components/script/html/hubbub_html_parser.rs:359-445 | The new element node gets the next handle and no links. Existing nodes are unchanged. The stored element is the start tag's element after its creation effects, so it carries the resolved image URL, or the iframe's frame URL and size slot. The messages sent and the subpage counter are the element's creation effects, appended after the earlier messages. |
| TreeBuilder.AppendChild | src/components/script/html/hubbub_html_parser.rs:454-462 | The child is appended at the end of the parent's child list and its parent is set. No node contents change. No other child list or parent link changes. The call fails iff a handle is dangling. If all handles were in range before, they still are. |
| TreeBuilder.AddUnlinkedKeepsLinksAgreeing | src/components/script/html/hubbub_html_parser.rs:339-445 | Adding a new unlinked node keeps parent links and child lists agreeing. |
| TreeBuilder.AppendChildKeepsLinksAgreeing | src/components/script/html/hubbub_html_parser.rs:454-462 | Appending a detached node under a different node succeeds and keeps parent links and child lists agreeing. The child then sits in exactly one child list, its new parent's. |
| TreeBuilder.StyleText | src/components/script/html/hubbub_html_parser.rs:531-536 | The style text succeeds iff every child is a text node. It is then the concatenation of the children's texts in child order. |
| TreeBuilder.CollectStyleText | src/components/script/html/hubbub_html_parser.rs:529-539 | The push-then-concatenate loop computes the same result as StyleText. |
| TreeBuilder.CompleteScript | src/components/script/html/hubbub_html_parser.rs:500-521 | Completing a script sends one script request iff the element has `src`. The request is for `src` resolved against the document URL. A non-element node aborts. The tree is unchanged. |
| TreeBuilder.CompleteStyle | src/components/script/html/hubbub_html_parser.rs:522-542 | Completing a style sends exactly one inline stylesheet. Its base is the fixed placeholder URL and its text is the children's texts concatenated in child order. A non-text child aborts. The tree is unchanged. |
| TreeBuilder.Step | src/components/script/html/hubbub_html_parser.rs:338-543 | Each callback only adds nodes, appends to child lists, and appends messages, none of them a stop message. Frames announced carry the subpage ids consumed, in order. If all handles were in range before, they still are. `clone_node` always aborts. The stub callbacks change nothing. |
| TreeBuilder.StepKeepsLinksAgreeing | src/components/script/html/hubbub_html_parser.rs:338-543 | Every successful callback keeps parent links and child lists agreeing, provided an appended child is detached and is not its own new parent. |
| TreeBuilder.Run | src/components/script/html/hubbub_html_parser.rs:338-543 | A whole run of callbacks has the properties of a single step. In particular, the frames announced over a document carry ids start, start+1, … in order. A successful run contains no `clone_node` call. |
| Listeners.Drain | src/components/script/html/hubbub_html_parser.rs:176-180 | One stylesheet is reported per pending request, in request order. |
| Listeners.CssListen | src/components/script/html/hubbub_html_parser.rs:165-180 | The loop reports nothing without a stop message. After it, the loop reports the queued requests, then the requests received before the stop, each in order. |
| Listeners.CssLinkListener | src/components/script/html/hubbub_html_parser.rs:160-181 | The stylesheet listener reports nothing before `CSSTaskExit`. After it, the listener reports exactly one stylesheet per `CSSTaskNewFile` received before it, in receipt order. |
| Listeners.ScriptWorker | src/components/script/html/hubbub_html_parser.rs:193-215 | The fetch worker returns `Some` of the in-order concatenation of all payload chunks on `Done(Ok)` and `None` on `Done(Err)`. It is still waiting when no `Done` has arrived. |
| Listeners.FetchScript | src/components/script/html/hubbub_html_parser.rs:198-214 | The worker's buffer loop computes ScriptWorker. |
| Listeners.FilterSome | src/components/script/html/hubbub_html_parser.rs:224 | The kept scripts are exactly the `Some` results, with one entry per `Some`. |
| Listeners.FilterSomeKeepsOrder | src/components/script/html/hubbub_html_parser.rs:224 | The `Some` at position `i` lands at the position given by the number of `Some`s before `i`: submission order is kept and failures leave no placeholder. |
| Listeners.CountSomeMonotone | src/components/script/html/hubbub_html_parser.rs:224 | Of two successful fetches, the one submitted earlier gets the earlier output position. |
| Listeners.FailedFetchesAreDropped | src/components/script/html/hubbub_html_parser.rs:224 | `[Some(a), None, Some(c)]` gives `[a, c]`. |
| Listeners.Report | src/components/script/html/hubbub_html_parser.rs:218-225 | After the stop, the listener sends one script message iff every fetch has ended. The message holds at most one script per request. A script is in it iff some request's load delivered that script and ended well. The scripts are the successful fetches' results, in request order, with failures dropped. |
| Listeners.ScriptsInRequestOrder | src/components/script/html/hubbub_html_parser.rs:224-225 | Of two requests whose fetches succeeded, the earlier one's script comes first in the report. Each script sits at the position given by the number of successful fetches before its request. |
| Listeners.Outcomes | src/components/script/html/hubbub_html_parser.rs:190-216 | One fetch worker is started per requested URL. The outcomes are kept in request order, and each is that URL's load as read by the worker. |
| Listeners.RequestedUrls | src/components/script/html/hubbub_html_parser.rs:190-216 | The URLs of the script requests, in receipt order. When every message is a request, there is exactly one URL per message. |
| Listeners.JsListen | src/components/script/html/hubbub_html_parser.rs:188-225 | The loop sends nothing without a stop message. After it, the loop reports the fetches of the URLs seen so far, followed by those of the requests before the stop. |
| Listeners.JsScriptListener | src/components/script/html/hubbub_html_parser.rs:183-226 | The script listener sends nothing before `JSTaskExit`. After it, the listener sends the report for the `JSTaskNewFile` URLs received before it, in request order. |
| HtmlParser.InitialBuilder | src/components/script/html/hubbub_html_parser.rs:325-331 | Building starts from one unlinked node, the element the factory builds for `html`. Nothing has been sent yet, the subpage counter is the caller's, and the links agree. |
| HtmlParser.StylesheetRequestsThenStop | src/components/script/html/hubbub_html_parser.rs:564 | After requests with no stop message, the stop message sent last is the stylesheet listener's first one. |
| HtmlParser.ScriptRequestsThenStop | src/components/script/html/hubbub_html_parser.rs:565 | After requests with no stop message, the stop message sent last is the script listener's first one. |
| HtmlParser.Finish | src/components/script/html/hubbub_html_parser.rs:564-570 | After the two stop messages, the listeners report one stylesheet per stylesheet request the builder sent, in sending order. The script report covers the script requests in sending order. The frame discoveries are those the builder sent. |
| HtmlParser.ParseHtml | src/components/script/html/hubbub_html_parser.rs:546-571 | A page load ending in `Done(Err)` fails the parse. A load with no `Done` never finishes. After `Done(Ok)`, the tokenizer gets the payload chunks in arrival order. The parse succeeds iff the callbacks succeed. |
| HtmlParser.FinishedDocument | src/components/script/html/hubbub_html_parser.rs:325-327 | A parsed document has the root element at handle 0, and every tree link names one of its nodes. Its two stop messages are sent last, with no stop message before them. The frame ids run consecutively from the first free subpage id. |

## Left out

- SipHash (`std::hash::sip::hash`) is a parameter of `Insert`, `MayInclude` and `DefinitelyExcludes`. The test that `10u` is excluded after inserting 1, 2 and 3 depends on concrete SipHash values and is not stated.
- TinyBloom.Insert: the filter is a value (`bv32`), so `&mut self` updates are modelled as returning the new filter.
- Tasks, streams, `SharedChan`, `oneshot` and futures are replaced by message lists in sending order. The size future of an iframe is `SizeFuture(subpageId)`, and its sending end is not modelled.
- HtmlParser.ParseHtml: the three senders to the caller run concurrently, so their messages interleave in an unspecified way. The result reports each sender's messages separately, each in its own order.
- HtmlParser.ParseHtml: the tree callbacks run after the whole page has loaded. In Servo they run chunk by chunk as the payloads arrive (line 553). Three differences follow:
  - With a load that later ends in `Done(Err)`, the earlier chunks' callbacks have already had effects in Servo. Prefetches have gone to the image cache, which outlives the parse. The listeners have started stylesheet parses and script loads. The model reports only `PageLoadFailed` and sends nothing.
  - A callback that aborts in an early chunk, such as `clone_node`, aborts the parse in Servo even if the load later fails or never ends. The model reports `PageLoadFailed` or `PageLoadIncomplete` instead.
  - With a load that never ends, Servo has already run the callbacks for the chunks received. The model runs none.
- HtmlParser.ParseHtml: the caller's `fail!` on a failed load is the error `PageLoadFailed`. A load that never ends, where the parser blocks forever, is the error `PageLoadIncomplete`.
- Listeners.JsScriptListener: a fetch whose load never ends blocks the listener forever. This is modelled as reporting nothing.
- The hubbub tokenizer and its foreign interface are not modelled. This covers `parse_chunk`, `NodeWrapping`, the pointer transmutes, `JSContext` and `page_from_context`. The tokenizer is a parameter giving the callbacks it makes. The pipeline id is a parameter too.
- `make_url` is symbolic: `Resolved(reference, base)`.
- CSS fetching and parsing (`spawn_css_parser`) are symbolic: `ParsedStylesheet(provenance)`. The image cache and the constellation channel are not modelled; only the prefetch and the recorded size slot are.
- The stub callbacks are one `StubEvent` that changes nothing. These are `insert_before`, `remove_child`, `reparent_children`, `get_parent`, `has_children`, `form_associate`, `add_attributes`, `set_quirks_mode`, `encoding_change`, `ref_node` and `unref_node`, which only return constants. Their return values are not modelled.
- `clone_node` is the error `CloneUnimplemented`. The deep-clone log line is not modelled.
- TreeBuilder.AppendChild: `add_child` lives in `tree.rs`, which is not part of this model. Appending is modelled as linking the child at the end of the parent's list. It does not detach the child from an earlier parent. It does not reject a node appended under itself, and it does not model sibling links. As a result, parent links and child lists are proved to agree only when every appended child is detached (StepKeepsLinksAgreeing). The model proves no acyclicity.
- TreeBuilder.CompleteStyle: the text of each child is read with `with_imm_text` from `node.rs`, which is not part of this model. A child that is not text is modelled as aborting the parse.
- The inline stylesheet base URL is the fixed placeholder `http://example.com/`, as written.
- `debug!` and `error!` logging is not modelled.
- `python/servo/build_commands.py` is build tooling and is not modelled.
- The script listener drops failed fetches, as the `filter_map` at line 224 does. No placeholder is kept for a failed fetch.
- Dom.SubpageId: the source's `SubpageId(*subpage_id + 1)` (line 404) is a fixed-width machine integer. The model's subpage ids are unbounded `nat`s. The consecutive-id properties of IFrameEffects, Run and FinishedDocument therefore hold only while the counter stays below that integer type's maximum value. Wrap-around is not modelled.
- Dom.SetAttrs: `set_attr` (line 366) lives in `element.rs`, which is not part of this model. The model assumes it is a map update where the last write wins. Any other effect it has, such as attribute-specific side effects or the order of the attribute list, is not modelled.
