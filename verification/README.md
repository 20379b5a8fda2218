# async_webscraper `Tools`: a Dafny model

This project models the core of the `Tools` class of the Open WebUI
"async webscraper" tool (`main.py`), which fetches a web resource on
request and returns either its raw body or a plain-text rendering.
The following parts are modelled and proved:

- **The retry/backoff loop of `_fetch`.** Up to `max(0, retries)` GET
  attempts are made, stopping at the first reply that passes
  `raise_for_status`. A failed attempt that is not the last emits
  `fetch_retry` and sleeps 0.5·2^(attempt−1) s. The last failed attempt
  emits `fetch_failed`. After the loop, the fetch raises
  `Failed to fetch {url}: {last_exc}`.
- **`scrape`.** It syncs the session, rejects an empty url, emits
  `start`, fetches, then chooses what to return:
  - on a fetch failure it emits `fetch_failed_final` and re-raises;
  - it emits `found json` when `json.loads` accepts the body;
  - the body is returned raw when it is JSON, when it begins with an XML
    declaration (`^\s*<\?xml\s`), or when it is no longer than a non-zero
    `min_summary_size`;
  - `done` is emitted with the raw body;
  - otherwise the `html2text` output is returned, or the raw body when
    that output is empty.
- **The session lifecycle.** `_valves_snapshot`, `_ensure_synced`,
  `_get_session` and `close` maintain the `_session` and
  `_applied_snapshot` fields.
- **Ordered aggregation.** `scrape_multi` and `wikipedia_multi`
  concatenate per-item results in input order, and the first exception
  aborts the rest. The model also includes the MediaWiki extracts URL
  that `wikipedia` builds.

The network is a parameter. `Web` gives, for each URL and each 1-based
attempt, either a response (status and decoded text) or a raised
exception. `json.loads` and `html2text` are the two uninterpreted
functions of `Parsers`. The events are the dictionaries an emitter would
receive: every `_emit` sits under `if emitter:`, and with no emitter
nothing is delivered (`Delivered`). The sleeps are returned separately,
in milliseconds, because they happen with or without an emitter.

Layout:

- `types.dfy` (`ScraperTypes`): the valves, replies, errors and events, and `Emit`, the guarded `_emit` call.
- `fetcher.dfy` (`Fetcher`): the pure specification `Run` of a fetch,
  lemmas that characterise it position by position, and `RetryLoop`,
  the loop, proved equal to `Run`.
- `selection.dfy` (`Selection`): Python's `\s`, the XML-declaration
  match, the size rule and the output choice.
- `wikipedia.dfy` (`WikipediaApi`): the API URL.
- `pipeline.dfy` (`Pipeline`): the pure specifications of one `scrape`
  call and of a batch, with their lemmas.
- `tools.dfy` (`WebScraper`): the `Session` and `Tools` classes, whose
  methods are proved to produce what `Pipeline` specifies.

Where the tests or later versions of the tool disagree with this
`main.py`, the model follows `main.py`:

- `retries <= 0` makes no attempt at all and raises; the loop has no
  floor of one attempt.
- The backoff has no jitter.
- JSON and XML bodies are returned as the raw text, not parsed.
- There is no byte cap, provenance header, host allow/deny list, site
  handler, concurrency bound or cache.

## Model

| member | source | states |
|---|---|---|
| `Fetcher.RetryLoop` | main.py:255-300 | the loop returns exactly `Run`'s result and waits; it emits `Run`'s events with an emitter and none without one |
| `Fetcher.StopsAtFirstSuccess` | main.py:259-274 | when attempt k is the first that passes `raise_for_status`, the fetch returns attempt k's text; it has made k attempts and emitted 2k events, each at its indexed position (attempt j's announcement, then its `fetch_retry` or `fetched`); there are k−1 sleeps of 500·2^(i−1) ms |
| `Fetcher.Exhausted` | main.py:275-300 | when every allowed attempt fails, the fetch raises with the last attempt's cause (none when `retries <= 0`, and then no event and no GET); it emits 2·n events at their indexed positions, the last being `fetch_failed`, and sleeps n−1 times |
| `Fetcher.EventsOfRun` | main.py:259-299 | each attempt is announced once with its 1-based number at an even position, and there are at most max(0, retries) attempts; there is no event at all iff `retries <= 0`, and then the fetch fails with no cause and does not sleep; `fetched` occurs exactly once, last, iff the fetch succeeds; `fetch_failed` occurs exactly once, last, iff the fetch fails after at least one attempt; `fetch_retry` follows every other attempt and carries the next wait; the fetch fails iff every allowed attempt fails; a success returns the text of the last attempt |
| `Fetcher.WaitsDouble` | main.py:276-289 | the first wait is 500 ms and each wait is twice the previous one |
| `Selection.LeadingSpaces` | main.py:344-345 | the count is the longest whitespace prefix in the sense of Python's `\s`: all characters before it are whitespace and the next is not |
| `Selection.XmlDeclaredIsPatternMatch` | main.py:343-347 | `XmlDeclared` holds iff some whitespace prefix is followed by `<?xml` and one whitespace character, which is what `re.match(r"^\s*<\?xml\s", ...)` accepts |
| `Selection.SizeRule` | main.py:351-353 | a threshold ≤ 0 never forces raw output; a positive threshold forces it iff the length is at most the threshold, inclusive at equality |
| `Selection.Output` | main.py:330-366 | the body is returned unchanged for JSON, for an XML declaration, for a small body or with `return_html`; otherwise the extractor's text is returned when it is non-empty, and the body when it is empty; the result is always the body or the extractor's text, and it is empty only when the body is |
| `WikipediaApi.WikipediaUrl` | main.py:152 | the URL is `https://`, the language, the host and path `.wikipedia.org/w/api.php`, the extracts query and the title as given, each at its position |
| `WikipediaApi.WikipediaUrlInjective` | main.py:152 | different titles on the same edition give different URLs |
| `Pipeline.ScrapeOutline` | main.py:312-328 | the call raises the url error iff the url is empty, and then emits nothing and sleeps nothing; otherwise the first event is `start`; the sleeps are those of the fetch |
| `Pipeline.ScrapeFetchFailure` | main.py:319-328 | when every attempt fails, `scrape` re-raises the fetch error; `fetch_failed_final` is emitted exactly once, as the last event; there is no `done` and no `found json`; `fetch_failed` is emitted once, just before it, iff at least one attempt ran |
| `Pipeline.ScrapeFetchSuccess` | main.py:330-366 | after a successful fetch, `scrape` returns `Output` of the fetched body; the last event, emitted once, is `done` with the raw body; there is no `fetch_failed` and no `fetch_failed_final` |
| `Pipeline.MultiSingle` | main.py:203-212 | a batch of one URL behaves exactly as scraping that URL |
| `Pipeline.MultiAppend` | main.py:206-212 | scraping `u + v` is scraping `u` and then, unless it raised, `v`, with the texts concatenated in input order |
| `Pipeline.MultiSucceedsIffAll` | main.py:206-212 | a batch succeeds iff every URL's scrape succeeds |
| `Pipeline.MultiStopsAtFirstFailure` | main.py:207-211 | the first failing URL's exception is the batch's; the events and sleeps are those of the URLs up to it, so no later URL is fetched |
| `WebScraper.SnapshotDetectsChange` | main.py:93-95 | two snapshots are equal iff the valves are equal, so every valve change is detected |
| `WebScraper.Tools.constructor` | main.py:85-89 | a new tool has the default valves (retries 3, timeout 10, min_summary_size 2048), no session, and a recorded snapshot of those valves; it satisfies `Valid`, the invariant that a held session carries the User-Agent of the recorded snapshot, which every method below keeps |
| `WebScraper.Tools.EnsureSynced` | main.py:112-127 | the recorded snapshot is then the current valves; if it was already, the session is kept and left as it was; otherwise the old session is closed and the reference dropped |
| `WebScraper.Tools.GetSession` | main.py:129-138 | the tool is synced and holds the returned open session; if a synced open session existed, that same one is returned; otherwise a new one is built; either way the returned session's `User-Agent` header is set iff the valve is non-empty and then holds the current valve; a session built for other valves is closed |
| `WebScraper.Tools.Close` | main.py:97-99 | the current session, if any, is closed and the reference is kept |
| `WebScraper.Tools.Fetch` | main.py:253-300 | the session is obtained first, so it is open and synced afterwards; a reusable session is the one kept, and otherwise the session is new; then come the retry loop's result, events and waits with the `retries` valve |
| `WebScraper.Tools.Scrape` | main.py:241-328 | the result, events and waits are those of `Pipeline.Scrape` under the current valves; the valves are unchanged and synced; an empty url creates no session; a reusable session is kept, so consecutive scrapes share it |
| `WebScraper.Tools.SelectOutput` | main.py:330-366 | after a fetch, the text is `Output` of the body with `found json` decided by the JSON parser and the threshold from the valves; the emitted events are `found json` (for JSON) and then `done` with the raw body |
| `WebScraper.Tools.ScrapeMulti` | main.py:203-212 | the result, events and waits are those of `Pipeline.Multi` over the URLs in order; an empty batch leaves the session and snapshot untouched; a non-empty one leaves the tool synced; a reusable session is kept throughout |
| `WebScraper.Tools.Wikipedia` | main.py:145-153 | the result is that of scraping the extracts URL for the page and language, and is never the empty-url error; a reusable session is kept |
| `WebScraper.Tools.WikipediaMulti` | main.py:173-184 | the result is that of a batch over the English URLs of the pages with `return_html` true; no event is emitted whatever emitter is passed; an empty batch leaves the session and snapshot untouched, a non-empty one leaves an open synced session, and a reusable session is kept |
| `WebScraper.SessionIsReused` | main.py:129-132 | two `_get_session` calls in a row, with the valves unchanged, return the same open session |
| `WebScraper.ValveChangeRebuildsSession` | main.py:112-138 | after a valve change, `_get_session` closes the old session and builds a fresh one with the new User-Agent |

## Left out

- Network I/O (`aiohttp.ClientSession`, `sess.get`, `resp.text()`) is a parameter. The `timeout` valve passed to each GET is not modelled: a timeout shows up as a raised reply. Charset decoding is part of the reply's text.
- `asyncio.sleep` is recorded as a wait and nothing more. The floating-point 0.5 s base is represented as 500 ms.
- `json.loads`, `html2text.html2text` and the lxml fallback are uninterpreted. An exception from `json.loads` other than `ValueError` (which would escape `scrape`) is not modelled.
- `_emit` always delivers: the dispatch on the emitter's shape and the swallowing of its exceptions are left out.
- `_ensure_synced` closes the old session through `asyncio.run` when no event loop is running, and schedules `close()` as a task on a running loop. The model closes it at once in both cases. An exception from that close, which the source swallows, is not modelled.
- `@lru_cache` on the nested `_fetch` is re-created on every `scrape` call, so it never serves a cached result; the cache itself is left out.
- `WebScraper.Tools.Scrape`: `@lru_cache` hashes the arguments of `_fetch`, so an unhashable emitter makes the call raise `TypeError` before any session is built or any GET is made, and `scrape` then emits `fetch_failed_final` and re-raises. The emitter is modelled only as present or absent (`hasEmitter`), so the model always fetches.
- `_summarize` is never called. `wikipedia_page` has no `self`. `simple_wikipedia` uses an undefined `url`. `wikipedia_pages` passes an unsupported `lang`. None of these is modelled. The aliases `html`, `fetch`, `download`, `pull`, `get`, `get_summary`, `summarize`, `get_multi` and `multi_scrape` only delegate to `scrape` or `scrape_multi`.
- The `HEADERS` constant and the `fake_useragent` override are configuration. Only the `User-Agent` header a session is built with is modelled.
- The network is keyed by URL, so the same URL twice in one batch gets the same replies.
- A `None` url is modelled as the empty string.
- Calls are modelled one at a time, and the valves change only between calls. Concurrent coroutines sharing the session are not modelled.
