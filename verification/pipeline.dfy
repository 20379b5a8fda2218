/**
 * The whole of one `scrape` call, and of `scrape_multi`, as functions of
 * the valves, the arguments and the network's replies. The methods of
 * `Tools` are proved to produce exactly these; the lemmas here state what
 * the source promises about them.
 */
module Pipeline {
  import opened ScraperTypes
  import Fetcher
  import opened Selection

  /** What one `scrape` call produces: its value or exception, the events it emits and the waits it sleeps. */
  datatype ScrapeRun = ScrapeRun(result: Result<string, ScrapeError>, events: seq<Event>, waits: seq<nat>)

  /** The events a successful fetch of `html` ends with: `found json` (for JSON) and `done` with the raw body. */
  function Finish(url: string, html: string, isJson: bool): seq<Event>
  {
    (if isJson then [FoundJson(url)] else []) + [Done(html, url)]
  }

  /** One call of `scrape(url, return_html)` under `valves`. */
  function Scrape(valves: Valves, url: string, returnHtml: bool, web: Web, parsers: Parsers): ScrapeRun
  {
    if url == "" then ScrapeRun(Failure(InvalidUrl), [], [])
    else
      var f := Fetcher.Run(url, valves.retries, web(url));
      match f.result
      case Failure(e) =>
        ScrapeRun(Failure(FetchRaised(e)), [Start(url)] + f.events + [FetchFailedFinal(url, e)], f.waits)
      case Success(html) =>
        var isJson := parsers.parsesAsJson(html);
        ScrapeRun(Success(Output(html, returnHtml, isJson, valves.minSummarySize, parsers.toText)),
                  [Start(url)] + f.events + Finish(url, html, isJson), f.waits)
  }

  /**
   * The outline of every `scrape` call: the url error is raised iff the url
   * is empty, and then before anything is emitted or fetched; otherwise
   * `start` comes first, and the only sleeps are those of the fetch.
   */
  lemma ScrapeOutline(valves: Valves, url: string, returnHtml: bool, web: Web, parsers: Parsers)
    ensures var s := Scrape(valves, url, returnHtml, web, parsers);
      && (s.result == Failure(InvalidUrl) <==> url == "")
      && (url == "" ==> s.events == [] && s.waits == [])
      && (url != "" ==> |s.events| > 0 && s.events[0] == Start(url))
      && s.waits == (if url == "" then [] else Fetcher.Run(url, valves.retries, web(url)).waits)
  {
  }

  /**
   * When every attempt fails, `scrape` re-raises the fetch's exception,
   * after emitting exactly one `fetch_failed_final` as its last event and
   * no `done`; the `fetch_failed` of the last attempt precedes it when
   * there was at least one attempt.
   */
  lemma ScrapeFetchFailure(valves: Valves, url: string, returnHtml: bool, web: Web, parsers: Parsers)
    requires url != ""
    requires Fetcher.AllFail(web(url), Fetcher.Attempts(valves.retries))
    ensures var s := Scrape(valves, url, returnHtml, web, parsers);
      var n := Fetcher.Attempts(valves.retries);
      && s.result == Failure(FetchRaised(FetchError(url, if n == 0 then None else Some(CauseOf(web(url)(n))))))
      && |s.events| == 2 * n + 2
      && (forall i :: 0 <= i < |s.events| ==> (s.events[i].FetchFailedFinal? <==> i == |s.events| - 1))
      && (forall i :: 0 <= i < |s.events| ==> !s.events[i].Done? && !s.events[i].FoundJson?)
      && (forall i :: 0 <= i < |s.events| ==> (s.events[i].FetchFailed? <==> n > 0 && i == |s.events| - 2))
  {
    var f := Fetcher.Run(url, valves.retries, web(url));
    Fetcher.Exhausted(url, valves.retries, web(url));
    Fetcher.EventsOfRun(url, valves.retries, web(url));
    var s := Scrape(valves, url, returnHtml, web, parsers);
    assert s.events == [Start(url)] + f.events + [FetchFailedFinal(url, f.result.error)];
    forall i | 1 <= i < |s.events| - 1
      ensures s.events[i] == f.events[i - 1]
    {
    }
  }

  /**
   * When an attempt succeeds, `scrape` returns the selected output for the
   * fetched body; its last event is `done` carrying the raw body, emitted
   * once, and no `fetch_failed_final` or `fetch_failed` is emitted.
   */
  lemma ScrapeFetchSuccess(valves: Valves, url: string, returnHtml: bool, web: Web, parsers: Parsers, k: nat)
    requires url != ""
    requires Fetcher.FirstSuccess(web(url), Fetcher.Attempts(valves.retries), k)
    ensures var s := Scrape(valves, url, returnHtml, web, parsers);
      var html := web(url)(k).text;
      && s.result == Success(Output(html, returnHtml, parsers.parsesAsJson(html), valves.minSummarySize, parsers.toText))
      && s.events[|s.events| - 1] == Done(html, url)
      && (forall i :: 0 <= i < |s.events| ==> (s.events[i].Done? <==> i == |s.events| - 1))
      && (forall i :: 0 <= i < |s.events| ==> !s.events[i].FetchFailedFinal? && !s.events[i].FetchFailed?)
  {
    var f := Fetcher.Run(url, valves.retries, web(url));
    Fetcher.StopsAtFirstSuccess(url, valves.retries, web(url), k);
    Fetcher.EventsOfRun(url, valves.retries, web(url));
    var html := web(url)(k).text;
    var s := Scrape(valves, url, returnHtml, web, parsers);
    var tail := Finish(url, html, parsers.parsesAsJson(html));
    assert s.events == [Start(url)] + f.events + tail;
    forall i | 0 <= i < |s.events|
      ensures s.events[i].Done? <==> i == |s.events| - 1
      ensures !s.events[i].FetchFailedFinal? && !s.events[i].FetchFailed?
    {
      if 1 <= i < 1 + |f.events| {
        assert s.events[i] == f.events[i - 1];
      } else if i >= 1 + |f.events| {
        assert s.events[i] == tail[i - 1 - |f.events|];
      }
    }
  }

  /** Appends `rest` to the successful `first`: the texts are concatenated, the events and waits follow in order. */
  function Then(first: ScrapeRun, rest: ScrapeRun): ScrapeRun
    requires first.result.Success?
  {
    ScrapeRun(
      match rest.result
      case Success(t) => Success(first.result.value + t)
      case Failure(e) => Failure(e),
      first.events + rest.events,
      first.waits + rest.waits)
  }

  /** Runs `rest` after `first` unless `first` raised, in which case nothing after it happens. */
  function AndThen(first: ScrapeRun, rest: ScrapeRun): ScrapeRun
  {
    if first.result.Failure? then first else Then(first, rest)
  }

  /** `scrape_multi(urls, return_html)`: each URL scraped in turn, the first exception aborting the rest. */
  function Multi(valves: Valves, urls: seq<string>, returnHtml: bool, web: Web, parsers: Parsers): ScrapeRun
    decreases |urls|
  {
    if urls == [] then ScrapeRun(Success(""), [], [])
    else AndThen(Scrape(valves, urls[0], returnHtml, web, parsers), Multi(valves, urls[1..], returnHtml, web, parsers))
  }

  /** A batch of one URL is that URL's scrape. */
  lemma MultiSingle(valves: Valves, url: string, returnHtml: bool, web: Web, parsers: Parsers)
    ensures Multi(valves, [url], returnHtml, web, parsers) == Scrape(valves, url, returnHtml, web, parsers)
  {
    var s := Scrape(valves, url, returnHtml, web, parsers);
    assert [url][1..] == [];
    if s.result.Success? {
      assert s.result.value + "" == s.result.value;
      assert s.events + [] == s.events && s.waits + [] == s.waits;
    }
  }

  /**
   * Scraping `u + v` is scraping `u` and then, if it did not raise, `v`:
   * results are concatenated in input order, and nothing of `v` happens
   * after a failure in `u`.
   */
  lemma {:induction false} MultiAppend(valves: Valves, u: seq<string>, v: seq<string>, returnHtml: bool, web: Web, parsers: Parsers)
    ensures Multi(valves, u + v, returnHtml, web, parsers)
         == AndThen(Multi(valves, u, returnHtml, web, parsers), Multi(valves, v, returnHtml, web, parsers))
    decreases |u|
  {
    var mv := Multi(valves, v, returnHtml, web, parsers);
    if u == [] {
      assert u + v == v;
      ThenFromNothing(mv);
    } else {
      assert (u + v)[0] == u[0];
      assert (u + v)[1..] == u[1..] + v;
      MultiAppend(valves, u[1..], v, returnHtml, web, parsers);
      var s := Scrape(valves, u[0], returnHtml, web, parsers);
      var mu' := Multi(valves, u[1..], returnHtml, web, parsers);
      if s.result.Success? && mu'.result.Success? {
        ThenAssoc(s, mu', mv);
      }
    }
  }

  /** Nothing done yet: appending to the empty successful run changes nothing. */
  lemma ThenFromNothing(rest: ScrapeRun)
    ensures Then(ScrapeRun(Success(""), [], []), rest) == rest
  {
    match rest.result
    case Success(t) => assert "" + t == t;
    case Failure(_) =>
  }

  /** Appending the empty successful run changes nothing. */
  lemma ThenNothing(first: ScrapeRun)
    requires first.result.Success?
    ensures Then(first, ScrapeRun(Success(""), [], [])) == first
  {
    assert first.result.value + "" == first.result.value;
    assert first.events + [] == first.events && first.waits + [] == first.waits;
  }

  /**
   * One step of a loop over `urls` that has already completed `done`: the
   * rest of the batch is the scrape of `urls[i]`, and, when that
   * succeeds, the batch from `urls[i + 1]` on.
   */
  lemma MultiStep(valves: Valves, urls: seq<string>, i: nat, returnHtml: bool, web: Web, parsers: Parsers, done: ScrapeRun)
    requires i < |urls| && done.result.Success?
    ensures var one := Scrape(valves, urls[i], returnHtml, web, parsers);
      var rest := Multi(valves, urls[i + 1..], returnHtml, web, parsers);
      AndThen(done, Multi(valves, urls[i..], returnHtml, web, parsers))
        == if one.result.Failure? then Then(done, one) else AndThen(Then(done, one), rest)
  {
    var one := Scrape(valves, urls[i], returnHtml, web, parsers);
    var rest := Multi(valves, urls[i + 1..], returnHtml, web, parsers);
    assert urls[i..][0] == urls[i] && urls[i..][1..] == urls[i + 1..];
    assert Multi(valves, urls[i..], returnHtml, web, parsers) == AndThen(one, rest);
    if one.result.Success? {
      ThenAssoc(done, one, rest);
    }
  }

  lemma ThenAssoc(a: ScrapeRun, b: ScrapeRun, c: ScrapeRun)
    requires a.result.Success? && b.result.Success?
    ensures Then(a, Then(b, c)) == Then(Then(a, b), c)
  {
    assert a.events + (b.events + c.events) == (a.events + b.events) + c.events;
    assert a.waits + (b.waits + c.waits) == (a.waits + b.waits) + c.waits;
    match c.result
    case Success(t) =>
      assert a.result.value + (b.result.value + t) == (a.result.value + b.result.value) + t;
    case Failure(_) =>
  }

  /** `scrape_multi` succeeds exactly when every URL's scrape succeeds. */
  lemma {:induction false} MultiSucceedsIffAll(valves: Valves, urls: seq<string>, returnHtml: bool, web: Web, parsers: Parsers)
    ensures Multi(valves, urls, returnHtml, web, parsers).result.Success?
        <==> forall i :: 0 <= i < |urls| ==> Scrape(valves, urls[i], returnHtml, web, parsers).result.Success?
    decreases |urls|
  {
    if urls != [] {
      MultiSucceedsIffAll(valves, urls[1..], returnHtml, web, parsers);
      forall i | 1 <= i < |urls|
        ensures urls[i] == urls[1..][i - 1]
      {
      }
    }
  }

  /**
   * A failing URL at position `k`, after `k` that succeed, makes the batch
   * raise that URL's exception; the events and waits are those of the
   * first `k + 1` URLs, so no later URL is fetched.
   */
  lemma MultiStopsAtFirstFailure(valves: Valves, urls: seq<string>, returnHtml: bool, web: Web, parsers: Parsers, k: nat)
    requires k < |urls|
    requires forall i :: 0 <= i < k ==> Scrape(valves, urls[i], returnHtml, web, parsers).result.Success?
    requires Scrape(valves, urls[k], returnHtml, web, parsers).result.Failure?
    ensures var m := Multi(valves, urls, returnHtml, web, parsers);
      var prefix := Multi(valves, urls[..k], returnHtml, web, parsers);
      var s := Scrape(valves, urls[k], returnHtml, web, parsers);
      && m.result == s.result
      && m.events == prefix.events + s.events
      && m.waits == prefix.waits + s.waits
  {
    var prefix := Multi(valves, urls[..k], returnHtml, web, parsers);
    var s := Scrape(valves, urls[k], returnHtml, web, parsers);
    MultiSucceedsIffAll(valves, urls[..k], returnHtml, web, parsers);
    assert forall i :: 0 <= i < k ==> urls[..k][i] == urls[i];
    assert prefix.result.Success?;
    assert urls == urls[..k] + urls[k..];
    MultiAppend(valves, urls[..k], urls[k..], returnHtml, web, parsers);
    assert urls[k..][0] == urls[k];
    assert Multi(valves, urls[k..], returnHtml, web, parsers) == s;
    assert Multi(valves, urls, returnHtml, web, parsers) == Then(prefix, s);
  }
}
