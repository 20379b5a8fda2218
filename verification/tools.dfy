/**
 * The `Tools` object: its valves, the shared HTTP session and the
 * snapshot of the valves that session was built for, and the scraping
 * operations that use them.
 */
module WebScraper {
  import opened ScraperTypes
  import Fetcher
  import opened Selection
  import opened WikipediaApi
  import opened Pipeline

  /** The default browser User-Agent string (main.py:38). */
  const DefaultUserAgent: string :=
    "Mozilla/5.0 (Windows NT 10.0; Win64; x64) AppleWebKit/537.36 (KHTML, like Gecko) Chrome/120.0.0.0 Safari/537.36"

  /** The valves a new `Tools` starts with. */
  const DefaultValves: Valves := Valves(DefaultUserAgent, 3, 10, 2048)

  /** `_valves_snapshot`: the 4-tuple of the valves. */
  function SnapshotOf(v: Valves): Snapshot
  {
    Snapshot(v.userAgent, v.retries, v.timeout, v.minSummarySize)
  }

  /** Comparing snapshots by value detects every change of the valves. */
  lemma SnapshotDetectsChange(v: Valves, w: Valves)
    ensures SnapshotOf(v) == SnapshotOf(w) <==> v == w
  {
  }

  /** The `User-Agent` header a new session is given: set only for a non-empty valve. */
  function UserAgentHeader(userAgent: string): (h: Option<string>)
    ensures h.Some? <==> userAgent != ""
    ensures h.Some? ==> h.value == userAgent
  {
    if userAgent != "" then Some(userAgent) else None
  }

  /** An HTTP client session; only whether it is closed, and its User-Agent header, are modelled. */
  class Session {
    var closed: bool
    const userAgent: Option<string>

    constructor (userAgent: Option<string>)
      ensures !closed && this.userAgent == userAgent
    {
      this.userAgent := userAgent;
      closed := false;
    }

    method Close()
      modifies this
      ensures closed
    {
      closed := true;
    }
  }

  class Tools {
    var valves: Valves
    var session: Session?
    var applied: Option<Snapshot>

    /** The session was built for the current valves. */
    ghost predicate Synced()
      reads this
    {
      applied == Some(SnapshotOf(valves))
    }

    /**
     * The object invariant: a session is only ever built right after a
     * sync, and every change of the valves drops it, so the held session
     * carries the User-Agent of the recorded snapshot.
     */
    ghost predicate Valid()
      reads this
    {
      session != null ==> applied.Some? && session.userAgent == UserAgentHeader(applied.value.userAgent)
    }

    /** `_get_session` would hand out the current session rather than build one. */
    ghost predicate Reusable()
      reads this, session
    {
      Synced() && session != null && !session.closed
    }

    constructor ()
      ensures valves == DefaultValves && session == null && Synced() && Valid()
    {
      valves := DefaultValves;
      session := null;
      applied := None;
      new;
      EnsureSynced();
    }

    /**
     * `_ensure_synced`: an unchanged snapshot changes nothing; a changed
     * one closes the open session, drops it and records the new snapshot.
     */
    method EnsureSynced()
      requires Valid()
      modifies this, session
      ensures Valid()
      ensures valves == old(valves) && Synced()
      ensures old(Synced()) ==> session == old(session) && applied == old(applied)
      ensures old(Synced()) && session != null ==> session.closed == old(session.closed)
      ensures !old(Synced()) ==> session == null
      ensures !old(Synced()) && old(session) != null ==> old(session).closed
    {
      var snapshot := SnapshotOf(valves);
      if Some(snapshot) == applied {
        return;
      }
      if session != null && !session.closed {
        session.Close();
      }
      session := null;
      applied := Some(snapshot);
    }

    /**
     * `_get_session`: after syncing, the open session is reused; otherwise
     * a new one is built with the valves' User-Agent.
     */
    method GetSession() returns (s: Session)
      requires Valid()
      modifies this, session
      ensures valves == old(valves) && Synced() && Valid()
      ensures session == s && !s.closed
      ensures s.userAgent == UserAgentHeader(valves.userAgent)
      ensures old(Reusable()) ==> s == old(session)
      ensures !old(Reusable()) ==> fresh(s) && s.userAgent == UserAgentHeader(valves.userAgent)
      ensures !old(Synced()) && old(session) != null ==> old(session).closed
    {
      EnsureSynced();
      if session != null && !session.closed {
        return session;
      }
      s := new Session(UserAgentHeader(valves.userAgent));
      session := s;
    }

    /** `close`: closes the current session, if there is an open one; the reference is kept. */
    method Close()
      modifies session
      ensures session == old(session)
      ensures session != null ==> session.closed
    {
      if session != null && !session.closed {
        session.Close();
      }
    }

    /** `_fetch`: gets the session, then runs the retry loop with the `retries` valve. */
    method Fetch(url: string, hasEmitter: bool, net: Network)
      returns (r: Result<string, FetchError>, events: seq<Event>, waits: seq<nat>)
      requires Valid()
      modifies this, session
      ensures valves == old(valves) && Reusable() && Valid()
      ensures old(Reusable()) ==> session == old(session)
      ensures !old(Reusable()) ==> fresh(session)
      ensures r == Fetcher.Run(url, valves.retries, net).result
      ensures events == Delivered(hasEmitter, Fetcher.Run(url, valves.retries, net).events)
      ensures waits == Fetcher.Run(url, valves.retries, net).waits
    {
      var _ := GetSession();
      r, events, waits := Fetcher.RetryLoop(url, valves.retries, hasEmitter, net);
    }

    /**
     * `scrape(url, return_html)`: syncs, rejects an empty url, fetches,
     * then decides between the raw body and the extracted text.
     */
    method Scrape(url: string, returnHtml: bool, hasEmitter: bool, web: Web, parsers: Parsers)
      returns (r: Result<string, ScrapeError>, events: seq<Event>, waits: seq<nat>)
      requires Valid()
      modifies this, session
      ensures valves == old(valves) && Synced() && Valid()
      ensures url != "" ==> Reusable()
      ensures url != "" && !old(Reusable()) ==> fresh(session)
      ensures url == "" ==> session == (if old(Synced()) then old(session) else null)
      ensures old(Reusable()) ==> Reusable() && session == old(session)
      ensures session != null ==> session == old(session) || fresh(session)
      ensures r == Pipeline.Scrape(valves, url, returnHtml, web, parsers).result
      ensures events == Delivered(hasEmitter, Pipeline.Scrape(valves, url, returnHtml, web, parsers).events)
      ensures waits == Pipeline.Scrape(valves, url, returnHtml, web, parsers).waits
    {
      EnsureSynced();
      if url == "" {
        return Failure(InvalidUrl), [], [];
      }
      ghost var emitted: seq<Event> := [Start(url)];
      events := Emit(hasEmitter, [], [], Start(url));
      var fetched, fetchEvents;
      fetched, fetchEvents, waits := Fetch(url, hasEmitter, web(url));
      ghost var f := Fetcher.Run(url, valves.retries, web(url));
      DeliveredAppend(hasEmitter, emitted, f.events);
      events, emitted := events + fetchEvents, emitted + f.events;
      if fetched.Failure? {
        events := Emit(hasEmitter, events, emitted, FetchFailedFinal(url, fetched.error));
        return Failure(FetchRaised(fetched.error)), events, waits;
      }
      var text;
      text, events := SelectOutput(url, fetched.value, returnHtml, hasEmitter, parsers, events, emitted);
      r := Success(text);
    }

    /**
     * The part of `scrape` after a successful fetch: the JSON, XML and size
     * checks that force the raw body, the `found json` and `done` events,
     * and the choice between the body and the extracted text.
     */
    method SelectOutput(url: string, html: string, returnHtml: bool, hasEmitter: bool, parsers: Parsers,
                        events: seq<Event>, ghost emitted: seq<Event>)
      returns (text: string, delivered: seq<Event>)
      requires events == Delivered(hasEmitter, emitted)
      ensures text == Output(html, returnHtml, parsers.parsesAsJson(html), valves.minSummarySize, parsers.toText)
      ensures delivered == Delivered(hasEmitter, emitted + Finish(url, html, parsers.parsesAsJson(html)))
    {
      delivered := events;
      ghost var sent := emitted;
      var returnRaw := returnHtml;
      var isJson := parsers.parsesAsJson(html);
      if isJson {
        delivered := Emit(hasEmitter, delivered, sent, FoundJson(url));
        sent := sent + [FoundJson(url)];
        returnRaw := true;
      }
      if XmlDeclared(html) {
        returnRaw := true;
      }
      var sizeCheck := valves.minSummarySize;
      if sizeCheck != 0 && |html| <= sizeCheck {
        returnRaw := true;
      }
      delivered := Emit(hasEmitter, delivered, sent, Done(html, url));
      assert sent + [Done(html, url)] == emitted + Finish(url, html, isJson);
      assert returnRaw == (returnHtml || ForcedRaw(html, isJson, valves.minSummarySize));
      if returnRaw {
        return html, delivered;
      }
      var content := parsers.toText(html);
      if content != "" {
        return content, delivered;
      }
      text := html;
    }

    /** `scrape_multi(urls, return_html)`: the scrapes in input order, their texts concatenated. */
    method ScrapeMulti(urls: seq<string>, returnHtml: bool, hasEmitter: bool, web: Web, parsers: Parsers)
      returns (r: Result<string, ScrapeError>, events: seq<Event>, waits: seq<nat>)
      requires Valid()
      modifies this, session
      ensures valves == old(valves) && Valid()
      ensures urls == [] ==> session == old(session) && applied == old(applied)
      ensures urls != [] ==> Synced()
      ensures old(Reusable()) ==> Reusable() && session == old(session)
      ensures session != null ==> session == old(session) || fresh(session)
      ensures r == Multi(valves, urls, returnHtml, web, parsers).result
      ensures events == Delivered(hasEmitter, Multi(valves, urls, returnHtml, web, parsers).events)
      ensures waits == Multi(valves, urls, returnHtml, web, parsers).waits
    {
      var result := "";
      events, waits := [], [];
      ghost var v, s0, a0, reusable := valves, session, applied, Reusable();
      ghost var done := ScrapeRun(Success(""), [], []);
      ghost var total := Multi(v, urls, returnHtml, web, parsers);
      ThenFromNothing(total);
      for i := 0 to |urls|
        invariant valves == v && Valid()
        invariant i == 0 ==> session == s0 && applied == a0
        invariant i > 0 ==> Synced()
        invariant reusable ==> Reusable() && session == s0
        invariant session != null ==> session == s0 || fresh(session)
        invariant done.result == Success(result)
        invariant events == Delivered(hasEmitter, done.events) && waits == done.waits
        invariant total == AndThen(done, Multi(v, urls[i..], returnHtml, web, parsers))
      {
        ghost var run := Pipeline.Scrape(v, urls[i], returnHtml, web, parsers);
        var s, ev, ws := Scrape(urls[i], returnHtml, hasEmitter, web, parsers);
        assert s == run.result && ev == Delivered(hasEmitter, run.events) && ws == run.waits;
        MultiStep(v, urls, i, returnHtml, web, parsers, done);
        DeliveredAppend(hasEmitter, done.events, run.events);
        done := Then(done, run);
        events := events + ev;
        waits := waits + ws;
        if s.Failure? {
          return s, events, waits;
        }
        result := result + s.value;
      }
      assert urls[|urls|..] == [];
      ThenNothing(done);
      r := Success(result);
    }

    /** `wikipedia(page, return_html, lang)`: scrapes the extracts query for `page`. */
    method Wikipedia(page: string, returnHtml: bool, lang: string, hasEmitter: bool, web: Web, parsers: Parsers)
      returns (r: Result<string, ScrapeError>, events: seq<Event>, waits: seq<nat>)
      requires Valid()
      modifies this, session
      ensures valves == old(valves) && Reusable() && Valid()
      ensures old(Reusable()) ==> session == old(session)
      ensures !old(Reusable()) ==> fresh(session)
      ensures r == Pipeline.Scrape(valves, WikipediaUrl(lang, page), returnHtml, web, parsers).result
      ensures r != Failure(InvalidUrl)
      ensures events == Delivered(hasEmitter, Pipeline.Scrape(valves, WikipediaUrl(lang, page), returnHtml, web, parsers).events)
      ensures waits == Pipeline.Scrape(valves, WikipediaUrl(lang, page), returnHtml, web, parsers).waits
    {
      r, events, waits := Scrape(WikipediaUrl(lang, page), returnHtml, hasEmitter, web, parsers);
      ScrapeOutline(valves, WikipediaUrl(lang, page), returnHtml, web, parsers);
    }

    /**
     * `wikipedia_multi(pages, return_html)`: each page through
     * `wikipedia(page=page)`, so with `return_html` left at True, `lang`
     * at "en" and no emitter, whatever the caller passed.
     */
    method WikipediaMulti(pages: seq<string>, returnHtml: bool, hasEmitter: bool, web: Web, parsers: Parsers)
      returns (r: Result<string, ScrapeError>, events: seq<Event>, waits: seq<nat>)
      requires Valid()
      modifies this, session
      ensures valves == old(valves) && Valid()
      ensures pages == [] ==> session == old(session) && applied == old(applied)
      ensures pages != [] ==> Reusable()
      ensures old(Reusable()) ==> Reusable() && session == old(session)
      ensures session != null ==> session == old(session) || fresh(session)
      ensures r == Multi(valves, WikipediaUrls("en", pages), true, web, parsers).result
      ensures waits == Multi(valves, WikipediaUrls("en", pages), true, web, parsers).waits
      ensures events == []
    {
      var result := "";
      events, waits := [], [];
      ghost var urls := WikipediaUrls("en", pages);
      ghost var v, s0, a0, reusable := valves, session, applied, Reusable();
      ghost var done := ScrapeRun(Success(""), [], []);
      ghost var total := Multi(v, urls, true, web, parsers);
      ThenFromNothing(total);
      for i := 0 to |pages|
        invariant valves == v && Valid()
        invariant i == 0 ==> session == s0 && applied == a0
        invariant i > 0 ==> Reusable()
        invariant reusable ==> Reusable() && session == s0
        invariant session != null ==> session == s0 || fresh(session)
        invariant done.result == Success(result) && waits == done.waits
        invariant total == AndThen(done, Multi(v, urls[i..], true, web, parsers))
      {
        var s, _, ws := Wikipedia(pages[i], true, "en", false, web, parsers);
        MultiStep(v, urls, i, true, web, parsers, done);
        done := Then(done, Pipeline.Scrape(v, urls[i], true, web, parsers));
        waits := waits + ws;
        if s.Failure? {
          return s, [], waits;
        }
        result := result + s.value;
      }
      assert urls[|urls|..] == [];
      ThenNothing(done);
      r := Success(result);
    }
  }

  /** While the valves are unchanged, `_get_session` keeps handing out the same open session. */
  method SessionIsReused(t: Tools) returns (first: Session, second: Session)
    requires t.Valid()
    modifies t, t.session
    ensures first == second && !second.closed
  {
    first := t.GetSession();
    second := t.GetSession();
  }

  /**
   * Changing a valve makes the next `_get_session` close the old session
   * and build a new one with the new User-Agent.
   */
  method ValveChangeRebuildsSession(t: Tools, v: Valves) returns (s: Session)
    requires t.Valid() && t.Synced() && v != t.valves
    modifies t, t.session
    ensures fresh(s) && s.userAgent == UserAgentHeader(v.userAgent) && t.session == s
    ensures old(t.session) != null ==> old(t.session).closed
  {
    t.valves := v;
    s := t.GetSession();
  }
}
