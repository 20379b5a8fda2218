/**
 * Values shared by the scraper model: the tool's configuration ("valves"),
 * the outcome of one HTTP GET, the errors the scraper raises and the
 * progress events it sends to an emitter.
 */
module ScraperTypes {

  datatype Option<+T> = None | Some(value: T)

  datatype Result<+T, +E> = Success(value: T) | Failure(error: E)

  /** The user-editable configuration of the tool (main.py:69-83). */
  datatype Valves = Valves(userAgent: string, retries: int, timeout: int, minSummarySize: int)

  /** The 4-tuple that `_valves_snapshot` builds, compared by value. */
  datatype Snapshot = Snapshot(userAgent: string, retries: int, timeout: int, minSummarySize: int)

  /**
   * What the network answers to one GET: a response with its status and
   * decoded text, or an exception raised while connecting, waiting
   * (timeout) or reading the body.
   */
  datatype Reply = Response(status: int, text: string) | Raised(message: string)

  /** Why an attempt failed: `raise_for_status` on a status >= 400, or an exception. */
  datatype Cause = HttpStatus(status: int) | Error(message: string)

  /** `Exception(f"Failed to fetch {url}: {last_exc}")`; `last` is None when no attempt ran. */
  datatype FetchError = FetchError(url: string, last: Option<Cause>)

  /** The two exceptions `scrape` lets escape: the ValueError for a missing url, and the re-raised fetch failure. */
  datatype ScrapeError = InvalidUrl | FetchRaised(cause: FetchError)

  /** Progress events, in the shape of the dictionaries passed to `_emit`. Waits are in milliseconds. */
  datatype Event =
    | Start(url: string)
    | FetchAttempt(attempt: nat, url: string)
    | Fetched(status: int, url: string)
    | FetchRetry(attempt: nat, waitMs: nat, error: Cause)
    | FetchFailed(attempt: nat, error: Cause)
    | FetchFailedFinal(url: string, failure: FetchError)
    | FoundJson(url: string)
    | Done(result: string, url: string)

  /** The reply to the GET made on each 1-based attempt for one URL. */
  type Network = nat -> Reply

  /** The network as seen by the scraper: the replies for each URL. */
  type Web = string -> Network

  /** The foreign libraries, left uninterpreted: does `json.loads` accept the text, and what `html2text` returns. */
  datatype Parsers = Parsers(parsesAsJson: string -> bool, toText: string -> string)

  /** `raise_for_status` lets a response through only when its status is below 400. */
  predicate Succeeds(reply: Reply)
  {
    reply.Response? && reply.status < 400
  }

  function CauseOf(reply: Reply): Cause
    requires !Succeeds(reply)
  {
    if reply.Response? then HttpStatus(reply.status) else Error(reply.message)
  }

  /** Every `_emit` call sits under `if emitter:`; with no emitter nothing is delivered. */
  function Delivered(hasEmitter: bool, events: seq<Event>): seq<Event>
  {
    if hasEmitter then events else []
  }

  /**
   * `if emitter: await self._emit(emitter, event)`: the event reaches the
   * emitter only when there is one, after everything emitted before it.
   */
  method Emit(hasEmitter: bool, events: seq<Event>, ghost emitted: seq<Event>, event: Event)
    returns (delivered: seq<Event>)
    requires events == Delivered(hasEmitter, emitted)
    ensures delivered == Delivered(hasEmitter, emitted + [event])
  {
    delivered := events;
    if hasEmitter {
      delivered := events + [event];
    }
  }

  /** Delivery distributes over concatenation: events emitted in two stretches arrive in two stretches. */
  lemma DeliveredAppend(hasEmitter: bool, first: seq<Event>, rest: seq<Event>)
    ensures Delivered(hasEmitter, first + rest) == Delivered(hasEmitter, first) + Delivered(hasEmitter, rest)
  {
  }
}
