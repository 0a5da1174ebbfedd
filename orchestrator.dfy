/**
 * The job bookkeeping of the API server (backend/app/main.py): the table of
 * clone requests, the background job that moves a request through its
 * statuses, the HTML endpoint's guards, and the bus that pushes status
 * updates to the WebSocket subscribers of each request.
 */
module Orchestrator {
  import opened Wrappers
  import opened Cloner

  // ---------------------------------------------------------------- the notification bus

  /** A subscriber's WebSocket, told apart by identity. */
  datatype Socket = Socket(id: nat)

  /** The bus invariant: a request id that is present has at least one subscriber. */
  predicate NonEmptySets(m: map<string, set<Socket>>)
  {
    forall id | id in m :: m[id] != {}
  }

  /** `connect`: the socket joins the set of its request id, which is created when missing. */
  function Added(m: map<string, set<Socket>>, id: string, ws: Socket): map<string, set<Socket>>
  {
    m[id := (if id in m then m[id] else {}) + {ws}]
  }

  /** The sockets `gone` leave the set of `id`; an emptied set is deleted with its key. */
  function Removed(m: map<string, set<Socket>>, id: string, gone: set<Socket>): map<string, set<Socket>>
  {
    if id !in m then m
    else if m[id] - gone == {} then m - {id}
    else m[id := m[id] - gone]
  }

  /** Connecting keeps the invariant, subscribes the socket and leaves every other id alone. */
  lemma {:induction false} AddedFacts(m: map<string, set<Socket>>, id: string, ws: Socket)
    ensures NonEmptySets(m) ==> NonEmptySets(Added(m, id, ws))
    ensures id in Added(m, id, ws) && Added(m, id, ws)[id] == (if id in m then m[id] else {}) + {ws}
    ensures forall k | k != id :: (k in Added(m, id, ws) <==> k in m) && (k in m ==> Added(m, id, ws)[k] == m[k])
  {
  }

  /**
   * Removing keeps the invariant; the id stays exactly when some of its sockets
   * remain, and then holds exactly those; every other id is left alone.
   */
  lemma {:induction false} RemovedFacts(m: map<string, set<Socket>>, id: string, gone: set<Socket>)
    ensures NonEmptySets(m) ==> NonEmptySets(Removed(m, id, gone))
    ensures id in Removed(m, id, gone) <==> id in m && m[id] - gone != {}
    ensures id in Removed(m, id, gone) ==> Removed(m, id, gone)[id] == m[id] - gone
    ensures forall k | k != id :: (k in Removed(m, id, gone) <==> k in m) && (k in m ==> Removed(m, id, gone)[k] == m[k])
  {
  }

  /** Removing a socket that is not subscribed, or from an unknown id, changes nothing. */
  lemma {:induction false} RemovedAbsent(m: map<string, set<Socket>>, id: string, ws: Socket)
    requires NonEmptySets(m)
    requires id !in m || ws !in m[id]
    ensures Removed(m, id, {ws}) == m
  {
    if id in m {
      assert m[id] - {ws} == m[id];
      assert m[id := m[id]] == m;
    }
  }

  /** Removing in two goes is removing the union. */
  lemma {:induction false} RemovedInTurn(m: map<string, set<Socket>>, id: string, a: set<Socket>, b: set<Socket>)
    ensures Removed(Removed(m, id, a), id, b) == Removed(m, id, a + b)
  {
    if id in m {
      assert m[id] - a - b == m[id] - (a + b);
      if m[id] - a != {} {
        var r := m[id := m[id] - a];
        if m[id] - (a + b) == {} {
          assert r - {id} == m - {id};
        } else {
          assert r[id := m[id] - (a + b)] == m[id := m[id] - (a + b)];
        }
      }
    }
  }

  /** Only the subscribed sockets of a removal matter. */
  lemma {:induction false} RemovedSubscribed(m: map<string, set<Socket>>, id: string, gone: set<Socket>)
    requires id in m
    ensures Removed(m, id, m[id] * gone) == Removed(m, id, gone)
  {
    assert m[id] - m[id] * gone == m[id] - gone;
  }

  /** Disconnecting a socket that has just connected restores the bus. */
  lemma {:induction false} ConnectThenDisconnect(m: map<string, set<Socket>>, id: string, ws: Socket)
    requires NonEmptySets(m)
    requires id !in m || ws !in m[id]
    ensures Removed(Added(m, id, ws), id, {ws}) == m
  {
    var a := Added(m, id, ws);
    if id in m {
      assert a[id] - {ws} == m[id];
      assert m[id := m[id]] == m;
    } else {
      assert a[id] - {ws} == {};
      assert a - {id} == m;
    }
  }

  /** `ConnectionManager`: the subscribers of each request id. */
  class ConnectionManager {
    var active: map<string, set<Socket>>

    ghost predicate Valid()
      reads this
    {
      NonEmptySets(active)
    }

    constructor ()
      ensures Valid() && active == map[]
    {
      active := map[];
    }

    /** `connect`, after the socket has been accepted. */
    method Connect(ws: Socket, id: string)
      requires Valid()
      modifies this
      ensures Valid()
      ensures active == Added(old(active), id, ws)
    {
      if id !in active {
        active := active[id := {}];
      }
      active := active[id := active[id] + {ws}];
    }

    /** `disconnect`: drop the socket, and the id with it once nobody is left. */
    method Disconnect(ws: Socket, id: string)
      requires Valid()
      modifies this
      ensures Valid()
      ensures active == Removed(old(active), id, {ws})
    {
      if id in active {
        var remaining := active[id] - {ws};
        active := active[id := remaining];
        if remaining == {} {
          active := active - {id};
        }
      }
    }

    /**
     * `broadcast_status`: send `data` to every subscriber of `id`, then disconnect
     * the ones whose send raised; `failing` are the sockets whose send raises.
     * `delivered` are the subscribers that received the message.
     */
    method BroadcastStatus(id: string, data: Event, failing: set<Socket>) returns (delivered: set<Socket>)
      requires Valid()
      modifies this
      ensures Valid()
      ensures delivered == (if id in old(active) then old(active)[id] - failing else {})
      ensures active == Removed(old(active), id, failing)
    {
      delivered := {};
      if id in active {
        var subscribers := active[id];
        var rest := subscribers;
        var disconnected: set<Socket> := {};
        while rest != {}
          invariant rest <= subscribers
          invariant disconnected == (subscribers - rest) * failing
          invariant delivered == (subscribers - rest) - failing
          decreases rest
        {
          var ws :| ws in rest;
          if ws in failing {
            disconnected := disconnected + {ws};
          } else {
            delivered := delivered + {ws};
          }
          rest := rest - {ws};
        }
        var pending := disconnected;
        assert old(active)[id] - {} == old(active)[id];
        assert old(active)[id := old(active)[id]] == old(active);
        assert disconnected - pending == {};
        assert Removed(old(active), id, {}) == old(active);
        while pending != {}
          invariant pending <= disconnected
          invariant Valid()
          invariant active == Removed(old(active), id, disconnected - pending)
          decreases pending
        {
          var ws :| ws in pending;
          RemovedInTurn(old(active), id, disconnected - pending, {ws});
          Disconnect(ws, id);
          assert (disconnected - pending) + {ws} == disconnected - (pending - {ws});
          pending := pending - {ws};
        }
        assert disconnected - pending == old(active)[id] * failing;
        RemovedSubscribed(old(active), id, failing);
      }
    }
  }

  // ---------------------------------------------------------------- the request table

  datatype Status = Pending | Scraping | Cloning | Completed | Failed

  function StatusName(s: Status): string
  {
    match s
    case Pending => "pending"
    case Scraping => "scraping"
    case Cloning => "cloning"
    case Completed => "completed"
    case Failed => "failed"
  }

  /**
   * An entry of `clone_requests`. `result` is `None` until the job ends; then it
   * is the cloner's dictionary, or `{"error": …}`, which is `CloneError`.
   */
  datatype Record = Record(
    requestId: string, url: string, submittedAt: string, options: map<string, string>,
    status: Status, result: Option<CloneResult>, completedAt: Option<string>)

  /** A status message pushed to the subscribers of a request. */
  datatype Event = Event(
    requestId: string, status: Status, url: Option<string>, message: Option<string>, error: Option<string>)

  /** The answer to a clone submission. */
  datatype SubmitResponse = SubmitResponse(requestId: string, status: Status, url: string)

  /**
   * What scraping gives: the scraped dictionary, a dictionary with an `error`
   * key, or an exception with its message.
   */
  datatype ScrapeOutcome = Scraped(data: Payload) | ScrapeReturnedError(error: string) | ScrapeRaised(message: string)

  function ScrapingEvent(id: string, url: string): Event
  {
    Event(id, Scraping, Some(url), Some("Scraping website content..."), None)
  }

  function CloningEvent(id: string, url: string): Event
  {
    Event(id, Cloning, Some(url), Some("Generating clone with AI..."), None)
  }

  function FailedEvent(id: string, error: string): Event
  {
    Event(id, Failed, None, None, Some(error))
  }

  function CompletedEvent(id: string, url: string): Event
  {
    Event(id, Completed, Some(url), None, None)
  }

  /** The error a failed scrape reports. */
  function ScrapeFailure(s: ScrapeOutcome): string
    requires !s.Scraped?
  {
    if s.ScrapeReturnedError? then s.error else s.message
  }

  /** The messages `process_clone_request` broadcasts for a known request, in order. */
  function JobEvents(id: string, url: string, scrape: ScrapeOutcome, cloneOf: Payload -> CloneResult): seq<Event>
  {
    if !scrape.Scraped? then [ScrapingEvent(id, url), FailedEvent(id, ScrapeFailure(scrape))]
    else
      match cloneOf(scrape.data)
      case CloneError(e) => [ScrapingEvent(id, url), CloningEvent(id, url), FailedEvent(id, e)]
      case Cloned(_, _, _, _, _) => [ScrapingEvent(id, url), CloningEvent(id, url), CompletedEvent(id, url)]
  }

  /** The record once the job is over. */
  function Finished(r: Record, scrape: ScrapeOutcome, cloneOf: Payload -> CloneResult, now: string): Record
  {
    if !scrape.Scraped? then r.(status := Failed, result := Some(CloneError(ScrapeFailure(scrape))))
    else
      var c := cloneOf(scrape.data);
      if c.CloneError? then r.(status := Failed, result := Some(CloneError(c.error)))
      else r.(status := Completed, result := Some(c), completedAt := Some(now))
  }

  /** The transitions a job may take. */
  predicate Step(a: Status, b: Status)
  {
    || (a == Pending && b == Scraping)
    || (a == Scraping && (b == Cloning || b == Failed))
    || (a == Cloning && (b == Completed || b == Failed))
  }

  predicate Forward(trace: seq<Status>)
  {
    forall i | 0 <= i < |trace| - 1 :: Step(trace[i], trace[i + 1])
  }

  function Statuses(events: seq<Event>): (r: seq<Status>)
    ensures |r| == |events| && forall i | 0 <= i < |events| :: r[i] == events[i].status
  {
    if events == [] then [] else [events[0].status] + Statuses(events[1..])
  }

  /**
   * A job goes pending, scraping, then cloning or failed, then completed or
   * failed; its messages follow the same steps and never announce "pending";
   * the last message matches the stored status, and a failure message carries
   * the error stored in the result. Only status, result and, on completion
   * alone, the completion time change.
   */
  lemma {:induction false} JobTrace(id: string, url: string, r: Record, scrape: ScrapeOutcome,
                 cloneOf: Payload -> CloneResult, now: string)
    ensures var events := JobEvents(id, url, scrape, cloneOf);
      var f := Finished(r, scrape, cloneOf, now);
      && Forward([Pending] + Statuses(events))
      && (forall i | 0 <= i < |events| :: events[i].status != Pending && events[i].requestId == id)
      && 2 <= |events| && events[0].status == Scraping
      && events[|events| - 1].status == f.status
      && (f.status == Completed || f.status == Failed)
      && (f.status == Completed <==> scrape.Scraped? && cloneOf(scrape.data).Cloned?)
      && (f.status == Failed ==>
            f.result.Some? && f.result.value.CloneError? && events[|events| - 1].error == Some(f.result.value.error))
      && (f.status == Completed ==> f.result == Some(cloneOf(scrape.data)))
      && f.completedAt == (if f.status == Completed then Some(now) else r.completedAt)
      && f.(status := r.status, result := r.result, completedAt := r.completedAt) == r
  {
    var events := JobEvents(id, url, scrape, cloneOf);
    var trace := [Pending] + Statuses(events);
    if !scrape.Scraped? {
      assert trace == [Pending, Scraping, Failed];
    } else if cloneOf(scrape.data).CloneError? {
      assert trace == [Pending, Scraping, Cloning, Failed];
    } else {
      assert trace == [Pending, Scraping, Cloning, Completed];
    }
  }

  /** A failed or completed record has its result. */
  predicate Settled(r: Record)
  {
    (r.status == Failed ==> r.result.Some? && r.result.value.CloneError?)
    && (r.status == Completed ==> r.result.Some?)
  }

  /** What `GET /api/clone/{id}/html` answers. */
  datatype HtmlResponse = Html(body: string) | HttpError(code: int, detail: string)

  /** The global request table together with the bus. */
  class CloneService {
    var requests: map<string, Record>
    const manager: ConnectionManager

    ghost predicate Valid()
      reads this, manager
    {
      manager.Valid() && forall id | id in requests :: Settled(requests[id])
    }

    constructor ()
      ensures Valid() && requests == map[] && manager.active == map[]
    {
      requests := map[];
      manager := new ConnectionManager();
    }

    /** `POST /api/clone`: record the request as pending under its fresh id. */
    method Submit(id: string, url: string, options: map<string, string>, submittedAt: string)
      returns (response: SubmitResponse)
      requires Valid()
      modifies this
      ensures Valid()
      ensures requests == old(requests)[id := Record(id, url, submittedAt, options, Pending, None, None)]
      ensures response == SubmitResponse(id, Pending, url)
    {
      requests := requests[id := Record(id, url, submittedAt, options, Pending, None, None)];
      response := SubmitResponse(id, Pending, url);
    }

    /**
     * `process_clone_request`: nothing for an unknown id; otherwise mark the
     * record scraping, scrape, mark it cloning, clone, and store the outcome,
     * broadcasting each status. `scrape` and `cloneOf` stand for the scraper and
     * the cloner; `atScraping`, `atCloning` and `atEnd` are the subscribers whose
     * send raises during the scraping, the cloning and the final broadcast, each
     * broadcast failing on its own; `now` is the completion time.
     */
    method ProcessCloneRequest(id: string, url: string, scrape: ScrapeOutcome, cloneOf: Payload -> CloneResult,
                               atScraping: set<Socket>, atCloning: set<Socket>, atEnd: set<Socket>, now: string)
      returns (events: seq<Event>)
      requires Valid()
      modifies this, manager
      ensures Valid()
      ensures id !in old(requests) ==>
        requests == old(requests) && events == [] && manager.active == old(manager.active)
      ensures id in old(requests) ==>
        && requests == old(requests)[id := Finished(old(requests)[id], scrape, cloneOf, now)]
        && events == JobEvents(id, url, scrape, cloneOf)
      ensures id in old(requests) && !scrape.Scraped? ==>
        manager.active == Removed(Removed(old(manager.active), id, atScraping), id, atEnd)
      ensures id in old(requests) && scrape.Scraped? ==>
        manager.active == Removed(Removed(Removed(old(manager.active), id, atScraping), id, atCloning), id, atEnd)
      ensures id in old(requests) ==>
        manager.active == Removed(old(manager.active), id, atScraping + (if scrape.Scraped? then atCloning else {}) + atEnd)
    {
      if id !in requests {
        return [];
      }
      ghost var start := manager.active;
      var record := requests[id].(status := Scraping);
      Announce(id, record, ScrapingEvent(id, url), atScraping);
      events := [ScrapingEvent(id, url)];
      if !scrape.Scraped? {
        record := record.(status := Failed, result := Some(CloneError(ScrapeFailure(scrape))));
        Announce(id, record, FailedEvent(id, ScrapeFailure(scrape)), atEnd);
        events := events + [FailedEvent(id, ScrapeFailure(scrape))];
        RemovedInTurn(start, id, atScraping, atEnd);
        assert atScraping + {} + atEnd == atScraping + atEnd;
        return;
      }
      record := record.(status := Cloning);
      Announce(id, record, CloningEvent(id, url), atCloning);
      events := events + [CloningEvent(id, url)];
      var cloneResult := cloneOf(scrape.data);
      if cloneResult.CloneError? {
        record := record.(status := Failed, result := Some(CloneError(cloneResult.error)));
        Announce(id, record, FailedEvent(id, cloneResult.error), atEnd);
        events := events + [FailedEvent(id, cloneResult.error)];
      } else {
        record := record.(status := Completed, result := Some(cloneResult), completedAt := Some(now));
        Announce(id, record, CompletedEvent(id, url), atEnd);
        events := events + [CompletedEvent(id, url)];
      }
      RemovedInTurn(start, id, atScraping, atCloning);
      RemovedInTurn(start, id, atScraping + atCloning, atEnd);
    }

    /** One step of the job: store the record's new state, then broadcast it. */
    method Announce(id: string, record: Record, event: Event, failing: set<Socket>)
      requires Valid() && Settled(record)
      modifies this, manager
      ensures Valid()
      ensures requests == old(requests)[id := record]
      ensures manager.active == Removed(old(manager.active), id, failing)
    {
      requests := requests[id := record];
      var delivered := manager.BroadcastStatus(id, event, failing);
    }

    /** `GET /api/clone/{id}/html`: the stored HTML of a completed request, or the guard that refuses. */
    function CloneHtml(id: string): (r: HtmlResponse)
      reads this
      ensures (r.HttpError? && r.code == 404) <==> id !in requests
      ensures r.Html? <==>
        && id in requests && requests[id].status == Completed
        && requests[id].result.Some? && requests[id].result.value.Cloned?
        && requests[id].result.value.clonedHtml != ""
      ensures r.Html? ==> r.body == requests[id].result.value.clonedHtml && r.body != ""
      ensures id in requests && requests[id].status != Completed ==>
        r == HttpError(400, "Clone request is not completed (status: " + StatusName(requests[id].status) + ")")
      ensures r.HttpError? ==> r.code == 404 || r.code == 400
    {
      if id !in requests then HttpError(404, "Clone request not found")
      else
        var record := requests[id];
        if record.status != Completed then
          HttpError(400, "Clone request is not completed (status: " + StatusName(record.status) + ")")
        else if record.result.None? || !record.result.value.Cloned? || record.result.value.clonedHtml == "" then
          HttpError(400, "No HTML content available")
        else Html(record.result.value.clonedHtml)
    }

    /**
     * The status message a new subscriber is sent first: none for an unknown
     * request; otherwise its status and url, and for a failed request the
     * stored error, or "Unknown error" when the stored result has none.
     */
    function InitialSnapshot(id: string): (r: Option<Event>)
      reads this
      ensures r.Some? <==> id in requests
      ensures r.Some? ==> r.value.status == requests[id].status && r.value.url == Some(requests[id].url)
      ensures r.Some? && r.value.error.Some? ==> requests[id].status == Failed
      ensures id in requests && requests[id].status == Failed && requests[id].result.Some? ==>
        r.value.error == Some(if requests[id].result.value.CloneError? then requests[id].result.value.error
                              else "Unknown error")
    {
      if id !in requests then None
      else
        var record := requests[id];
        var error := if record.status == Failed && record.result.Some? then
          Some(match record.result.value
               case CloneError(e) => e
               case Cloned(_, _, _, _, _) => "Unknown error")
          else None;
        Some(Event(id, record.status, Some(record.url), None, error))
    }

    /** In the table every failed request's snapshot carries its stored error. */
    lemma {:induction false} FailedSnapshotCarriesError(id: string)
      requires Valid()
      requires id in requests && requests[id].status == Failed
      ensures InitialSnapshot(id).Some? && InitialSnapshot(id).value.error == Some(requests[id].result.value.error)
    {
      assert Settled(requests[id]);
    }

    /** The WebSocket endpoint's opening: subscribe, then take the snapshot to send. */
    method Subscribe(ws: Socket, id: string) returns (snapshot: Option<Event>)
      requires Valid()
      modifies manager
      ensures Valid()
      ensures manager.active == Added(old(manager.active), id, ws)
      ensures snapshot == InitialSnapshot(id)
    {
      manager.Connect(ws, id);
      snapshot := InitialSnapshot(id);
    }

    /** The WebSocket endpoint's closing, on the client's disconnect. */
    method Unsubscribe(ws: Socket, id: string)
      requires Valid()
      modifies manager
      ensures Valid()
      ensures manager.active == Removed(old(manager.active), id, {ws})
    {
      manager.Disconnect(ws, id);
    }
  }
}
