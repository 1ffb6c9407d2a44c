/** src/routes/evaluate.js: ingest one request into `app.locals.ipEvents`,
    then score the updated history with the shared detection engine. */
module EvaluateRoute {
  import opened JsValues
  import opened Types
  import opened Ledger
  import Windows
  import Scoring
  import Detection
  import EventRoute

  datatype EvaluateResponse = EvaluateResponse(ok: bool, ip: string, decision: Decision, stats: Stats)

  /** `getClientIp`, as in the event route: a non-empty forwarded-for header
      gives its first comma token, trimmed; anything else gives `req.ip`. */
  function GetClientIp(req: Request): (ip: string)
    ensures req.forwardedFor.Some? && req.forwardedFor.value != "" ==>
              ip == Trim(FirstCommaToken(req.forwardedFor.value)) && ',' !in ip
    ensures req.forwardedFor.None? || req.forwardedFor.value == "" ==> ip == req.ip
  {
    var xff := req.forwardedFor;
    if xff.Some? && |xff.value| > 0 then
      FirstTokenTrimmedHasNoComma(xff.value);
      Trim(FirstCommaToken(xff.value))
    else req.ip
  }

  /** The event this route records: every field prefers the body's string
      value; user agent and language then fall back to the header, then to "". */
  function EvaluatedEvent(req: Request, ip: string, now: int): Event
  {
    Event(ip,
          Some(StringOr(req.body.path, req.originalUrl)),
          StringOr(req.body.verb, req.verb),
          StringOr(req.body.userAgent, StringOr(req.userAgent, "")),
          StringOr(req.body.acceptLanguage, StringOr(req.acceptLanguage, "")),
          Num(now))
  }

  /** `app.locals`: the shared history map and its configured cap. */
  class AppLocals {
    var ipEvents: map<string, seq<Event>>
    var maxEventsPerIp: int

    constructor (cap: int)
      ensures ipEvents == map[] && maxEventsPerIp == cap
    {
      ipEvents := map[];
      maxEventsPerIp := cap;
    }

    /** Get-or-create, push, splice: the history of `ip` keeps the newest `maxEventsPerIp` events. */
    method Record(ip: string, evt: Event) returns (events: seq<Event>)
      modifies this
      ensures maxEventsPerIp == old(maxEventsPerIp)
      ensures ipEvents == Recorded(old(ipEvents), ip, evt, maxEventsPerIp)
      ensures ip in ipEvents && events == ipEvents[ip]
    {
      if ip !in ipEvents {
        ipEvents := ipEvents[ip := []];
      }
      events := ipEvents[ip];
      events := events + [evt];
      if |events| > maxEventsPerIp {
        events := SpliceFront(events, |events| - maxEventsPerIp);
      }
      ipEvents := ipEvents[ip := events];
    }

    /** POST /: record the request, then stats and decision over the updated list. */
    method Evaluate(req: Request, now: int) returns (resp: EvaluateResponse)
      modifies this
      ensures maxEventsPerIp == old(maxEventsPerIp)
      ensures ipEvents == Recorded(old(ipEvents), GetClientIp(req), EvaluatedEvent(req, GetClientIp(req), now), maxEventsPerIp)
      ensures resp.ok && resp.ip == GetClientIp(req)
      ensures resp.stats == Detection.StatsOf(Detection.Array(ipEvents[GetClientIp(req)]), now)
      ensures resp.decision == Scoring.Decide(resp.stats)
    {
      var ip := GetClientIp(req);
      var evt := EvaluatedEvent(req, ip, now);
      var events := Record(ip, evt);
      var stats := Detection.ComputeStats(Detection.Array(events), now);
      var decision := Detection.DecideFromStats(stats);
      resp := EvaluateResponse(true, ip, decision, stats);
    }
  }

  /** Both in-memory routes resolve the same client IP. */
  lemma ClientIpAsInEventRoute(req: Request)
    ensures GetClientIp(req) == EventRoute.GetClientIp(req)
  {
  }

  /** Field defaulting: the body's string value wins; without one, this
      route records what the event route records. */
  lemma FieldDefaults(req: Request, ip: string, now: int)
    ensures var e, f := EvaluatedEvent(req, ip, now), EventRoute.IngestedEvent(req, ip, now);
      && e.path == f.path && e.verb == f.verb && e.timestamp == f.timestamp == Num(now)
      && (req.body.userAgent.Some? ==> e.userAgent == req.body.userAgent.value)
      && (req.body.userAgent.None? ==> e.userAgent == f.userAgent)
      && (req.body.acceptLanguage.Some? ==> e.acceptLanguage == req.body.acceptLanguage.value)
      && (req.body.acceptLanguage.None? ==> e.acceptLanguage == f.acceptLanguage)
      && (req.userAgent.None? && req.body.userAgent.None? ==> e.userAgent == "")
      && (req.acceptLanguage.None? && req.body.acceptLanguage.None? ==> e.acceptLanguage == "")
  {
  }

  /** With a positive cap the current request is in the list the stats are
      computed over, so both windows count it; a cap of zero or less empties
      the list and the stats are zero. */
  lemma CurrentRequestCounted(m: map<string, seq<Event>>, req: Request, now: int, cap: int)
    ensures var ip := GetClientIp(req);
      var st := Detection.StatsOf(Detection.Array(Lookup(Recorded(m, ip, EvaluatedEvent(req, ip, now), cap), ip)), now);
      && (cap >= 1 ==> st.count10s >= 1 && st.count60s >= 1)
      && (cap <= 0 ==> st == ZeroStats)
  {
    var ip := GetClientIp(req);
    var evt := EvaluatedEvent(req, ip, now);
    assert Lookup(Recorded(m, ip, evt, cap), ip) == PushBounded(Lookup(m, ip), evt, cap);
    PushedEventCounted(Lookup(m, ip), evt, now, cap);
  }

  lemma PushedEventCounted(s: seq<Event>, evt: Event, now: int, cap: int)
    requires evt.timestamp == Num(now)
    ensures var st := Detection.StatsOf(Detection.Array(PushBounded(s, evt, cap)), now);
      && (cap >= 1 ==> st.count10s >= 1 && st.count60s >= 1)
      && (cap <= 0 ==> st == ZeroStats)
  {
    var h := PushBounded(s, evt, cap);
    if cap >= 1 {
      PushBoundedShape(s, evt, cap);
      assert h[|h| - 1] == evt;
      Detection.CurrentEventCounted(h, evt, now);
    } else {
      PushBoundedIsNewest(s, evt, cap);
      assert h == [];
      assert Detection.FilterEventsByWindow(Detection.Array([]), now, Detection.Window10s) == [];
      assert Detection.FilterEventsByWindow(Detection.Array([]), now, Detection.Window60s) == [];
      assert Windows.PathSet([]) == {};
    }
  }
}
