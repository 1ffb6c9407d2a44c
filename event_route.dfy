/** src/routes/event.js: the in-memory ingestion route with its own copies
    of the window filter (a loop checking `typeof timestamp === "number"`),
    of `computeStats` and of `decideFromStats`, and the stats and decision
    lookups. */
module EventRoute {
  import opened JsValues
  import opened Types
  import opened Windows
  import opened Ledger
  import Scoring
  import Detection

  const MaxEventsPerIp := 200

  datatype EventResponse = EventResponse(ok: bool, ip: string, storedForIp: nat)
  datatype StatsResponse = StatsResponse(ok: bool, ip: string, totalEventsStored: nat, stats: Stats)
  datatype DecisionResponse = DecisionResponse(ok: bool, ip: string, decision: Decision, stats: Stats)

  /** `getClientIp`: a non-empty forwarded-for header gives its first comma
      token, trimmed; anything else gives `req.ip`. */
  function GetClientIp(req: Request): (ip: string)
    ensures req.forwardedFor.Some? && req.forwardedFor.value != "" ==>
              ip == Trim(FirstCommaToken(req.forwardedFor.value)) && ',' !in ip
    ensures req.forwardedFor.None? || req.forwardedFor.value == "" ==> ip == req.ip
  {
    var xff := req.forwardedFor;
    if xff.Some? && |xff.value| > 0 then
      FirstTokenTrimmedHasNoComma(xff.value);
      Trim(FirstCommaToken(xff.value))
    else req.ip
  }

  /** The IP a stats or decision lookup is about: the trimmed `?ip=` when
      that is non-empty, the client IP otherwise. */
  function QueriedIp(req: Request): (ip: string)
    ensures req.queryIp.Some? && Trim(req.queryIp.value) != "" ==> ip == Trim(req.queryIp.value)
    ensures req.queryIp.None? || Trim(req.queryIp.value) == "" ==> ip == GetClientIp(req)
  {
    var ipQuery := if req.queryIp.Some? then Trim(req.queryIp.value) else "";
    if |ipQuery| > 0 then ipQuery else GetClientIp(req)
  }

  /** The event POST / records: body path and method when they are strings,
      request metadata otherwise, headers for user agent and language. */
  function IngestedEvent(req: Request, ip: string, now: int): Event
  {
    Event(ip, Some(StringOr(req.body.path, req.originalUrl)), StringOr(req.body.verb, req.verb),
          StringOr(req.userAgent, ""), StringOr(req.acceptLanguage, ""), Num(now))
  }

  /** The loop-based `filterEventsByWindow`. */
  method FilterEventsByWindow(events: seq<Event>, now: int, windowMs: int) returns (recentEvents: seq<Event>)
    ensures recentEvents == Filter(events, ByTypeofNumber(now - windowMs))
  {
    var cutoff := now - windowMs;
    recentEvents := [];
    for i := 0 to |events|
      invariant recentEvents == Filter(events[..i], ByTypeofNumber(cutoff))
    {
      var evt := events[i];
      FilterAppend(events[..i], [evt], ByTypeofNumber(cutoff));
      FilterSingleton(evt, ByTypeofNumber(cutoff));
      assert events[..i + 1] == events[..i] + [evt];
      if !IsNumber(evt.timestamp) {
        continue;
      }
      if evt.timestamp.Num? && evt.timestamp.ms >= cutoff {
        recentEvents := recentEvents + [evt];
      }
    }
    assert events[..|events|] == events;
  }

  /** What this file's `computeStats(events)` returns. */
  function StatsOf(events: seq<Event>, now: int): Stats
  {
    StatsFrom(Filter(events, ByTypeofNumber(now - Detection.Window10s)),
              Filter(events, ByTypeofNumber(now - Detection.Window60s)))
  }

  method ComputeStats(events: seq<Event>, now: int) returns (stats: Stats)
    ensures stats == StatsOf(events, now)
  {
    var events10s := FilterEventsByWindow(events, now, Detection.Window10s);
    var events60s := FilterEventsByWindow(events, now, Detection.Window60s);
    var uniquePathsSet: set<string> := {};
    for i := 0 to |events60s|
      invariant uniquePathsSet == PathSet(events60s[..i])
    {
      var evt := events60s[i];
      PathSetStep(events60s, i);
      if evt.path.Some? {
        uniquePathsSet := uniquePathsSet + {evt.path.value};
      }
    }
    assert events60s[..|events60s|] == events60s;
    stats := Stats(|events10s|, |events60s|, |events60s|, |uniquePathsSet|);
  }

  /** This file's copy of `decideFromStats`; its contract is the same as
      that of `Detection.DecideFromStats`, so the two copies agree on every stats input. */
  method DecideFromStats(stats: Stats) returns (d: Decision)
    ensures d == Scoring.Decide(stats)
  {
    var reasons: seq<Reason> := [];
    var score := 0;

    if stats.rpm >= 120 {
      reasons := reasons + [VeryHighRpm];
      score := score + 80;
    } else if stats.rpm >= 60 {
      reasons := reasons + [HighRpm];
      score := score + 40;
    }

    if stats.count10s >= 30 {
      reasons := reasons + [Burst10s];
      score := score + 40;
    } else if stats.count10s >= 15 {
      reasons := reasons + [ElevatedBurst10s];
      score := score + 20;
    }

    if stats.uniquePaths60s >= 40 {
      reasons := reasons + [VeryManyUniquePaths];
      score := score + 40;
    } else if stats.uniquePaths60s >= 25 {
      reasons := reasons + [ManyUniquePaths];
      score := score + 20;
    }

    var decision := Allow;
    if score >= 80 {
      decision := Block;
    } else if score >= 30 {
      decision := Challenge;
    }
    d := Decision(decision, score, reasons);
  }

  /** The module-level `ipEvents` map and the handlers that use it. */
  class EventRouter {
    var ipEvents: map<string, seq<Event>>

    constructor ()
      ensures ipEvents == map[]
    {
      ipEvents := map[];
    }

    /** POST /: record the event under the client IP, keeping the newest 200. */
    method PostEvent(req: Request, now: int) returns (resp: EventResponse)
      modifies this
      ensures ipEvents == Recorded(old(ipEvents), GetClientIp(req), IngestedEvent(req, GetClientIp(req), now), MaxEventsPerIp)
      ensures resp == EventResponse(true, GetClientIp(req), |ipEvents[GetClientIp(req)]|)
    {
      var ip := GetClientIp(req);
      var evt := IngestedEvent(req, ip, now);
      var events := Record(ip, evt);
      resp := EventResponse(true, ip, |events|);
    }

    /** Get-or-create, push, splice: the history of `ip` keeps the newest 200 events. */
    method Record(ip: string, evt: Event) returns (events: seq<Event>)
      modifies this
      ensures ipEvents == Recorded(old(ipEvents), ip, evt, MaxEventsPerIp)
      ensures ip in ipEvents && events == ipEvents[ip]
    {
      if ip !in ipEvents {
        ipEvents := ipEvents[ip := []];
      }
      events := ipEvents[ip];
      events := events + [evt];
      if |events| > MaxEventsPerIp {
        events := SpliceFront(events, |events| - MaxEventsPerIp);
      }
      ipEvents := ipEvents[ip := events];
    }

    /** GET /stats: the stored count and the stats of the queried IP. */
    method GetStats(req: Request, now: int) returns (resp: StatsResponse)
      ensures resp.ip == QueriedIp(req)
      ensures resp.totalEventsStored == |Lookup(ipEvents, QueriedIp(req))|
      ensures resp.stats == StatsOf(Lookup(ipEvents, QueriedIp(req)), now)
      ensures resp.ok
    {
      var ip := QueriedIp(req);
      var events := if ip in ipEvents then ipEvents[ip] else [];
      var stats := ComputeStats(events, now);
      resp := StatsResponse(true, ip, |events|, stats);
    }

    /** GET /decision: the decision over the queried IP's stats. */
    method GetDecision(req: Request, now: int) returns (resp: DecisionResponse)
      ensures resp.ip == QueriedIp(req) && resp.ok
      ensures resp.stats == StatsOf(Lookup(ipEvents, QueriedIp(req)), now)
      ensures resp.decision == Scoring.Decide(resp.stats)
    {
      var ip := QueriedIp(req);
      var events := if ip in ipEvents then ipEvents[ip] else [];
      var stats := ComputeStats(events, now);
      var decision := DecideFromStats(stats);
      resp := DecisionResponse(true, ip, decision, stats);
    }
  }

  /** After POST /, the count it reports is min(previous count + 1, 200). */
  lemma StoredForIp(m: map<string, seq<Event>>, ip: string, evt: Event)
    ensures var h := Lookup(Recorded(m, ip, evt, MaxEventsPerIp), ip);
      && |h| == (if |Lookup(m, ip)| + 1 < MaxEventsPerIp then |Lookup(m, ip)| + 1 else MaxEventsPerIp)
      && h[|h| - 1] == evt
  {
    PushBoundedShape(Lookup(m, ip), evt, MaxEventsPerIp);
  }

  /** A lookup for an IP with no history: nothing stored, zero stats, ALLOW with score 0. */
  lemma UnknownIpLookup(m: map<string, seq<Event>>, ip: string, now: int)
    requires ip !in m
    ensures |Lookup(m, ip)| == 0
    ensures StatsOf(Lookup(m, ip), now) == ZeroStats
    ensures Scoring.Decide(StatsOf(Lookup(m, ip), now)) == Decision(Allow, 0, [])
  {
    assert StatsOf(Lookup(m, ip), now) == ZeroStats by {
      assert Lookup(m, ip) == [];
      assert Filter([], ByTypeofNumber(now - Detection.Window10s)) == [];
      assert Filter([], ByTypeofNumber(now - Detection.Window60s)) == [];
      assert PathSet([]) == {};
    }
    Scoring.DecideZero();
  }

  /** The two stats copies agree whenever no timestamp is numeric text or
      null, which covers every event this route itself stores. */
  lemma StatsCopiesAgree(events: seq<Event>, now: int)
    requires forall e :: e in events ==> !e.timestamp.NumericText? && !e.timestamp.Null?
    ensures StatsOf(events, now) == Detection.StatsOf(Detection.Array(events), now)
  {
    FilterAgree(events, ByTypeofNumber(now - Detection.Window10s), ByNumberCoercion(now - Detection.Window10s));
    FilterAgree(events, ByTypeofNumber(now - Detection.Window60s), ByNumberCoercion(now - Detection.Window60s));
  }

  /** Where they differ: a timestamp stored as numeric text counts for the
      shared engine and not for this file's `typeof` check. */
  lemma StatsCopiesDifferOnText(e: Event, now: int)
    requires e.timestamp == NumericText(now)
    ensures StatsOf([e], now).count60s == 0
    ensures Detection.StatsOf(Detection.Array([e]), now).count60s == 1
  {
    FilterSingleton(e, ByTypeofNumber(now - Detection.Window60s));
    FilterSingleton(e, ByNumberCoercion(now - Detection.Window60s));
  }
}
