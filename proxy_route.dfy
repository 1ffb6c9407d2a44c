/** src/routes/proxy.js: the admission gate in front of a tenant's origin.
    It records the request in the tenant-scoped event store, reads the
    (tenant, ip) history back, scores it with the shared detection engine
    and forwards on ALLOW or answers 401 (CHALLENGE) / 403 (BLOCK). */
module ProxyRoute {
  import opened JsValues
  import opened Types
  import opened Windows
  import opened Ledger
  import Scoring
  import Detection
  import EventRoute

  /** `LIMIT 200` of the event store's read. */
  const ReadLimit := 200

  datatype Tenant = Tenant(id: string, origin: string)

  /** `{ok, action, tenant, ip, stats}` of a rejection. */
  datatype RejectionBody = RejectionBody(ok: bool, action: Verdict, tenant: string, ip: string, stats: Stats)

  /** Forward to the origin (`next()`), or answer with a status and a body. */
  datatype Outcome = Forward | Reject(status: nat, body: RejectionBody)

  /** This route's `getClientIp`: ANY string forwarded-for header, the empty
      one included, gives its first comma token, trimmed; otherwise the first
      non-empty of the socket address and `req.ip`, and "unknown" when both are empty. */
  function GetClientIp(req: Request): (ip: string)
    ensures req.forwardedFor.Some? ==> ip == Trim(FirstCommaToken(req.forwardedFor.value)) && ',' !in ip
    ensures req.forwardedFor.None? ==> ip != ""
    ensures req.forwardedFor.None? && req.remoteAddress.Some? && req.remoteAddress.value != "" ==>
              ip == req.remoteAddress.value
    ensures req.forwardedFor.None? && (req.remoteAddress.None? || req.remoteAddress.value == "") ==>
              ip == (if req.ip != "" then req.ip else "unknown")
  {
    if req.forwardedFor.Some? then
      FirstTokenTrimmedHasNoComma(req.forwardedFor.value);
      Trim(FirstCommaToken(req.forwardedFor.value))
    else OrElse(req.remoteAddress, OrElse(Some(req.ip), "unknown"))
  }

  /** The event the gate records (the gate stores no accept-language; "" stands for it). */
  function ProxyEvent(req: Request, ip: string, now: int): Event
  {
    Event(ip, Some(req.originalUrl), req.verb, StringOr(req.userAgent, ""), "", Num(now))
  }

  /** The decision-to-response mapping. */
  function Respond(tenant: Tenant, ip: string, stats: Stats, decision: Decision): Outcome
  {
    if decision.verdict == Allow then Forward
    else Reject(if decision.verdict == Challenge then 401 else 403,
                RejectionBody(false, decision.verdict, tenant.id, ip, stats))
  }

  /** The gate as a pure function of the `events` value it scores. */
  function Gate(tenant: Tenant, ip: string, events: Detection.EventsArg, now: int): Outcome
  {
    var stats := Detection.StatsOf(events, now);
    Respond(tenant, ip, stats, Scoring.Decide(stats))
  }

  /** Forward iff ALLOW; otherwise 401 for CHALLENGE and 403 for BLOCK, with
      a body that carries the verdict, the tenant id, the ip and the stats. */
  lemma RespondCases(tenant: Tenant, ip: string, stats: Stats, decision: Decision)
    ensures Respond(tenant, ip, stats, decision).Forward? <==> decision.verdict == Allow
    ensures Respond(tenant, ip, stats, decision).Reject? ==>
              var o := Respond(tenant, ip, stats, decision);
              && (o.status == 401 <==> decision.verdict == Challenge)
              && (o.status == 403 <==> decision.verdict == Block)
              && o.body == RejectionBody(false, decision.verdict, tenant.id, ip, stats)
  {
  }

  /** A history of at least 120 requests stamped now is blocked with 403. */
  lemma GateBlocksFlood(tenant: Tenant, ip: string, s: seq<Event>, now: int)
    requires |s| >= 120
    requires forall e :: e in s ==> ToNumber(e.timestamp) == Some(now)
    ensures Gate(tenant, ip, Detection.Array(s), now).Reject?
    ensures Gate(tenant, ip, Detection.Array(s), now).status == 403
  {
    FilterAllKept(s, ByNumberCoercion(now - Detection.Window60s));
    assert Detection.StatsOf(Detection.Array(s), now).rpm == |s|;
  }

  /** A newest-first read holds only rows of the key, and as many as the
      limit allows. */
  lemma NewestFirstWithin(s: seq<Event>)
    ensures |NewestFirst(s)| == if |s| > ReadLimit then ReadLimit else |s|
    ensures forall e :: e in NewestFirst(s) ==> e in s
  {
    NewestWithin(s, ReadLimit);
    ReverseMultiset(Newest(s, ReadLimit));
    forall e | e in NewestFirst(s) ensures e in s {
      assert e in multiset(Reverse(Newest(s, ReadLimit)));
    }
  }

  /** The flood through the awaited middleware: when the (tenant.id, ip) key
      already holds at least 119 rows stamped now, the read that follows the
      write of the current request holds at least 120 of them, and the
      outcome `Middleware` ensures is a 403. */
  lemma MiddlewareBlocksFlood(rows: map<(string, string), seq<Event>>, tenant: Tenant, ip: string,
                              evt: Event, now: int)
    requires |Rows(rows, tenant.id, ip)| >= 119
    requires forall e :: e in Rows(rows, tenant.id, ip) ==> ToNumber(e.timestamp) == Some(now)
    ensures var read := NewestFirst(Rows(Inserted(rows, tenant.id, ip, StoredRow(evt, now)), tenant.id, ip));
      Gate(tenant, ip, Detection.Array(read), now) == Reject(403, RejectionBody(false, Block, tenant.id, ip,
                                                                       Detection.StatsOf(Detection.Array(read), now)))
  {
    var s := Rows(rows, tenant.id, ip) + [StoredRow(evt, now)];
    assert Rows(Inserted(rows, tenant.id, ip, StoredRow(evt, now)), tenant.id, ip) == s;
    var read := NewestFirst(s);
    NewestFirstWithin(s);
    assert |read| >= 120;
    GateBlocksFlood(tenant, ip, read, now);
    RespondCases(tenant, ip, Detection.StatsOf(Detection.Array(read), now),
                 Scoring.Decide(Detection.StatsOf(Detection.Array(read), now)));
  }

  /** What the gate gets when it scores an un-awaited `getEvents(...)`: a
      Promise is not an array, so the stats are all zero and it forwards. */
  lemma AsWrittenAlwaysForwards(tenant: Tenant, ip: string, now: int)
    ensures Gate(tenant, ip, Detection.NotArray, now) == Forward
  {
    Detection.NotArrayAllows(now);
  }

  function Reverse<T>(s: seq<T>): (r: seq<T>)
    ensures |r| == |s|
    ensures forall i :: 0 <= i < |s| ==> r[i] == s[|s| - 1 - i]
  {
    if s == [] then [] else Reverse(s[1..]) + [s[0]]
  }

  lemma {:induction false} ReverseMultiset<T>(s: seq<T>)
    ensures multiset(Reverse(s)) == multiset(s)
  {
    if s != [] {
      ReverseMultiset(s[1..]);
      assert s == [s[0]] + s[1..];
    }
  }

  /** The row a read returns for a recorded event: path and method as
      given, the store's own `Date.now()` read back as numeric text; the
      columns the read does not select are "". */
  function StoredRow(evt: Event, now: int): Event
  {
    Event("", evt.path, evt.verb, "", "", NumericText(now))
  }

  /** The rows stored under one (tenant, ip) key, oldest first. */
  function Rows(rows: map<(string, string), seq<Event>>, tenantId: string, ip: string): seq<Event>
  {
    if (tenantId, ip) in rows then rows[(tenantId, ip)] else []
  }

  function Inserted(rows: map<(string, string), seq<Event>>, tenantId: string, ip: string, row: Event)
    : map<(string, string), seq<Event>>
  {
    rows[(tenantId, ip) := Rows(rows, tenantId, ip) + [row]]
  }

  /** `ORDER BY timestamp DESC LIMIT 200` over rows stamped in insertion order. */
  function NewestFirst(s: seq<Event>): seq<Event>
  {
    Reverse(Newest(s, ReadLimit))
  }

  /** The tenant-scoped event store, as far as the gate uses it. */
  class EventStore {
    var rows: map<(string, string), seq<Event>>

    constructor ()
      ensures rows == map[]
    {
      rows := map[];
    }

    /** `recordEvent(tenantId, ip, event)`. */
    method RecordEvent(tenantId: string, ip: string, evt: Event, now: int)
      modifies this
      ensures rows == Inserted(old(rows), tenantId, ip, StoredRow(evt, now))
    {
      rows := Inserted(rows, tenantId, ip, StoredRow(evt, now));
    }

    /** `getEvents(tenantId, ip)`, awaited. */
    method GetEvents(tenantId: string, ip: string) returns (events: seq<Event>)
      ensures events == NewestFirst(Rows(rows, tenantId, ip))
    {
      events := NewestFirst(Rows(rows, tenantId, ip));
    }
  }

  /** The middleware as written: the store calls are not awaited, so the
      value scored is the Promise `getEvents` returns, never the rows. */
  method MiddlewareAsWritten(store: EventStore, tenant: Tenant, req: Request, now: int) returns (o: Outcome)
    modifies store
    ensures store.rows == Inserted(old(store.rows), tenant.id, GetClientIp(req),
                                   StoredRow(ProxyEvent(req, GetClientIp(req), now), now))
    ensures o == Gate(tenant, GetClientIp(req), Detection.NotArray, now)
  {
    var ip := GetClientIp(req);
    var evt := ProxyEvent(req, ip, now);
    store.RecordEvent(tenant.id, ip, evt, now);
    var events := Detection.NotArray;
    var stats := Detection.ComputeStats(events, now);
    var decision := Detection.DecideFromStats(stats);
    o := Respond(tenant, ip, stats, decision);
  }

  /** The middleware with both store calls awaited: write, then read back
      the same (tenant.id, ip) key and score what was read. */
  method Middleware(store: EventStore, tenant: Tenant, req: Request, now: int) returns (o: Outcome)
    modifies store
    ensures store.rows == Inserted(old(store.rows), tenant.id, GetClientIp(req),
                                   StoredRow(ProxyEvent(req, GetClientIp(req), now), now))
    ensures o == Gate(tenant, GetClientIp(req),
                      Detection.Array(NewestFirst(Rows(store.rows, tenant.id, GetClientIp(req)))), now)
  {
    var ip := GetClientIp(req);
    var evt := ProxyEvent(req, ip, now);
    store.RecordEvent(tenant.id, ip, evt, now);
    var events := store.GetEvents(tenant.id, ip);
    var stats := Detection.ComputeStats(Detection.Array(events), now);
    var decision := Detection.DecideFromStats(stats);
    o := Respond(tenant, ip, stats, decision);
  }

  /** Tenant isolation: a write under (tenant, ip) changes no other key's rows. */
  lemma TenantIsolation(rows: map<(string, string), seq<Event>>, tenantId: string, ip: string, row: Event,
                        otherTenant: string, otherIp: string)
    requires (otherTenant, otherIp) != (tenantId, ip)
    ensures Rows(Inserted(rows, tenantId, ip, row), otherTenant, otherIp) == Rows(rows, otherTenant, otherIp)
  {
  }

  /** Reading newest first is harmless: the stats are those of the newest
      200 rows in insertion order. */
  lemma ReadOrderHarmless(s: seq<Event>, now: int)
    ensures Detection.StatsOf(Detection.Array(NewestFirst(s)), now)
         == Detection.StatsOf(Detection.Array(Newest(s, ReadLimit)), now)
  {
    ReverseMultiset(Newest(s, ReadLimit));
    Detection.StatsPermutation(NewestFirst(s), Newest(s, ReadLimit), now);
  }

  /** With the calls awaited, the read that follows the write sees the
      current request (its text timestamp is coerced by `Number(...)`), so
      both windows count it. */
  lemma AwaitedGateCountsCurrentRequest(rows: map<(string, string), seq<Event>>, tenantId: string, ip: string,
                                        evt: Event, now: int)
    ensures var read := NewestFirst(Rows(Inserted(rows, tenantId, ip, StoredRow(evt, now)), tenantId, ip));
      && StoredRow(evt, now) in read
      && Detection.StatsOf(Detection.Array(read), now).count10s >= 1
      && Detection.StatsOf(Detection.Array(read), now).count60s >= 1
  {
    var s := Rows(rows, tenantId, ip) + [StoredRow(evt, now)];
    assert Rows(Inserted(rows, tenantId, ip, StoredRow(evt, now)), tenantId, ip) == s;
    var w := Newest(s, ReadLimit);
    assert w[|w| - 1] == StoredRow(evt, now) by {
      assert s[|s| - 1] == StoredRow(evt, now);
    }
    var read := Reverse(w);
    assert read == NewestFirst(s);
    assert read[0] == StoredRow(evt, now);
    Detection.CurrentEventCounted(read, StoredRow(evt, now), now);
  }

  /** Only a present-but-empty header separates this variant from the
      in-memory routes': it gives "" where they fall back to `req.ip`. */
  lemma ClientIpOnEmptyHeader(req: Request)
    requires req.forwardedFor == Some("")
    ensures GetClientIp(req) == ""
    ensures EventRoute.GetClientIp(req) == req.ip
  {
  }

  /** With a non-empty header all variants agree. */
  lemma ClientIpVariantsAgree(req: Request)
    requires req.forwardedFor.Some? && req.forwardedFor.value != ""
    ensures GetClientIp(req) == EventRoute.GetClientIp(req)
  {
  }
}
