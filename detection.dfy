/** src/detection.js: the shared detection engine used by the evaluate and
    proxy routes.  `now` stands for `Date.now()`, read once for both windows. */
module Detection {
  import opened JsValues
  import opened Types
  import opened Windows
  import Scoring

  /** The `events` argument: an array, or anything else (a pending Promise, say). */
  datatype EventsArg = Array(items: seq<Event>) | NotArray

  const Window10s := 10_000
  const Window60s := 60_000

  /** `filterEventsByWindow(events, windowMs)`: a non-array gives `[]`; an array
      keeps the events whose `Number(timestamp)` is not NaN and is at least
      `now - windowMs`. */
  function FilterEventsByWindow(events: EventsArg, now: int, windowMs: int): (r: seq<Event>)
    ensures events.NotArray? ==> r == []
    ensures forall e :: e in r <==>
              events.Array? && e in events.items && ToNumber(e.timestamp).Some?
              && ToNumber(e.timestamp).value >= now - windowMs
  {
    if events.NotArray? then [] else Filter(events.items, ByNumberCoercion(now - windowMs))
  }

  /** What `computeStats(events)` returns. */
  function StatsOf(events: EventsArg, now: int): Stats
  {
    StatsFrom(FilterEventsByWindow(events, now, Window10s), FilterEventsByWindow(events, now, Window60s))
  }

  /** `computeStats`: two windows, then a Set of the string paths of the 60 s window. */
  method ComputeStats(events: EventsArg, now: int) returns (stats: Stats)
    ensures stats == StatsOf(events, now)
  {
    var events10s := FilterEventsByWindow(events, now, Window10s);
    var events60s := FilterEventsByWindow(events, now, Window60s);
    var uniquePaths: set<string> := {};
    for i := 0 to |events60s|
      invariant uniquePaths == PathSet(events60s[..i])
    {
      var evt := events60s[i];
      PathSetStep(events60s, i);
      if evt.path.Some? {
        uniquePaths := uniquePaths + {evt.path.value};
      }
    }
    assert events60s[..|events60s|] == events60s;
    stats := Stats(|events10s|, |events60s|, |events60s|, |uniquePaths|);
  }

  /** `decideFromStats`: sequential rule families accumulating reasons and score. */
  method DecideFromStats(stats: Stats) returns (d: Decision)
    ensures d == Scoring.Decide(stats)
  {
    var reasons: seq<Reason> := [];
    var score := 0;

    if stats.rpm >= 120 {
      reasons := reasons + [VeryHighRpm];
      score := score + 80;
    } else if stats.rpm >= 60 {
      reasons := reasons + [HighRpm];
      score := score + 40;
    }

    if stats.count10s >= 30 {
      reasons := reasons + [Burst10s];
      score := score + 40;
    } else if stats.count10s >= 15 {
      reasons := reasons + [ElevatedBurst10s];
      score := score + 20;
    }

    if stats.uniquePaths60s >= 40 {
      reasons := reasons + [VeryManyUniquePaths];
      score := score + 40;
    } else if stats.uniquePaths60s >= 25 {
      reasons := reasons + [ManyUniquePaths];
      score := score + 20;
    }

    var decision := Allow;
    if score >= 80 {
      decision := Block;
    } else if score >= 30 {
      decision := Challenge;
    }
    d := Decision(decision, score, reasons);
  }

  /** A non-array gives all-zero stats and therefore ALLOW, score 0, no reasons. */
  lemma NotArrayAllows(now: int)
    ensures StatsOf(NotArray, now) == ZeroStats
    ensures Scoring.Decide(StatsOf(NotArray, now)) == Decision(Allow, 0, [])
  {
    assert StatsOf(NotArray, now) == ZeroStats by {
      assert FilterEventsByWindow(NotArray, now, Window10s) == [];
      assert FilterEventsByWindow(NotArray, now, Window60s) == [];
      assert PathSet([]) == {};
    }
    Scoring.DecideZero();
  }

  /** For one `now`: the 10 s count is at most the 60 s count, `rpm` is the
      60 s count and there are no more distinct paths than events. */
  lemma StatsBounds(events: EventsArg, now: int)
    ensures StatsOf(events, now).count10s <= StatsOf(events, now).count60s
    ensures StatsOf(events, now).rpm == StatsOf(events, now).count60s
    ensures StatsOf(events, now).uniquePaths60s <= StatsOf(events, now).count60s
  {
    if events.Array? {
      FilterWeaker(events.items, ByNumberCoercion(now - Window10s), ByNumberCoercion(now - Window60s));
    }
    PathSetSize(FilterEventsByWindow(events, now, Window60s));
  }

  /** `computeStats` depends only on the multiset of events: reordering the
      input (the event store returns newest first) changes nothing. */
  lemma StatsPermutation(s: seq<Event>, t: seq<Event>, now: int)
    requires multiset(s) == multiset(t)
    ensures StatsOf(Array(s), now) == StatsOf(Array(t), now)
  {
    var r10, r60 := ByNumberCoercion(now - Window10s), ByNumberCoercion(now - Window60s);
    FilterPermutation(s, t, r10);
    FilterPermutation(s, t, r60);
    assert |Filter(s, r10)| == |multiset(Filter(s, r10))|;
    assert |Filter(t, r10)| == |multiset(Filter(t, r10))|;
    assert |Filter(s, r60)| == |multiset(Filter(s, r60))|;
    assert |Filter(t, r60)| == |multiset(Filter(t, r60))|;
    forall e ensures e in Filter(s, r60) <==> e in Filter(t, r60) {
      assert e in Filter(s, r60) <==> e in multiset(Filter(s, r60));
      assert e in Filter(t, r60) <==> e in multiset(Filter(t, r60));
    }
    PathSetByMembership(Filter(s, r60), Filter(t, r60));
  }

  /** An event stamped `now` (as a number or as numeric text) is in both windows. */
  lemma CurrentEventCounted(events: seq<Event>, e: Event, now: int)
    requires e in events && ToNumber(e.timestamp) == Some(now)
    ensures StatsOf(Array(events), now).count10s >= 1
    ensures StatsOf(Array(events), now).count60s >= 1
  {
    assert e in FilterEventsByWindow(Array(events), now, Window10s);
    assert e in FilterEventsByWindow(Array(events), now, Window60s);
  }
}
