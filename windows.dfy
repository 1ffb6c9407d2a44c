/** The sliding-window filter both copies of `filterEventsByWindow` compute,
    parameterised by the test each copy applies to a timestamp, and the
    distinct-path set both copies of `computeStats` build. */
module Windows {
  import opened JsValues
  import opened Types

  /** The per-event test of a window with the given cutoff. */
  datatype Rule =
    | ByNumberCoercion(cutoff: int)  // !isNaN(Number(ts)) && Number(ts) >= cutoff
    | ByTypeofNumber(cutoff: int)    // typeof ts === "number" && ts >= cutoff

  predicate Keeps(rule: Rule, e: Event)
  {
    match rule
    case ByNumberCoercion(cutoff) =>
      ToNumber(e.timestamp).Some? && ToNumber(e.timestamp).value >= cutoff
    case ByTypeofNumber(cutoff) =>
      // NaN is a number, but `NaN >= cutoff` is false
      IsNumber(e.timestamp) && e.timestamp.Num? && e.timestamp.ms >= cutoff
  }

  /** `events.filter(e => Keeps(rule, e))`. */
  function Filter(s: seq<Event>, rule: Rule): (r: seq<Event>)
    ensures |r| <= |s|
    ensures forall e :: e in r <==> e in s && Keeps(rule, e)
  {
    if s == [] then []
    else (if Keeps(rule, s[0]) then [s[0]] else []) + Filter(s[1..], rule)
  }

  /** Filtering distributes over concatenation; with the singleton case this
      pins the result down as the kept events in their original order. */
  lemma {:induction false} FilterAppend(s: seq<Event>, t: seq<Event>, rule: Rule)
    ensures Filter(s + t, rule) == Filter(s, rule) + Filter(t, rule)
  {
    if s == [] {
      assert s + t == t;
    } else {
      assert (s + t)[0] == s[0];
      assert (s + t)[1..] == s[1..] + t;
      FilterAppend(s[1..], t, rule);
    }
  }

  lemma FilterSingleton(e: Event, rule: Rule)
    ensures Filter([e], rule) == if Keeps(rule, e) then [e] else []
  {
    assert [e][1..] == [];
  }

  /** Each event occurs in the window as often as in the input if kept, and not at all otherwise. */
  lemma {:induction false} FilterCount(s: seq<Event>, rule: Rule)
    ensures forall e :: multiset(Filter(s, rule))[e] == if Keeps(rule, e) then multiset(s)[e] else 0
  {
    if s != [] {
      FilterCount(s[1..], rule);
      assert s == [s[0]] + s[1..];
      assert multiset(s) == multiset{s[0]} + multiset(s[1..]);
    }
  }

  /** So the window depends only on the multiset of the input events. */
  lemma FilterPermutation(s: seq<Event>, t: seq<Event>, rule: Rule)
    requires multiset(s) == multiset(t)
    ensures multiset(Filter(s, rule)) == multiset(Filter(t, rule))
  {
    FilterCount(s, rule);
    FilterCount(t, rule);
    assert forall e :: multiset(Filter(s, rule))[e] == multiset(Filter(t, rule))[e];
  }

  /** A window whose test is implied by another's is no larger. */
  lemma {:induction false} FilterWeaker(s: seq<Event>, narrow: Rule, wide: Rule)
    requires forall e :: Keeps(narrow, e) ==> Keeps(wide, e)
    ensures |Filter(s, narrow)| <= |Filter(s, wide)|
  {
    if s != [] {
      FilterWeaker(s[1..], narrow, wide);
    }
  }

  /** Rules that agree on every event of the input produce the same window. */
  lemma {:induction false} FilterAgree(s: seq<Event>, r1: Rule, r2: Rule)
    requires forall e :: e in s ==> (Keeps(r1, e) <==> Keeps(r2, e))
    ensures Filter(s, r1) == Filter(s, r2)
  {
    if s != [] {
      FilterAgree(s[1..], r1, r2);
    }
  }

  /** A window whose test every event passes is the whole input. */
  lemma {:induction false} FilterAllKept(s: seq<Event>, rule: Rule)
    requires forall e :: e in s ==> Keeps(rule, e)
    ensures Filter(s, rule) == s
  {
    if s != [] {
      assert forall e :: e in s[1..] ==> e in s;
      FilterAllKept(s[1..], rule);
    }
  }

  /** The paths of the events of `w` whose `path` is a string. */
  function PathSet(w: seq<Event>): (r: set<string>)
    ensures forall p :: p in r <==> exists e :: e in w && e.path == Some(p)
  {
    if w == [] then {}
    else
      var last := w[|w| - 1];
      var rest := PathSet(w[..|w| - 1]);
      assert forall e :: e in w <==> e in w[..|w| - 1] || e == last;
      rest + (if last.path.Some? then {last.path.value} else {})
  }

  /** One more event adds its path, if it has one, to the set. */
  lemma PathSetStep(w: seq<Event>, i: nat)
    requires i < |w|
    ensures PathSet(w[..i + 1]) == PathSet(w[..i]) + (if w[i].path.Some? then {w[i].path.value} else {})
  {
    assert w[..i + 1][..i] == w[..i];
  }

  lemma {:induction false} PathSetSize(w: seq<Event>)
    ensures |PathSet(w)| <= |w|
  {
    if w != [] {
      PathSetSize(w[..|w| - 1]);
    }
  }

  /** The distinct-path count depends only on which events occur. */
  lemma PathSetByMembership(w: seq<Event>, v: seq<Event>)
    requires forall e :: e in w <==> e in v
    ensures PathSet(w) == PathSet(v)
  {
  }

  /** The stats both copies of `computeStats` return for their two windows. */
  function StatsFrom(w10: seq<Event>, w60: seq<Event>): Stats
  {
    Stats(|w10|, |w60|, |w60|, |PathSet(w60)|)
  }
}
