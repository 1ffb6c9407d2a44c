/** The bounded per-IP event history both in-memory routes keep: a map from
    IP to an array that is pushed onto and then spliced from the front so
    that only the newest `cap` events remain. */
module Ledger {
  import opened Types

  /** `events.splice(0, k)`, for what it leaves in `events`. */
  function SpliceFront<T>(s: seq<T>, k: int): (r: seq<T>)
    ensures |r| == if k <= 0 then |s| else if k >= |s| then 0 else |s| - k
    ensures r == s[|s| - |r|..]
  {
    if k <= 0 then s else if k >= |s| then [] else s[k..]
  }

  /** `events.push(x); if (events.length > cap) events.splice(0, events.length - cap);` */
  function PushBounded<T>(s: seq<T>, x: T, cap: int): seq<T>
  {
    var pushed := s + [x];
    if |pushed| > cap then SpliceFront(pushed, |pushed| - cap) else pushed
  }

  /** The newest `n` entries of `s`, all of them if there are fewer. */
  function Newest<T>(s: seq<T>, n: nat): (r: seq<T>)
    ensures |r| == if |s| > n then n else |s|
    ensures r == s[|s| - |r|..]
  {
    if |s| > n then s[|s| - n..] else s
  }

  /** The newest entries are entries of `s`. */
  lemma NewestWithin<T>(s: seq<T>, n: nat)
    ensures forall x :: x in Newest(s, n) ==> x in s
  {
    var r := Newest(s, n);
    forall x | x in r ensures x in s {
      var k :| 0 <= k < |r| && r[k] == x;
      assert s[|s| - |r| + k] == x;
    }
  }

  /** `ipEvents.get(ip) || []`: the history of an IP, empty when unknown. */
  function Lookup(m: map<string, seq<Event>>, ip: string): seq<Event>
  {
    if ip in m then m[ip] else []
  }

  /** The map after recording `evt` for `ip` (get-or-create, push, splice). */
  function Recorded(m: map<string, seq<Event>>, ip: string, evt: Event, cap: int): map<string, seq<Event>>
  {
    m[ip := PushBounded(Lookup(m, ip), evt, cap)]
  }

  /** Push-then-splice keeps exactly the newest `cap` entries of the old
      history followed by the new one; a cap of zero or less keeps nothing. */
  lemma PushBoundedIsNewest<T>(s: seq<T>, x: T, cap: int)
    ensures cap >= 0 ==> PushBounded(s, x, cap) == Newest(s + [x], cap)
    ensures cap < 0 ==> PushBounded(s, x, cap) == []
  {
  }

  /** With a positive cap the history is bounded, ends with the new event,
      is a suffix of old history ++ [x] in insertion order, and its length
      is min(old length + 1, cap) whatever the old length was. */
  lemma PushBoundedShape<T>(s: seq<T>, x: T, cap: int)
    requires cap >= 1
    ensures var r := PushBounded(s, x, cap);
      && |r| <= cap
      && |r| == (if |s| + 1 < cap then |s| + 1 else cap)
      && r[|r| - 1] == x
      && r == (s + [x])[|s| + 1 - |r|..]
  {
  }

  /** Taking the newest n, appending, and taking the newest n again is the
      same as taking the newest n of the whole. */
  lemma NewestAppend<T>(t: seq<T>, u: seq<T>, n: nat)
    ensures Newest(Newest(t, n) + u, n) == Newest(t + u, n)
  {
    if |t| > n {
      var k := |t| - n;
      assert Newest(t, n) + u == (t + u)[k..];
    }
  }

  /** Recording several events in turn. */
  function PushAll<T>(s: seq<T>, xs: seq<T>, cap: int): seq<T>
    decreases |xs|
  {
    if xs == [] then s else PushAll(PushBounded(s, xs[0], cap), xs[1..], cap)
  }

  /** Recording any number of events into a history within the cap retains
      exactly the newest `cap` of all of them, oldest discarded first. */
  lemma {:induction false} PushAllIsNewest<T>(s: seq<T>, xs: seq<T>, cap: nat)
    requires |s| <= cap
    ensures PushAll(s, xs, cap) == Newest(s + xs, cap)
    decreases |xs|
  {
    if xs == [] {
      assert s + xs == s;
    } else {
      var s' := PushBounded(s, xs[0], cap);
      PushBoundedIsNewest(s, xs[0], cap);
      PushAllIsNewest(s', xs[1..], cap);
      NewestAppend(s + [xs[0]], xs[1..], cap);
      assert s + [xs[0]] + xs[1..] == s + xs;
    }
  }

  /** Recording for one IP leaves every other IP's history as it was, adds
      at most the one key, and an unknown IP starts from an empty history. */
  lemma RecordedIsolation(m: map<string, seq<Event>>, ip: string, evt: Event, cap: int)
    ensures Recorded(m, ip, evt, cap).Keys == m.Keys + {ip}
    ensures forall other :: other != ip ==> Lookup(Recorded(m, ip, evt, cap), other) == Lookup(m, other)
    ensures ip !in m && cap >= 1 ==> Lookup(Recorded(m, ip, evt, cap), ip) == [evt]
  {
  }
}
