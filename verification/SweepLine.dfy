/**
 Peak concurrency of collaboration sessions: a sweep over sorted join and leave events
 (backend/src/collaboration/collaboration.service.ts).
 */
module SweepLine {
  import opened Options
  import opened Sorting

  /** Times are milliseconds since the epoch; leftAt is None while the session is open. */
  datatype Session = Session(joinedAt: int, leftAt: Option<int>)

  datatype Event = Event(at: int, delta: int)

  function End(s: Session, now: int): int {
    if s.leftAt.Some? then s.leftAt.value else now
  }

  // ---- What the peak means ----

  predicate Present(s: Session, now: int, t: int) {
    s.joinedAt <= t < End(s, now)
  }

  /** Sessions in progress at instant t. */
  function Overlap(sessions: seq<Session>, now: int, t: int): nat {
    if sessions == [] then 0
    else (if Present(sessions[0], now, t) then 1 else 0) + Overlap(sessions[1..], now, t)
  }

  /** Sessions whose end lies before their start and whose gap covers t (a clock that ran backwards). */
  function Inverted(sessions: seq<Session>, now: int, t: int): nat {
    if sessions == [] then 0
    else (if End(sessions[0], now) <= t < sessions[0].joinedAt then 1 else 0) + Inverted(sessions[1..], now, t)
  }

  function Balance(sessions: seq<Session>, now: int, t: int): int {
    Overlap(sessions, now, t) - Inverted(sessions, now, t)
  }

  ghost predicate IsPeak(sessions: seq<Session>, now: int, peak: int) {
    (exists t :: Balance(sessions, now, t) == peak) && (forall t :: Balance(sessions, now, t) <= peak)
  }

  // ---- Events ----

  function EventsOf(sessions: seq<Session>, now: int): seq<Event> {
    if sessions == [] then []
    else
      var last := sessions[|sessions| - 1];
      EventsOf(sessions[..|sessions| - 1], now) + [Event(last.joinedAt, 1), Event(End(last, now), -1)]
  }

  /** The comparator: by time, leaves before joins. */
  predicate Before(a: Event, b: Event) {
    a.at < b.at || (a.at == b.at && a.delta <= b.delta)
  }

  /** The running counter after the whole list. */
  function Total(events: seq<Event>): int {
    if events == [] then 0 else events[0].delta + Total(events[1..])
  }

  /** Joins minus leaves up to and including instant t. */
  function NetAt(events: seq<Event>, t: int): int {
    if events == [] then 0
    else (if events[0].at <= t then events[0].delta else 0) + NetAt(events[1..], t)
  }

  lemma {:induction false} NetConcat(a: seq<Event>, b: seq<Event>, t: int)
    ensures NetAt(a + b, t) == NetAt(a, t) + NetAt(b, t)
  {
    if a == [] {
      assert a + b == b;
    } else {
      assert (a + b)[1..] == a[1..] + b;
      NetConcat(a[1..], b, t);
    }
  }

  lemma {:induction false} TotalConcat(a: seq<Event>, b: seq<Event>)
    ensures Total(a + b) == Total(a) + Total(b)
  {
    if a == [] {
      assert a + b == b;
    } else {
      assert (a + b)[1..] == a[1..] + b;
      TotalConcat(a[1..], b);
    }
  }

  lemma {:induction false} NetInsert(e: Event, s: seq<Event>, t: int)
    ensures NetAt(Insert(e, s, Before), t) == NetAt([e], t) + NetAt(s, t)
  {
    if s == [] {
    } else if Before(e, s[0]) {
      NetConcat([e], s, t);
    } else {
      NetInsert(e, s[1..], t);
    }
  }

  /** Sorting does not change how many people are present at any instant. */
  lemma {:induction false} NetSort(s: seq<Event>, t: int)
    ensures NetAt(Sort(s, Before), t) == NetAt(s, t)
  {
    if s != [] {
      NetSort(s[1..], t);
      NetInsert(s[0], Sort(s[1..], Before), t);
    }
  }

  lemma {:induction false} NetOfSessions(sessions: seq<Session>, now: int, t: int)
    ensures NetAt(EventsOf(sessions, now), t) == Balance(sessions, now, t)
  {
    if sessions != [] {
      var n := |sessions| - 1;
      var last := sessions[n];
      var pair := [Event(last.joinedAt, 1), Event(End(last, now), -1)];
      assert pair == [pair[0]] + [pair[1]];
      NetConcat([pair[0]], [pair[1]], t);
      NetConcat(EventsOf(sessions[..n], now), pair, t);
      NetOfSessions(sessions[..n], now, t);
      assert sessions == sessions[..n] + [last];
      CountsConcat(sessions[..n], [last], now, t);
    }
  }

  lemma {:induction false} CountsConcat(a: seq<Session>, b: seq<Session>, now: int, t: int)
    ensures Overlap(a + b, now, t) == Overlap(a, now, t) + Overlap(b, now, t)
    ensures Inverted(a + b, now, t) == Inverted(a, now, t) + Inverted(b, now, t)
  {
    if a == [] {
      assert a + b == b;
    } else {
      assert (a + b)[1..] == a[1..] + b;
      CountsConcat(a[1..], b, now, t);
    }
  }

  // ---- The running counter of a sorted sweep peaks exactly where the overlap does ----

  /** Counting only events up to t loses leaves at most (so it is no smaller) when what it skips is leaves. */
  lemma {:induction false} NetSkipsLeaves(s: seq<Event>, t: int)
    requires forall e :: e in s && t < e.at ==> e.delta <= 0
    ensures NetAt(s, t) >= Total(s)
  {
    if s != [] {
      NetSkipsLeaves(s[1..], t);
    }
  }

  lemma {:induction false} NetOfJoins(s: seq<Event>, t: int)
    requires forall e :: e in s && e.at <= t ==> e.delta >= 0
    ensures NetAt(s, t) >= 0
  {
    if s != [] {
      NetOfJoins(s[1..], t);
    }
  }

  lemma {:induction false} NetAllOrNothing(s: seq<Event>, t: int)
    ensures (forall e :: e in s ==> e.at <= t) ==> NetAt(s, t) == Total(s)
    ensures (forall e :: e in s ==> t < e.at) ==> NetAt(s, t) == 0
  {
    if s != [] {
      NetAllOrNothing(s[1..], t);
      assert forall e :: e in s[1..] ==> e in s;
      assert s[0] in s;
    }
  }

  ghost predicate UnitSteps(s: seq<Event>) {
    forall e :: e in s ==> e.delta == 1 || e.delta == -1
  }

  /** Every value of the running counter is reached or exceeded at some instant. */
  lemma PrefixIsBounded(s: seq<Event>, k: nat) returns (t: int)
    requires Sorted(s, Before) && UnitSteps(s) && k <= |s|
    ensures Total(s[..k]) <= NetAt(s, t)
  {
    assert s == s[..k] + s[k..];
    if k == 0 {
      if s == [] {
        t := 0;
      } else {
        t := s[0].at - 1;
        NetAllOrNothing(s, t);
      }
    } else {
      var edge := s[k - 1];
      assert edge in s;
      t := if edge.delta == 1 then edge.at else edge.at - 1;
      NetConcat(s[..k], s[k..], t);
      NetOfJoins(s[k..], t);
      NetSkipsLeaves(s[..k], t);
    }
  }

  /** The presence at instant t is the counter after the events up to t. */
  lemma {:induction false} InstantIsAPrefix(s: seq<Event>, t: int, from: nat) returns (k: nat)
    requires Sorted(s, Before) && from <= |s|
    requires forall i :: 0 <= i < from ==> s[i].at <= t
    ensures k <= |s| && NetAt(s, t) == Total(s[..k])
    decreases |s| - from
  {
    if from < |s| && s[from].at <= t {
      k := InstantIsAPrefix(s, t, from + 1);
    } else {
      k := from;
      assert s == s[..k] + s[k..];
      NetConcat(s[..k], s[k..], t);
      NetAllOrNothing(s[..k], t);
      NetAllOrNothing(s[k..], t);
    }
  }

  lemma BeforeIsTotal()
    ensures TotalPreorder(Before)
  {
  }

  lemma {:induction false} EventsAreUnitSteps(sessions: seq<Session>, now: int)
    ensures UnitSteps(EventsOf(sessions, now))
  {
    if sessions != [] {
      EventsAreUnitSteps(sessions[..|sessions| - 1], now);
    }
  }

  /** peak is the greatest counter value after at most n events, first noted after `at` of them. */
  ghost predicate HighWater(s: seq<Event>, n: nat, peak: int, at: nat)
    requires n <= |s|
  {
    at <= n && peak == Total(s[..at]) && forall k :: 0 <= k <= n ==> Total(s[..k]) <= peak
  }

  lemma HighWaterStep(s: seq<Event>, n: nat, peak: int, at: nat)
    requires n < |s| && HighWater(s, n, peak, at)
    ensures Total(s[..n + 1]) == Total(s[..n]) + s[n].delta
    ensures if Total(s[..n + 1]) > peak then HighWater(s, n + 1, Total(s[..n + 1]), n + 1)
            else HighWater(s, n + 1, peak, at)
  {
    assert s[..n + 1] == s[..n] + [s[n]];
    TotalConcat(s[..n], [s[n]]);
  }

  /**
   The sweep: the returned peak is the greatest, over all instants, of the sessions in
   progress less the inverted ones. Nothing is asked of the sessions.
   */
  method PeakConcurrency(sessions: seq<Session>, now: int) returns (peak: int)
    ensures IsPeak(sessions, now, peak)
  {
    var events: seq<Event> := [];
    for i := 0 to |sessions|
      invariant events == EventsOf(sessions[..i], now)
    {
      assert sessions[..i + 1][..i] == sessions[..i];
      events := events + [Event(sessions[i].joinedAt, 1), Event(End(sessions[i], now), -1)];
    }
    assert sessions[..|sessions|] == sessions;
    events := Sort(events, Before);
    var current := 0;
    peak := 0;
    ghost var at := 0;
    for i := 0 to |events|
      invariant current == Total(events[..i])
      invariant HighWater(events, i, peak, at)
    {
      HighWaterStep(events, i, peak, at);
      current := current + events[i].delta;
      if current > peak {
        peak := current;
        at := i + 1;
      }
    }
    SweepFindsMaximum(sessions, now, peak, at);
  }

  lemma SweepFindsMaximum(sessions: seq<Session>, now: int, peak: int, at: nat)
    requires var s := Sort(EventsOf(sessions, now), Before); HighWater(s, |s|, peak, at)
    ensures IsPeak(sessions, now, peak)
  {
    var raw := EventsOf(sessions, now);
    var s := Sort(raw, Before);
    BeforeIsTotal();
    SortSorted(raw, Before);
    EventsAreUnitSteps(sessions, now);
    SameElements(raw, s);
    forall t: int
      ensures NetAt(s, t) == Balance(sessions, now, t) <= peak
    {
      NetSort(raw, t);
      NetOfSessions(sessions, now, t);
      var k := InstantIsAPrefix(s, t, 0);
    }
    var t := PrefixIsBounded(s, at);
  }

  lemma {:induction false} NoInversions(sessions: seq<Session>, now: int, t: int)
    requires forall s :: s in sessions ==> s.joinedAt <= End(s, now)
    ensures Inverted(sessions, now, t) == 0
  {
    if sessions != [] {
      NoInversions(sessions[1..], now, t);
    }
  }

  /** When no session ends before it begins, the peak is the greatest overlap. */
  lemma PeakIsGreatestOverlap(sessions: seq<Session>, now: int, peak: int)
    requires forall s :: s in sessions ==> s.joinedAt <= End(s, now)
    requires IsPeak(sessions, now, peak)
    ensures exists t :: Overlap(sessions, now, t) == peak
    ensures forall t :: Overlap(sessions, now, t) <= peak
  {
    forall t: int ensures Overlap(sessions, now, t) == Balance(sessions, now, t) {
      NoInversions(sessions, now, t);
    }
  }

  lemma CountsRemoveAt(s: seq<Session>, i: nat, now: int, t: int)
    requires i < |s|
    ensures Balance(s, now, t) == Balance([s[i]], now, t) + Balance(RemoveAt(s, i), now, t)
  {
    assert s == s[..i] + ([s[i]] + s[i + 1..]);
    CountsConcat(s[..i], [s[i]] + s[i + 1..], now, t);
    CountsConcat([s[i]], s[i + 1..], now, t);
    CountsConcat(s[..i], s[i + 1..], now, t);
  }

  lemma {:induction false} BalanceIgnoresOrder(a: seq<Session>, b: seq<Session>, now: int, t: int)
    requires multiset(a) == multiset(b)
    ensures Balance(a, now, t) == Balance(b, now, t)
  {
    SameElements(a, b);
    if a != [] {
      var i := IndexOf(b, a[0]);
      assert a == [a[0]] + a[1..];
      assert multiset(a[1..]) == multiset(a) - multiset{a[0]};
      assert multiset(RemoveAt(b, i)) == multiset(b) - multiset{a[0]};
      BalanceIgnoresOrder(a[1..], RemoveAt(b, i), now, t);
      CountsRemoveAt(a, 0, now, t);
      assert RemoveAt(a, 0) == a[1..];
      CountsRemoveAt(b, i, now, t);
    }
  }

  /** The order in which the sessions were read does not matter. */
  lemma PeakIgnoresOrder(a: seq<Session>, b: seq<Session>, now: int, p: int, q: int)
    requires multiset(a) == multiset(b)
    requires IsPeak(a, now, p) && IsPeak(b, now, q)
    ensures p == q
  {
    forall t: int ensures Balance(a, now, t) == Balance(b, now, t) {
      BalanceIgnoresOrder(a, b, now, t);
    }
  }
}
