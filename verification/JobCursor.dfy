/** Polling for job requests with a cap per poll, a cursor and a set of requests already seen
  (botframework/dvmListener.py). */
module JobCursor {
  import opened Seats
  import opened Numbers

  const OVERLAP := 5
  const SEEN_MAX := 5000

  /** A fetched event: `id` may be missing, `own` marks the node's own events, `input` that there is a prompt. */
  datatype Job = Job(id: Option<nat>, created: int, own: bool, supported: bool, input: bool)

  /** Events are named by their content. */
  ghost predicate Named(jobs: seq<Job>) {
    forall i, j :: 0 <= i < |jobs| && 0 <= j < |jobs| && jobs[i].id.Some? && jobs[i].id == jobs[j].id ==> jobs[i] == jobs[j]
  }

  ghost predicate Sorted(jobs: seq<Job>) {
    forall i, j :: 0 <= i < j < |jobs| ==> jobs[i].created <= jobs[j].created
  }

  /** A request that is to be worked on. */
  predicate Eligible(j: Job) {
    j.id.Some? && !j.own && j.supported && j.input
  }

  /** What one poll did: the ids now seen, the jobs worked on, the time of the first request not reached. */
  datatype Scan = Scan(seen: set<nat>, handled: seq<Job>, stop: Option<int>)

  function Scanned(batch: seq<Job>, seen: set<nat>, handled: seq<Job>, cap: int): Scan
    decreases |batch|
  {
    if batch == [] then Scan(seen, handled, None)
    else
      var j, rest := batch[0], batch[1..];
      if j.id.None? || j.id.value in seen || j.own then Scanned(rest, seen, handled, cap)
      else if !j.supported then Scanned(rest, seen + {j.id.value}, handled, cap)
      else if |handled| >= cap then Scan(seen, handled, Some(j.created))
      else Scanned(rest, seen + {j.id.value}, if j.input then handled + [j] else handled, cap)
  }

  /** Where the next poll resumes. */
  function NextSince(s: Scan, now: int): int {
    if s.stop.Some? then Min(now - OVERLAP, s.stop.value - 1) else now - OVERLAP
  }

  function Forget(seen: set<nat>): set<nat> {
    if |seen| > SEEN_MAX then {} else seen
  }

  // ---- the source's loop ----

  class Poller {
    var seen: set<nat>
    var since: int

    constructor ()
      ensures seen == {} && since == 0
    {
      seen, since := {}, 0;
    }

    /** One poll over the fetched events in order of time; returns the jobs worked on. */
    method ProcessJobRequests(batch: seq<Job>, now: int, cap: int) returns (handled: seq<Job>)
      modifies this
      ensures var s := Scanned(batch, old(seen), [], cap);
        handled == s.handled && since == NextSince(s, now) && seen == Forget(s.seen)
    {
      var nextSince := now - OVERLAP;
      var done := 0;
      handled := [];
      ghost var s := Scanned(batch, seen, [], cap);
      var n := 0;
      while n < |batch|
        invariant n <= |batch| && done == |handled| && nextSince == now - OVERLAP
        invariant s == Scanned(batch[n..], seen, handled, cap)
      {
        var ev := batch[n];
        assert batch[n..][0] == ev && batch[n..][1..] == batch[n + 1..];
        n := n + 1;
        if ev.id.None? || ev.id.value in seen || ev.own { continue; }
        if !ev.supported {
          seen := seen + {ev.id.value};
          continue;
        }
        if done >= cap {
          nextSince := Min(nextSince, ev.created - 1);
          break;
        }
        seen := seen + {ev.id.value};
        if !ev.input { continue; }
        done := done + 1;
        handled := handled + [ev];
      }
      since := nextSince;
      if |seen| > SEEN_MAX { seen := {}; }
    }
  }

  // ---- one poll loses nothing ----

  /** What becomes of a fetched event. */
  ghost predicate Accounted(j: Job, seen: set<nat>, s: Scan, since: int) {
    || j.id.None? || j.own || j.id.value in seen
    || j in s.handled
    || ((!j.supported || !j.input) && j.id.value in s.seen)
    || (j.created > since && j.id.value !in s.seen)
  }

  /** Scanning marks what it works on; it stops only with a full quota, at a fetched event. */
  lemma {:induction false} ScanMarks(batch: seq<Job>, seen: set<nat>, handled: seq<Job>, cap: int)
    ensures var s := Scanned(batch, seen, handled, cap);
      && seen <= s.seen && handled <= s.handled
      && (forall j :: j in s.handled[|handled|..] ==> Eligible(j) && j in batch && j.id.value !in seen && j.id.value in s.seen)
      && (s.stop.Some? ==> |s.handled| >= cap && exists j :: j in batch && j.created == s.stop.value)
    decreases |batch|
  {
    if batch != [] {
      var j, rest := batch[0], batch[1..];
      var s := Scanned(batch, seen, handled, cap);
      assert forall k :: k in batch <==> k == j || k in rest;
      if j.id.None? || j.id.value in seen || j.own {
        ScanMarks(rest, seen, handled, cap);
      } else if !j.supported {
        ScanMarks(rest, seen + {j.id.value}, handled, cap);
      } else if |handled| >= cap {
      } else if j.input {
        ScanMarks(rest, seen + {j.id.value}, handled + [j], cap);
        assert s.handled[|handled|..] == [j] + s.handled[|handled| + 1..];
      } else {
        ScanMarks(rest, seen + {j.id.value}, handled, cap);
      }
    }
  }

  /** The scan marks everything before its stop. */
  lemma {:induction false} LeftIsLate(batch: seq<Job>, seen: set<nat>, handled: seq<Job>, cap: int)
    requires Sorted(batch)
    ensures var s := Scanned(batch, seen, handled, cap);
      && seen <= s.seen
      && forall j :: j in batch && j.id.Some? && !j.own && j.id.value !in s.seen ==> s.stop.Some? && j.created >= s.stop.value
    decreases |batch|
  {
    if batch != [] {
      var j, rest := batch[0], batch[1..];
      assert forall k :: k in batch <==> k == j || k in rest;
      if j.id.None? || j.id.value in seen || j.own {
        LeftIsLate(rest, seen, handled, cap);
      } else if !j.supported {
        LeftIsLate(rest, seen + {j.id.value}, handled, cap);
      } else if |handled| < cap {
        LeftIsLate(rest, seen + {j.id.value}, if j.input then handled + [j] else handled, cap);
      }
    }
  }

  /** The scan marks nothing after its stop. */
  lemma {:induction false} MarkedIsEarly(batch: seq<Job>, seen: set<nat>, handled: seq<Job>, cap: int, id: nat)
    requires Sorted(batch) && id !in seen
    ensures var s := Scanned(batch, seen, handled, cap);
      s.stop.Some? && id in s.seen ==> exists j :: j in batch && j.id == Some(id) && j.created <= s.stop.value
    decreases |batch|
  {
    if batch != [] {
      var j, rest := batch[0], batch[1..];
      assert j in batch && forall k :: k in rest ==> k in batch && j.created <= k.created;
      var s := Scanned(batch, seen, handled, cap);
      if j.id.None? || j.id.value in seen || j.own {
        MarkedIsEarly(rest, seen, handled, cap, id);
      } else if j.supported && |handled| >= cap {
      } else {
        var handled' := if j.supported && j.input then handled + [j] else handled;
        assert s == Scanned(rest, seen + {j.id.value}, handled', cap);
        ScanMarks(rest, seen + {j.id.value}, handled', cap);
        hide Scanned;
        if id != j.id.value { MarkedIsEarly(rest, seen + {j.id.value}, handled', cap, id); }
      }
    }
  }

  /** An eligible event that is marked by the scan was worked on. */
  lemma {:induction false} MarkedIsHandled(batch: seq<Job>, seen: set<nat>, handled: seq<Job>, cap: int, j: Job)
    requires Named(batch) && j in batch && Eligible(j) && j.id.value !in seen
    ensures var s := Scanned(batch, seen, handled, cap);
      j.id.value in s.seen ==> j in s.handled
    decreases |batch|
  {
    var k, rest := batch[0], batch[1..];
    assert Named(rest) by { assert forall i :: 0 <= i < |rest| ==> rest[i] == batch[i + 1]; }
    assert j == k || j in rest;
    if j == k {
      if |handled| < cap {
        HandledStays(rest, seen + {j.id.value}, handled + [j], cap);
        assert (handled + [j])[|handled|] == j;
      }
    } else {
      assert k.id == j.id ==> k == j by {
        var i :| 0 <= i < |batch| && batch[i] == j;
        assert batch[0] == k;
      }
      if k.id.None? || k.id.value in seen || k.own {
        MarkedIsHandled(rest, seen, handled, cap, j);
      } else if !k.supported {
        MarkedIsHandled(rest, seen + {k.id.value}, handled, cap, j);
      } else if |handled| < cap {
        MarkedIsHandled(rest, seen + {k.id.value}, if k.input then handled + [k] else handled, cap, j);
      }
    }
  }

  lemma {:induction false} HandledStays(batch: seq<Job>, seen: set<nat>, handled: seq<Job>, cap: int)
    ensures handled <= Scanned(batch, seen, handled, cap).handled
    decreases |batch|
  {
    if batch != [] {
      var j, rest := batch[0], batch[1..];
      if j.id.None? || j.id.value in seen || j.own {
        HandledStays(rest, seen, handled, cap);
      } else if !j.supported {
        HandledStays(rest, seen + {j.id.value}, handled, cap);
      } else if |handled| < cap {
        HandledStays(rest, seen + {j.id.value}, if j.input then handled + [j] else handled, cap);
      }
    }
  }

  /** After a poll every fetched event is worked on, skipped by rule, was seen before, or is newer than the cursor
      (so that the next poll fetches it again). */
  lemma PollLosesNothing(batch: seq<Job>, seen: set<nat>, now: int, cap: int, j: Job)
    requires Named(batch) && Sorted(batch) && j in batch
    ensures var s := Scanned(batch, seen, [], cap); Accounted(j, seen, s, NextSince(s, now))
  {
    LeftIsLate(batch, seen, [], cap);
    if Eligible(j) && j.id.value !in seen { MarkedIsHandled(batch, seen, [], cap, j); }
  }

  /** An event that the scan did not get to. */
  ghost predicate Unreached(batch: seq<Job>, s: Scan, j: Job) {
    j in batch && j.id.Some? && !j.own && j.id.value !in s.seen
  }

  lemma {:induction false} StopIsUnreached(batch: seq<Job>, seen: set<nat>, handled: seq<Job>, cap: int)
    ensures var s := Scanned(batch, seen, handled, cap);
      s.stop.Some? ==> exists j :: Unreached(batch, s, j) && j.created == s.stop.value
    decreases |batch|
  {
    if batch != [] {
      var j, rest := batch[0], batch[1..];
      var s := Scanned(batch, seen, handled, cap);
      assert j in batch && forall k :: k in rest ==> k in batch;
      if j.id.None? || j.id.value in seen || j.own {
        StopIsUnreached(rest, seen, handled, cap);
      } else if j.supported && |handled| >= cap {
        assert Unreached(batch, s, j);
      } else {
        var handled' := if j.supported && j.input then handled + [j] else handled;
        assert s == Scanned(rest, seen + {j.id.value}, handled', cap);
        hide Scanned;
        StopIsUnreached(rest, seen + {j.id.value}, handled', cap);
        if s.stop.Some? {
          var k :| Unreached(rest, s, k) && k.created == s.stop.value;
          assert Unreached(batch, s, k);
        }
      }
    }
  }

  /** The next poll resumes five seconds before now, or one second before the earliest event not reached if that is sooner. */
  lemma CursorIsTight(batch: seq<Job>, seen: set<nat>, now: int, cap: int)
    requires Sorted(batch)
    ensures var s := Scanned(batch, seen, [], cap); var since := NextSince(s, now);
      && since <= now - 5 && (forall j :: Unreached(batch, s, j) ==> since <= j.created - 1)
      && (since == now - 5 || exists j :: Unreached(batch, s, j) && since == j.created - 1)
  {
    LeftIsLate(batch, seen, [], cap);
    StopIsUnreached(batch, seen, [], cap);
    hide Scanned, Sorted;
  }

  // ---- polling on and on ----

  datatype Cursor = Cursor(seen: set<nat>, since: int)

  /** One poll: the events that came back, in order of time, and the clock. */
  datatype Visit = Visit(batch: seq<Job>, now: int)

  function ScanOf(v: Visit, c: Cursor, cap: int): Scan {
    Scanned(v.batch, c.seen, [], cap)
  }

  function Poll(v: Visit, c: Cursor, cap: int): Cursor {
    var s := ScanOf(v, c, cap);
    Cursor(Forget(s.seen), NextSince(s, v.now))
  }

  /** The jobs worked on, poll after poll. */
  function Worked(visits: seq<Visit>, c: Cursor, cap: int): seq<Job>
    decreases |visits|
  {
    if visits == [] then [] else ScanOf(visits[0], c, cap).handled + Worked(visits[1..], Poll(visits[0], c, cap), cap)
  }

  // ---- at most once between resets ----

  ghost predicate DistinctIds(jobs: seq<Job>) {
    && (forall i :: 0 <= i < |jobs| ==> jobs[i].id.Some?)
    && forall i, j :: 0 <= i < j < |jobs| ==> jobs[i].id != jobs[j].id
  }

  /** `handled` are different jobs, all marked. */
  ghost predicate Marked(handled: seq<Job>, seen: set<nat>) {
    DistinctIds(handled) && forall i :: 0 <= i < |handled| ==> handled[i].id.value in seen
  }

  lemma {:induction false} ScanOnce(batch: seq<Job>, seen: set<nat>, handled: seq<Job>, cap: int)
    requires Marked(handled, seen)
    ensures var s := Scanned(batch, seen, handled, cap);
      Marked(s.handled, s.seen) && |s.handled| <= (if |handled| >= cap then |handled| else cap)
    decreases |batch|
  {
    if batch != [] {
      var j, rest := batch[0], batch[1..];
      if j.id.None? || j.id.value in seen || j.own {
        ScanOnce(rest, seen, handled, cap);
      } else if !j.supported {
        ScanOnce(rest, seen + {j.id.value}, handled, cap);
      } else if |handled| < cap {
        ScanOnce(rest, seen + {j.id.value}, if j.input then handled + [j] else handled, cap);
      }
    }
  }

  /** A poll works on at most as many jobs as its cap allows, all of them different. */
  lemma PollIsCapped(batch: seq<Job>, seen: set<nat>, cap: nat)
    ensures var w := Scanned(batch, seen, [], cap).handled; |w| <= cap && DistinctIds(w)
  {
    ScanOnce(batch, seen, [], cap);
  }

  /** No poll of these empties the seen set. */
  ghost predicate NeverReset(visits: seq<Visit>, c: Cursor, cap: int)
    decreases |visits|
  {
    visits == [] || (|ScanOf(visits[0], c, cap).seen| <= 5000 && NeverReset(visits[1..], Poll(visits[0], c, cap), cap))
  }

  /** Between two resets no job is worked on twice, whatever the polls bring back, and none that was seen before. */
  lemma {:induction false} NoJobTwice(visits: seq<Visit>, c: Cursor, cap: int)
    requires NeverReset(visits, c, cap)
    ensures var w := Worked(visits, c, cap);
      DistinctIds(w) && forall i :: 0 <= i < |w| ==> w[i].id.value !in c.seen
    decreases |visits|
  {
    if visits != [] {
      var v, s := visits[0], ScanOf(visits[0], c, cap);
      ScanMarks(v.batch, c.seen, [], cap);
      ScanOnce(v.batch, c.seen, [], cap);
      assert s.handled[0..] == s.handled;
      assert forall i :: 0 <= i < |s.handled| ==> s.handled[i] in s.handled;
      hide Scanned;
      NoJobTwice(visits[1..], Poll(v, c, cap), cap);
    }
  }

  // ---- every job is reached ----

  /** The ids of these events. */
  function Crowd(past: set<Job>): set<nat> {
    set k | k in past && k.id.Some? :: k.id.value
  }

  /** The ids that still wait to be worked on. */
  function Queue(past: set<Job>, seen: set<nat>): set<nat> {
    set k | k in past && Eligible(k) && k.id.value !in seen :: k.id.value
  }

  /** A job at or after the cursor, not seen. */
  predicate Pending(c: Cursor, j: Job) {
    Eligible(j) && j.id.value !in c.seen && (c.since == 0 || j.created >= c.since)
  }

  /** Every poll whose cursor admits `j` brings it back, and whatever else it brings back from up to the second of `j` is
      in `past`. Newer events may come and go. */
  ghost predicate Served(past: set<Job>, visits: seq<Visit>, c: Cursor, cap: int, j: Job)
    decreases |visits|
  {
    visits == [] ||
    var b := visits[0].batch;
    && Named(b) && Sorted(b)
    && (c.since == 0 || j.created >= c.since ==> j in b)
    && (forall k :: k in b && k.created <= j.created ==> k in past)
    && Served(past, visits[1..], Poll(visits[0], c, cap), cap, j)
  }

  lemma SubsetSize<T>(a: set<T>, b: set<T>)
    requires a <= b
    ensures |a| <= |b| && (a != b ==> |a| < |b|)
  {
    assert b == a + (b - a);
  }

  lemma SameEvent(batch: seq<Job>, h: Job, k: Job)
    requires Named(batch) && h in batch && k in batch && h.id.Some? && h.id == k.id
    ensures h == k
  {
  }

  lemma QueueDrops(past: set<Job>, seen: set<nat>, seen': set<nat>, id: nat)
    requires seen <= seen' && id in seen' && id !in seen && exists k :: k in past && Eligible(k) && k.id == Some(id)
    ensures |Queue(past, seen')| < |Queue(past, seen)|
  {
    assert id in Queue(past, seen) && id !in Queue(past, seen');
    SubsetSize(Queue(past, seen'), Queue(past, seen));
  }

  /** A poll works on a pending job, or stops before it: it then stays pending, another job of `past` was worked on, and
      only other ids of `past` were marked. */
  lemma PollProgress(past: set<Job>, v: Visit, c: Cursor, cap: int, j: Job)
    requires Named(v.batch) && Sorted(v.batch) && cap >= 1 && Pending(c, j)
    requires j in v.batch && forall k :: k in v.batch && k.created <= j.created ==> k in past
    ensures var s := ScanOf(v, c, cap);
      j in s.handled ||
      (Pending(Poll(v, c, cap), j) && |Queue(past, s.seen)| < |Queue(past, c.seen)|
       && s.seen <= c.seen + Crowd(past - {j}))
  {
    var s := ScanOf(v, c, cap);
    ScanMarks(v.batch, c.seen, [], cap);
    LeftIsLate(v.batch, c.seen, [], cap);
    MarkedIsHandled(v.batch, c.seen, [], cap, j);
    if j !in s.handled {
      assert s.handled[0..] == s.handled;
      var h := s.handled[0];
      assert h in s.handled;
      forall id | id in s.seen && id !in c.seen
        ensures exists k :: k in past - {j} && k.id == Some(id)
      {
        MarkedIsEarly(v.batch, c.seen, [], cap, id);
        var k :| k in v.batch && k.id == Some(id) && k.created <= s.stop.value;
        assert k in past - {j};
      }
      assert h in past by {
        MarkedIsEarly(v.batch, c.seen, [], cap, h.id.value);
        var k :| k in v.batch && k.id == h.id && k.created <= s.stop.value;
        SameEvent(v.batch, h, k);
      }
      hide Scanned;
      QueueDrops(past, c.seen, s.seen, h.id.value);
    }
  }

  /** Once only the crowd's ids are marked there is no reset before the job is reached. */
  lemma {:induction false} WorkedOnBeforeReset(past: set<Job>, visits: seq<Visit>, c: Cursor, cap: int, j: Job)
    requires cap >= 1 && Pending(c, j) && j in past && Served(past, visits, c, cap, j)
    requires |Crowd(past - {j})| <= 5000 && c.seen <= Crowd(past - {j}) && |visits| >= |Queue(past, c.seen)|
    ensures j in Worked(visits, c, cap)
    decreases |visits|
  {
    QueueHas(past, c, j);
    var v, s := visits[0], ScanOf(visits[0], c, cap);
    PollProgress(past, v, c, cap, j);
    hide ScanOf, Crowd, Queue, Pending;
    if j !in s.handled {
      SubsetSize(s.seen, Crowd(past - {j}));
      WorkedOnBeforeReset(past, visits[1..], Poll(v, c, cap), cap, j);
    }
  }

  lemma QueueHas(past: set<Job>, c: Cursor, j: Job)
    requires Pending(c, j) && j in past
    ensures |Queue(past, c.seen)| > 0
  {
    assert j.id.value in Queue(past, c.seen);
  }

  /** A pending job is worked on within as many polls as jobs up to its second wait now, plus as many as wait when nothing
      is marked, if those are events of at most 5000 other ids. The seen set may hold anything and be reset meanwhile. */
  lemma {:induction false} EveryJobIsWorkedOn(past: set<Job>, visits: seq<Visit>, c: Cursor, cap: int, j: Job)
    requires cap >= 1 && Pending(c, j) && j in past && Served(past, visits, c, cap, j)
    requires |Crowd(past - {j})| <= 5000 && |visits| >= |Queue(past, c.seen)| + |Queue(past, {})|
    ensures j in Worked(visits, c, cap)
    decreases |visits|
  {
    QueueHas(past, c, j);
    var v, s := visits[0], ScanOf(visits[0], c, cap);
    PollProgress(past, v, c, cap, j);
    hide ScanOf, Crowd, Queue, Pending;
    if j !in s.handled {
      if |s.seen| > SEEN_MAX {
        WorkedOnBeforeReset(past, visits[1..], Poll(v, c, cap), cap, j);
      } else {
        EveryJobIsWorkedOn(past, visits[1..], Poll(v, c, cap), cap, j);
      }
    }
  }

  // ---- a relay that returns everything at or after the cursor ----

  /** The events of `relay` at or after `since`; a cursor of 0 asks for all of them. */
  function Fetched(relay: seq<Job>, since: int): (r: seq<Job>)
    ensures forall j :: j in r <==> j in relay && (since == 0 || j.created >= since)
  {
    if relay == [] then []
    else if since == 0 || relay[0].created >= since then [relay[0]] + Fetched(relay[1..], since)
    else Fetched(relay[1..], since)
  }

  lemma {:induction false} FetchedSorted(relay: seq<Job>, since: int)
    requires Sorted(relay)
    ensures Sorted(Fetched(relay, since))
  {
    if relay != [] {
      FetchedSorted(relay[1..], since);
      forall j | j in Fetched(relay[1..], since) ensures relay[0].created <= j.created { assert j in relay[1..]; }
    }
  }

  lemma FetchedNamed(relay: seq<Job>, since: int)
    requires Named(relay)
    ensures Named(Fetched(relay, since))
  {
    var r := Fetched(relay, since);
    forall i, j | 0 <= i < |r| && 0 <= j < |r| && r[i].id.Some? && r[i].id == r[j].id ensures r[i] == r[j] {
      assert r[i] in relay && r[j] in relay;
    }
  }

  /** What the relay holds, and the clock, at one poll. */
  datatype Moment = Moment(relay: seq<Job>, now: int)

  function Visits(moments: seq<Moment>, c: Cursor, cap: int): (r: seq<Visit>)
    ensures |r| == |moments|
    decreases |moments|
  {
    if moments == [] then []
    else
      var v := Visit(Fetched(moments[0].relay, c.since), moments[0].now);
      [v] + Visits(moments[1..], Poll(v, c, cap), cap)
  }

  /** The relay holds `j`, and from second `lo` up to its own only events of `past`. */
  ghost predicate Holds(m: Moment, past: set<Job>, lo: int, j: Job) {
    Named(m.relay) && Sorted(m.relay) && j in m.relay && forall k :: k in m.relay && lo <= k.created <= j.created ==> k in past
  }

  /** Polling from `since` never reaches back before second `lo`: there is nothing there, or nothing in the second before
      it, where the cursor then stays. */
  ghost predicate Fenced(moments: seq<Moment>, lo: int, since: int) {
    || (forall i, k :: 0 <= i < |moments| && k in moments[i].relay ==> k.created >= lo)
    || (2 <= lo <= since + 1
        && (forall i :: 0 <= i < |moments| ==> moments[i].now - OVERLAP >= lo - 1)
        && (forall i, k :: 0 <= i < |moments| && k in moments[i].relay ==> k.created != lo - 1))
  }

  lemma StaysFenced(moments: seq<Moment>, lo: int, c: Cursor, cap: int)
    requires moments != [] && Fenced(moments, lo, c.since)
    ensures Fenced(moments[1..], lo, Poll(Visit(Fetched(moments[0].relay, c.since), moments[0].now), c, cap).since)
  {
    ScanMarks(Fetched(moments[0].relay, c.since), c.seen, [], cap);
    hide Scanned;
  }

  lemma FencedWithin(moments: seq<Moment>, lo: int, since: int, k: Job)
    requires moments != [] && Fenced(moments, lo, since) && k in Fetched(moments[0].relay, since)
    ensures k.created >= lo
  {
  }

  /** With such a relay the events that count are those that can be fetched again: from a silent second on. */
  lemma {:induction false} RelayServes(past: set<Job>, lo: int, moments: seq<Moment>, c: Cursor, cap: int, j: Job)
    requires (forall i :: 0 <= i < |moments| ==> Holds(moments[i], past, lo, j)) && Fenced(moments, lo, c.since)
    ensures Served(past, Visits(moments, c, cap), c, cap, j)
    decreases |moments|
  {
    if moments != [] {
      var m := moments[0];
      assert Holds(m, past, lo, j);
      var v := Visit(Fetched(m.relay, c.since), m.now);
      FetchedSorted(m.relay, c.since);
      FetchedNamed(m.relay, c.since);
      StaysFenced(moments, lo, c, cap);
      forall k | k in v.batch && k.created <= j.created ensures k in past { FencedWithin(moments, lo, c.since, k); }
      hide Poll, Fenced, Named, Sorted;
      RelayServes(past, lo, moments[1..], Poll(v, c, cap), cap, j);
    }
  }

  /** A pending job that the relay holds is worked on, if at most 5000 other ids have events from the silent second up to
      its own. */
  lemma RelayJobIsWorkedOn(past: set<Job>, lo: int, moments: seq<Moment>, c: Cursor, cap: int, j: Job)
    requires cap >= 1 && Pending(c, j) && j in past
    requires (forall i :: 0 <= i < |moments| ==> Holds(moments[i], past, lo, j)) && Fenced(moments, lo, c.since)
    requires |Crowd(past - {j})| <= 5000 && |moments| >= |Queue(past, c.seen)| + |Queue(past, {})|
    ensures j in Worked(Visits(moments, c, cap), c, cap)
  {
    RelayServes(past, lo, moments, c, cap, j);
    EveryJobIsWorkedOn(past, Visits(moments, c, cap), c, cap, j);
    hide Worked, Visits, Served;
  }

  // ---- resets can starve a job ----

  /** `k` requests without input, numbered from 0, all from second `t`. */
  function Blanks(k: nat, t: int): (r: seq<Job>)
    ensures |r| == k && forall i :: 0 <= i < k ==> r[i] == Job(Some(i), t, false, true, false)
  {
    seq(k, (i: nat) => Job(Some(i), t, false, true, false))
  }

  function UpTo(k: nat): (s: set<nat>)
    ensures forall i: nat :: i in s <==> i < k
  {
    if k == 0 then {} else UpTo(k - 1) + {k - 1}
  }

  lemma {:induction false} UpToSize(k: nat)
    ensures |UpTo(k)| == k
  {
    if k > 0 {
      UpToSize(k - 1);
      var below := UpTo(k - 1);
      assert UpTo(k) == below + {k - 1} && k - 1 !in below;
      hide UpTo;
    }
  }

  lemma {:induction false} BlanksScan(i: nat, k: nat, t: int, tail: seq<Job>, cap: int)
    requires i <= k && cap >= 1
    ensures Scanned(Blanks(k, t)[i..] + tail, UpTo(i), [], cap) == Scanned(tail, UpTo(k), [], cap)
    decreases k - i
  {
    var batch := Blanks(k, t)[i..] + tail;
    if i < k {
      assert batch[0] == Blanks(k, t)[i] && batch[1..] == Blanks(k, t)[i + 1..] + tail;
      assert UpTo(i) + {i} == UpTo(i + 1);
      BlanksScan(i + 1, k, t, tail, cap);
    } else {
      assert batch == tail;
    }
  }

  function Prompted(id: nat, t: int): Job { Job(Some(id), t, false, true, true) }

  /** Five thousand empty requests and two jobs from one second. */
  function Burst(t: int): seq<Job> {
    Blanks(SEEN_MAX, t) + [Prompted(SEEN_MAX, t), Prompted(SEEN_MAX + 1, t)]
  }

  lemma BurstPoll(t: int, now: int)
    requires now - OVERLAP >= t - 1
    ensures var c, v := Cursor({}, t - 1), Visit(Burst(t), now);
      ScanOf(v, c, 1).handled == [Prompted(SEEN_MAX, t)] && Poll(v, c, 1) == c
  {
    hide Blanks, UpTo;
    var a, b := Prompted(SEEN_MAX, t), Prompted(SEEN_MAX + 1, t);
    BlanksScan(0, SEEN_MAX, t, [a, b], 1);
    assert Blanks(SEEN_MAX, t)[0..] == Blanks(SEEN_MAX, t) && UpTo(0) == {};
    UpToSize(SEEN_MAX + 1);
    assert UpTo(SEEN_MAX) + {SEEN_MAX} == UpTo(SEEN_MAX + 1);
    assert Scanned([a, b], UpTo(SEEN_MAX), [], 1) == Scanned([b], UpTo(SEEN_MAX + 1), [a], 1)
      == Scan(UpTo(SEEN_MAX + 1), [a], Some(t)) by {
      assert [a, b][1..] == [b];
    }
    hide Scanned;
  }

  /** The same burst at every poll. */
  function Bursts(t: int, nows: seq<int>): (r: seq<Visit>)
    ensures |r| == |nows| && forall i :: 0 <= i < |r| ==> r[i] == Visit(Burst(t), nows[i])
  {
    seq(|nows|, i requires 0 <= i < |nows| => Visit(Burst(t), nows[i]))
  }

  /** When the seen set is reset at every poll, the second job of such a burst is never worked on and the first one is
      worked on at every poll. */
  lemma {:induction false} ResetsCanStarve(t: int, nows: seq<int>)
    requires forall i :: 0 <= i < |nows| ==> nows[i] - OVERLAP >= t - 1
    ensures var w := Worked(Bursts(t, nows), Cursor({}, t - 1), 1);
      |w| == |nows| && forall i :: 0 <= i < |w| ==> w[i] == Prompted(SEEN_MAX, t)
    decreases |nows|
  {
    hide ScanOf, Poll, Burst;
    if nows != [] {
      BurstPoll(t, nows[0]);
      ResetsCanStarve(t, nows[1..]);
      assert Bursts(t, nows)[1..] == Bursts(t, nows[1..]);
    }
  }

  function Elements(jobs: seq<Job>): set<Job> {
    set k | k in jobs
  }

  lemma BurstAt(t: int, i: nat)
    requires i < SEEN_MAX + 2
    ensures |Burst(t)| == SEEN_MAX + 2 && Burst(t)[i] == Job(Some(i), t, false, true, i >= SEEN_MAX)
  {
  }

  lemma BurstShape(t: int)
    ensures var b := Burst(t); Named(b) && Sorted(b) && Prompted(SEEN_MAX + 1, t) in b
  {
    hide Burst;
    var b := Burst(t);
    BurstAt(t, SEEN_MAX + 1);
    forall i: nat | i < |b| ensures b[i].id == Some(i) && b[i].created == t { BurstAt(t, i); }
  }

  /** All of the burst but its second job. */
  function Others(t: int): set<Job> {
    Elements(Burst(t)) - {Prompted(SEEN_MAX + 1, t)}
  }

  lemma OthersHas(t: int, id: nat)
    ensures id in Crowd(Others(t)) <==> id < SEEN_MAX + 1
  {
    hide Burst;
    if id < SEEN_MAX + 1 {
      BurstAt(t, id);
      assert Burst(t)[id] in Others(t);
    } else if id in Crowd(Others(t)) {
      var k :| k in Others(t) && k.id == Some(id);
      var i: nat :| i < |Burst(t)| && Burst(t)[i] == k;
      BurstAt(t, 0);
      BurstAt(t, i);
      assert false;
    }
  }

  lemma BurstCrowd(t: int)
    ensures |Crowd(Others(t))| == SEEN_MAX + 1
  {
    hide Crowd, Others;
    forall id: nat ensures id in Crowd(Others(t)) <==> id < SEEN_MAX + 1 { OthersHas(t, id); }
    UpToSize(SEEN_MAX + 1);
    assert Crowd(Others(t)) == UpTo(SEEN_MAX + 1);
  }

  lemma {:induction false} BurstServes(t: int, nows: seq<int>)
    requires forall i :: 0 <= i < |nows| ==> nows[i] - OVERLAP >= t - 1
    ensures Served(Elements(Burst(t)), Bursts(t, nows), Cursor({}, t - 1), 1, Prompted(SEEN_MAX + 1, t))
    decreases |nows|
  {
    if nows != [] {
      BurstShape(t);
      BurstPoll(t, nows[0]);
      hide ScanOf, Poll, Burst, Named, Sorted, Crowd;
      BurstServes(t, nows[1..]);
      assert Bursts(t, nows)[1..] == Bursts(t, nows[1..]);
    }
  }

  /** Whatever the polls bring back, events of at most `n` other ids never keep a job from being worked on. */
  ghost predicate NeverStarves(n: nat) {
    forall past, visits, c, cap, j | Served(past, visits, c, cap, j) ::
      cap >= 1 && Pending(c, j) && j in past && |Crowd(past - {j})| <= n && |visits| >= |Queue(past, c.seen)| + |Queue(past, {})|
      ==> j in Worked(visits, c, cap)
  }

  lemma BurstStarves(n: nat)
    requires n > SEEN_MAX
    ensures !NeverStarves(n)
  {
    var t := 1;
    var past, c, j := Elements(Burst(t)), Cursor({}, t - 1), Prompted(SEEN_MAX + 1, t);
    var nows := seq(2 * |Queue(past, {})|, _ => OVERLAP);
    BurstShape(t);
    BurstCrowd(t);
    BurstServes(t, nows);
    ResetsCanStarve(t, nows);
    hide Burst, Served, Worked, Crowd, Queue;
    assert j in past && j !in Worked(Bursts(t, nows), c, 1);
  }

  /** The bound on the other ids is exact: 5000 of them never starve a job, 5001 can. */
  lemma StarvesExactlyAbove(n: nat)
    ensures NeverStarves(n) <==> n <= 5000
  {
    hide Served, Worked, Crowd, Queue, Pending;
    if n <= SEEN_MAX {
      forall past, visits, c, cap, j | Served(past, visits, c, cap, j) && cap >= 1 && Pending(c, j) && j in past
        && |Crowd(past - {j})| <= n && |visits| >= |Queue(past, c.seen)| + |Queue(past, {})|
        ensures j in Worked(visits, c, cap)
      {
        EveryJobIsWorkedOn(past, visits, c, cap, j);
      }
    } else {
      BurstStarves(n);
    }
  }
}
