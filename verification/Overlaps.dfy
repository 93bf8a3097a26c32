/**
 Which overlaps of appends keep the bound of the sync policy: runs that break
 it with two calls in flight, and exact conditions for it to hold.
 */
module Overlaps {
  import opened Bytes
  import opened Records
  import opened Frames
  import opened Indexes
  import opened Recovery
  import opened Segments
  import opened Chains
  import Crashes
  import opened Durability
  import opened Commits

  /** Sync when n appends have been counted. */
  function Every(n: int): SyncPolicy {
    SyncPolicy(Some(n), None)
  }

  // ------------------------------------------------------------ runs, joined

  lemma ReachesEnd(policy: SyncPolicy, k: nat, steps: seq<Step>, v: World)
    ensures Reaches(v, policy, k, steps[|steps|..], v)
  {
  }

  /** The i-th step of a run, and then the rest of it. */
  lemma ReachesFrom(w: World, policy: SyncPolicy, k: nat, steps: seq<Step>, i: nat, v: World)
    requires i < |steps| && Enabled(w, steps[i]) && Admitted(w, steps[i], k)
    requires Reaches(Next(w, policy, steps[i]), policy, k, steps[i + 1..], v)
    ensures Reaches(w, policy, k, steps[i..], v)
    ensures i == 0 ==> Reaches(w, policy, k, steps, v)
  {
    hide Next, Enabled, Admitted;
    assert steps[i..][1..] == steps[i + 1..];
    assert i == 0 ==> steps[i..] == steps;
  }

  lemma {:induction false} ReachesThen(w: World, policy: SyncPolicy, k: nat, a: seq<Step>, m: World, b: seq<Step>, v: World)
    requires Reaches(w, policy, k, a, m) && Reaches(m, policy, k, b, v)
    ensures Reaches(w, policy, k, a + b, v)
    decreases a
  {
    hide Next, Enabled, Admitted;
    if a == [] {
      assert a + b == b;
    } else {
      ReachesThen(Next(w, policy, a[0]), policy, k, a[1..], m, b, v);
      assert (a + b)[1..] == a[1..] + b;
    }
  }

  // ---------------------------------------------------------- plain appends

  /** The tail is open and takes m more of the smallest records without a roll. */
  ghost predicate Takes(log: LogState, m: nat) {
    && LogInv(log) && log.segs != [] && Tail(log).open
    && Position(Tail(log)) + 32 * m <= log.maxBytes
    && -0x8000_0000_0000_0000 <= LogNext(log) && LogNext(log) + m <= 0x8000_0000_0000_0000
  }

  /** One of them: no roll, and one more unsynced record exactly. */
  lemma PlainAppend(log: LogState, m: nat)
    requires Takes(log, m + 1)
    ensures var (after, r) := AppendLog(log, None, None, 0);
            && r == Ok(LogNext(log)) && Takes(after, m)
            && Unsynced(after) == Unsynced(log) + 1
  {
    hide IndexOf, Extend, Encode, Linked, Sealed, AllInv, AllIndexable, AllRecords, Whole, Stored, AppendTo, Total;
    var r := Record(LogNext(log), 0, None, None);
    AppendOutcome(log, None, None, 0);
    PlainTail(log, r);
    var t := AppendTo(Tail(log), r).0;
    AllRecordsTail(log, t);
    EncodeSnocTotal(Tail(log).records, r);
    WholeOfSnoc(Tail(log).records, r, Tail(log).synced);
    assert WithTail(log, t).segs[..|log.segs| - 1] == log.segs[..|log.segs| - 1];
  }

  lemma PlainTail(log: LogState, r: Record)
    requires LogInv(log) && log.segs != [] && Tail(log).open && Encodable(r) && r.offset == LogNext(log)
    requires HasRoom(Tail(log), log.maxBytes, r)
    ensures AppendTo(Tail(log), r).0 == Tail(log).(records := Tail(log).records + [r])
    ensures Tail(log).synced <= Position(Tail(log))
  {
    hide Linked, Sealed, Stored, Total, Indexable, AppendTo, Encodable;
    RoomyAppendTo(Tail(log), log.maxBytes, r);
  }

  lemma WholeOfSnoc(rs: seq<Record>, r: Record, cut: nat)
    requires cut <= Total(rs)
    ensures Whole(rs + [r], cut) == Whole(rs, cut)
  {
    EncodeSnocTotal(rs, r);
    assert (rs + [r])[..|rs|] == rs;
  }

  lemma PlainSync(log: LogState, m: nat)
    requires Takes(log, m)
    ensures SyncLog(log).1 == Ok(()) && Takes(SyncLog(log).0, m) && Unsynced(SyncLog(log).0) == 0
  {
    hide LogInv, AllRecords, Total, Crashes.DurableCount;
    SyncUnsynced(log);
    Crashes.DurableBounded(SyncLog(log).0);
  }

  // --------------------------------------------------------- one at a time

  function OneCall(t: nat): seq<Step> {
    [Ask(t, None, None, 0), Write(t), Load(t), Store(t), Decide(t, 0.0)]
  }

  /** A call with no other in flight, below the threshold: one more counted, one more unsynced. */
  lemma OneCallRuns(w: World, n: int, k: nat, t: nat, m: nat) returns (v: World)
    requires Quiet(w) && Takes(w.log, m + 1) && t !in w.calls && k >= 1 && w.appends + 1 < n
    ensures Reaches(w, Every(n), k, OneCall(t), v) && Quiet(v)
    ensures Takes(v.log, m) && v.appends == w.appends + 1 && Unsynced(v.log) == Unsynced(w.log) + 1
    ensures v.calls.Keys == w.calls.Keys + {t}
  {
    hide LogInv, Unsynced, InFlight, Waiting, AppendLog, Tail, LogNext, Position, Reaches;
    PlainAppend(w.log, m);
    QuietWaiting(w);
    var p := Every(n);
    var w1 := Next(w, p, Ask(t, None, None, 0));
    var w2 := Next(w1, p, Write(t));
    var w3 := Next(w2, p, Load(t));
    var w4 := Next(w3, p, Store(t));
    v := Next(w4, p, Decide(t, 0.0));
    var steps := OneCall(t);
    ReachesEnd(p, k, steps, v);
    ReachesFrom(w4, p, k, steps, 4, v);
    ReachesFrom(w3, p, k, steps, 3, v);
    ReachesFrom(w2, p, k, steps, 2, v);
    ReachesFrom(w1, p, k, steps, 1, v);
    ReachesFrom(w, p, k, steps, 0, v);
  }

  ghost predicate IdsBelow(w: World, ids: nat) {
    forall t :: t in w.calls ==> t < ids
  }

  /** m calls, one after another, below the threshold. */
  lemma {:induction false} CallsRun(w: World, n: int, k: nat, ids: nat, m: nat, more: nat)
    returns (steps: seq<Step>, v: World)
    requires Quiet(w) && Takes(w.log, m + more) && IdsBelow(w, ids) && k >= 1 && (m > 0 ==> w.appends + m < n)
    ensures Reaches(w, Every(n), k, steps, v) && Quiet(v)
    ensures Takes(v.log, more) && v.appends == w.appends + m && Unsynced(v.log) == Unsynced(w.log) + m
    ensures IdsBelow(v, ids + m)
    ensures forall s :: s in steps ==> !s.Mark?
    decreases m
  {
    hide Takes, Unsynced, Reaches;
    if m == 0 {
      ReachesEnd(Every(n), k, [], w);
      steps, v := [], w;
    } else {
      var u := OneCallRuns(w, n, k, ids, m - 1 + more);
      var rest;
      rest, v := CallsRun(u, n, k, ids + 1, m - 1, more);
      ReachesThen(w, Every(n), k, OneCall(ids), u, rest, v);
      steps := OneCall(ids) + rest;
    }
  }

  // ----------------------------------------------------- two calls in flight

  /** A call appends, is the one to reach the threshold, and syncs. */
  function ToSync(a: nat): seq<Step> {
    [Ask(a, None, None, 0), Write(a), Load(a), Store(a), Decide(a, 0.0), Flush(a)]
  }

  /** Before it resets the count, another call appends and counts; it decides after the reset. */
  function Overtake(a: nat, b: nat): seq<Step> {
    [Ask(b, None, None, 0), Write(b), Load(b), Store(b), Mark(a), Decide(b, 0.0)]
  }

  lemma SyncRuns(w: World, n: int, k: nat, a: nat, m: nat) returns (v: World)
    requires Quiet(w) && Takes(w.log, m + 1) && a !in w.calls && k >= 1 && w.appends + 1 == n
    ensures Reaches(w, Every(n), k, ToSync(a), v)
    ensures Takes(v.log, m) && v.appends == n && Unsynced(v.log) == 0
    ensures a in v.calls && v.calls[a].Marking? && v.calls == w.calls[a := v.calls[a]]
  {
    hide LogInv, Unsynced, InFlight, Waiting, AppendLog, SyncLog, Tail, LogNext, Position, Reaches;
    PlainAppend(w.log, m);
    QuietWaiting(w);
    var p, steps := Every(n), ToSync(a);
    var w1 := Next(w, p, steps[0]);
    var w2 := Next(w1, p, steps[1]);
    v := SyncEnds(w2, n, k, a, m);
    ReachesFrom(w1, p, k, steps, 1, v);
    ReachesFrom(w, p, k, steps, 0, v);
  }

  /** Once its record is written. */
  lemma SyncEnds(w: World, n: int, k: nat, a: nat, m: nat) returns (v: World)
    requires a in w.calls && w.calls[a].Appended? && Takes(w.log, m) && w.appends + 1 == n
    ensures Reaches(w, Every(n), k, ToSync(a)[2..], v)
    ensures Takes(v.log, m) && v.appends == n && Unsynced(v.log) == 0
    ensures a in v.calls && v.calls[a].Marking? && v.calls == w.calls[a := v.calls[a]]
  {
    hide LogInv, Unsynced, InFlight, Waiting, AppendLog, SyncLog, Tail, LogNext, Position, Reaches;
    var p, steps := Every(n), ToSync(a);
    PlainSync(w.log, m);
    var w3 := Next(w, p, steps[2]);
    var w4 := Next(w3, p, steps[3]);
    var w5 := Next(w4, p, steps[4]);
    v := Next(w5, p, steps[5]);
    ReachesEnd(p, k, steps, v);
    ReachesFrom(w5, p, k, steps, 5, v);
    ReachesFrom(w4, p, k, steps, 4, v);
    ReachesFrom(w3, p, k, steps, 3, v);
    ReachesFrom(w, p, k, steps, 2, v);
  }

  lemma OvertakeRuns(w: World, n: int, k: nat, a: nat, b: nat, m: nat) returns (v: World)
    requires Takes(w.log, m + 1) && a in w.calls && b !in w.calls && k >= 2 && n >= 1
    requires w.calls[a].Marking? && |InFlight(w.calls)| == 1
    requires forall t :: t in w.calls && t != a ==> w.calls[t].Done?
    ensures Reaches(w, Every(n), k, Overtake(a, b), v) && Quiet(v)
    ensures Takes(v.log, m) && v.appends == 0 && Unsynced(v.log) == Unsynced(w.log) + 1
    ensures v.calls.Keys == w.calls.Keys + {b}
  {
    hide LogInv, Unsynced, InFlight, Waiting, AppendLog, SyncLog, Tail, LogNext, Position, Reaches;
    PlainAppend(w.log, m);
    var p, steps := Every(n), Overtake(a, b);
    var w1 := Next(w, p, steps[0]);
    var w2 := Next(w1, p, steps[1]);
    var w3 := Next(w2, p, steps[2]);
    var w4 := Next(w3, p, steps[3]);
    var w5 := Next(w4, p, steps[4]);
    v := Next(w5, p, steps[5]);
    ReachesEnd(p, k, steps, v);
    ReachesFrom(w5, p, k, steps, 5, v);
    ReachesFrom(w4, p, k, steps, 4, v);
    ReachesFrom(w3, p, k, steps, 3, v);
    ReachesFrom(w2, p, k, steps, 2, v);
    ReachesFrom(w1, p, k, steps, 1, v);
    ReachesFrom(w, p, k, steps, 0, v);
  }

  /** From just below the threshold, two calls leave a record unsynced that is not counted. */
  lemma OverlapRuns(w: World, n: int, k: nat, a: nat, b: nat, m: nat) returns (v: World)
    requires Quiet(w) && Takes(w.log, m + 2) && a !in w.calls && b !in w.calls && a != b
    requires k >= 2 && n >= 1 && w.appends + 1 == n
    ensures Reaches(w, Every(n), k, ToSync(a) + Overtake(a, b), v) && Quiet(v)
    ensures Takes(v.log, m) && v.appends == 0 && Unsynced(v.log) == 1
    ensures v.calls.Keys == w.calls.Keys + {a, b}
  {
    hide Takes, Unsynced, Reaches, InFlight;
    var u := SyncRuns(w, n, k, a, m + 1);
    QuietWaiting(w);
    InFlightWith(w.calls, a, u.calls[a]);
    v := OvertakeRuns(u, n, k, a, b, m);
    ReachesThen(w, Every(n), k, ToSync(a), u, Overtake(a, b), v);
  }

  /** An empty partition. */
  function Empty(maxBytes: int): World {
    World(LogState(maxBytes, [SegmentState(0, [], 0, true)]), 0, map[], 0, 0, map[])
  }

  lemma EmptyTakes(maxBytes: int, m: nat)
    requires ValidLimit(maxBytes) && 32 * m <= maxBytes
    ensures Takes(Empty(maxBytes).log, m) && Unsynced(Empty(maxBytes).log) == 0 && Quiet(Empty(maxBytes))
    ensures Opened(Empty(maxBytes), 0)
  {
    hide Linked, Sealed, Indexable, Encodable;
    OneSegmentInv(Empty(maxBytes).log);
    var segs := Empty(maxBytes).log.segs;
    assert segs[..0] == [] && AllRecords(segs) == AllRecords(segs[..0]) + [];
  }

  /**
   A sync for every record does not make every record durable: two calls from
   an empty log, step by step, after which both have returned and one record
   is unsynced.
   */
  lemma EveryRecordFails(maxBytes: int) returns (v: World)
    requires ValidLimit(maxBytes) && 64 <= maxBytes
    ensures Reaches(Empty(maxBytes), Every(1), 2,
                    [Ask(0, None, None, 0), Write(0), Load(0), Store(0), Decide(0, 0.0), Flush(0),
                     Ask(1, None, None, 0), Write(1), Load(1), Store(1), Mark(0), Decide(1, 0.0)], v)
    ensures Quiet(v) && v.log.segs != [] && Unsynced(v.log) == 1
  {
    hide Takes, Unsynced, Reaches, InFlight, Empty, Quiet;
    EmptyTakes(maxBytes, 2);
    EmptyCalls(maxBytes);
    v := OverlapRuns(Empty(maxBytes), 1, 2, 0, 1, 0);
    assert ToSync(0) + Overtake(0, 1)
        == [Ask(0, None, None, 0), Write(0), Load(0), Store(0), Decide(0, 0.0), Flush(0),
            Ask(1, None, None, 0), Write(1), Load(1), Store(1), Mark(0), Decide(1, 0.0)];
    TakesNotEmpty(v.log, 0);
  }

  lemma EmptyCalls(maxBytes: int)
    ensures Empty(maxBytes).calls == map[] && Empty(maxBytes).appends == 0 && Empty(maxBytes).log.segs != []
  {
  }

  lemma TakesNotEmpty(log: LogState, m: nat)
    requires Takes(log, m)
    ensures LogInv(log) && log.segs != []
  {
    hide LogInv;
  }

  /** And for any threshold: n records unsynced with no call in flight, after at most two calls at a time. */
  lemma OverlapFails(maxBytes: int, n: nat) returns (steps: seq<Step>, v: World)
    requires ValidLimit(maxBytes) && n >= 1 && 64 * n <= maxBytes
    ensures Reaches(Empty(maxBytes), Every(n), 2, steps, v)
    ensures Quiet(v) && v.log.segs != [] && Unsynced(v.log) == n
  {
    hide Takes, Unsynced, Reaches, InFlight, Empty, Quiet;
    EmptyTakes(maxBytes, 2 * n);
    EmptyCalls(maxBytes);
    var first, u := CallsRun(Empty(maxBytes), n, 2, 0, n - 1, n + 1);
    var x := OverlapRuns(u, n, 2, n, n + 1, n - 1);
    var last;
    last, v := CallsRun(x, n, 2, n + 2, n - 1, 0);
    ReachesThen(u, Every(n), 2, ToSync(n) + Overtake(n, n + 1), x, last, v);
    ReachesThen(Empty(maxBytes), Every(n), 2, first, u, ToSync(n) + Overtake(n, n + 1) + last, v);
    steps := first + (ToSync(n) + Overtake(n, n + 1) + last);
    TakesNotEmpty(v.log, 0);
  }

  // ---------------------------------------------------------- a lost update

  /** Two calls load the same count, and the second store overwrites the first. */
  function LostUpdate(a: nat, b: nat): seq<Step> {
    [Ask(a, None, None, 0), Write(a), Load(a), Ask(b, None, None, 0), Write(b), Load(b),
     Store(a), Decide(a, 0.0), Store(b), Decide(b, 0.0)]
  }

  lemma LostUpdateRuns(w: World, n: int, a: nat, b: nat) returns (v: World)
    requires Quiet(w) && Takes(w.log, 2) && a !in w.calls && b !in w.calls && a != b && w.appends + 1 < n
    ensures Reaches(w, Every(n), 2, LostUpdate(a, b), v) && Quiet(v)
    ensures Takes(v.log, 0) && v.appends == w.appends + 1 && Unsynced(v.log) == Unsynced(w.log) + 2
  {
    hide LogInv, Unsynced, InFlight, Waiting, AppendLog, SyncLog, Tail, LogNext, Position, Reaches;
    PlainAppend(w.log, 1);
    QuietWaiting(w);
    var p, steps := Every(n), LostUpdate(a, b);
    var w1 := Next(w, p, steps[0]);
    var w2 := Next(w1, p, steps[1]);
    PlainAppend(w2.log, 0);
    InFlightWith(w.calls, a, w1.calls[a]);
    InFlightWith(w1.calls, a, w2.calls[a]);
    var w3 := Next(w2, p, steps[2]);
    InFlightWith(w2.calls, a, w3.calls[a]);
    v := LostUpdateRest(w3, n, a, b);
    ReachesFrom(w2, p, 2, steps, 2, v);
    ReachesFrom(w1, p, 2, steps, 1, v);
    ReachesFrom(w, p, 2, steps, 0, v);
  }

  lemma LostUpdateRest(w: World, n: int, a: nat, b: nat) returns (v: World)
    requires Takes(w.log, 1) && a in w.calls && w.calls[a].Loaded? && w.calls[a].count == w.appends
    requires b !in w.calls && |InFlight(w.calls)| == 1 && w.appends + 1 < n
    requires forall t :: t in w.calls && t != a ==> w.calls[t].Done?
    ensures Reaches(w, Every(n), 2, LostUpdate(a, b)[3..], v) && Quiet(v)
    ensures Takes(v.log, 0) && v.appends == w.appends + 1 && Unsynced(v.log) == Unsynced(w.log) + 1
  {
    hide LogInv, Unsynced, InFlight, Waiting, AppendLog, SyncLog, Tail, LogNext, Position, Reaches;
    PlainAppend(w.log, 0);
    var p, steps := Every(n), LostUpdate(a, b);
    var w4 := Next(w, p, steps[3]);
    var w5 := Next(w4, p, steps[4]);
    var w6 := Next(w5, p, steps[5]);
    v := LostUpdateEnd(w6, n, a, b);
    ReachesFrom(w5, p, 2, steps, 5, v);
    ReachesFrom(w4, p, 2, steps, 4, v);
    ReachesFrom(w, p, 2, steps, 3, v);
  }

  lemma LostUpdateEnd(w: World, n: int, a: nat, b: nat) returns (v: World)
    requires Takes(w.log, 0) && a != b && a in w.calls && b in w.calls && w.appends + 1 < n
    requires w.calls[a].Loaded? && w.calls[a].count == w.appends && w.calls[b].Loaded? && w.calls[b].count == w.appends
    requires forall t :: t in w.calls && t != a && t != b ==> w.calls[t].Done?
    ensures Reaches(w, Every(n), 2, LostUpdate(a, b)[6..], v) && Quiet(v)
    ensures v.log == w.log && v.appends == w.appends + 1
  {
    hide LogInv, Unsynced, InFlight, Waiting, AppendLog, SyncLog, Tail, LogNext, Position, Reaches;
    var p, steps := Every(n), LostUpdate(a, b);
    var w7 := Next(w, p, steps[6]);
    var w8 := Next(w7, p, steps[7]);
    var w9 := Next(w8, p, steps[8]);
    v := Next(w9, p, steps[9]);
    ReachesEnd(p, 2, steps, v);
    ReachesFrom(w9, p, 2, steps, 9, v);
    ReachesFrom(w8, p, 2, steps, 8, v);
    ReachesFrom(w7, p, 2, steps, 7, v);
    ReachesFrom(w, p, 2, steps, 6, v);
  }

  /**
   What a lost update costs: for every threshold of two or more, a run with no
   reset in it at all, so that no record is written beside one, ends with n
   records unsynced and no call in flight.
   */
  lemma LostUpdateFails(maxBytes: int, n: nat) returns (steps: seq<Step>, v: World)
    requires ValidLimit(maxBytes) && n >= 2 && 32 * n <= maxBytes
    ensures Reaches(Empty(maxBytes), Every(n), 2, steps, v) && forall s :: s in steps ==> !s.Mark?
    ensures Quiet(v) && v.log.segs != [] && Unsynced(v.log) == n
  {
    hide Takes, Unsynced, Reaches, InFlight, Empty, Quiet;
    EmptyTakes(maxBytes, n);
    EmptyCalls(maxBytes);
    var first, u := CallsRun(Empty(maxBytes), n, 2, 0, n - 2, 2);
    v := LostUpdateRuns(u, n, n, n + 1);
    ReachesThen(Empty(maxBytes), Every(n), 2, first, u, LostUpdate(n, n + 1), v);
    steps := first + LostUpdate(n, n + 1);
    TakesNotEmpty(v.log, 0);
  }

  // ------------------------------------------------------------ exactly when

  /** With calls one at a time: none loads a count that another then changes. */
  ghost predicate Solo(w: World) {
    && |InFlight(w.calls)| <= 1
    && forall t :: t in w.calls && w.calls[t].Loaded? ==> w.calls[t].count == w.appends
  }

  lemma OnlyOne(calls: map<nat, Call>, t: nat, u: nat)
    requires |InFlight(calls)| <= 1
    requires t in calls && !calls[t].Done? && u in calls && !calls[u].Done?
    ensures t == u
  {
    if t != u {
      assert {t, u} <= InFlight(calls);
      SetSmaller({t, u}, InFlight(calls));
    }
  }

  lemma SetSmaller(a: set<nat>, b: set<nat>)
    requires a <= b
    ensures |a| <= |b|
  {
    assert b == a + (b - a);
  }

  lemma SoloKeeps(w: World, policy: SyncPolicy, step: Step)
    requires Solo(w) && Enabled(w, step) && Admitted(w, step, 1)
    ensures Orderly(w, step) && Solo(Next(w, policy, step))
  {
    hide InFlight, AppendLog, SyncLog, RollLog, CloseLog;
    var v := Next(w, policy, step);
    if !step.RollNow? && !step.SyncNow? && !step.CloseNow? {
      InFlightWith(w.calls, step.t, v.calls[step.t]);
      forall u | u in w.calls && !w.calls[u].Done? && step.t in w.calls && !w.calls[step.t].Done?
        ensures u == step.t
      {
        OnlyOne(w.calls, step.t, u);
      }
    }
  }

  lemma {:induction false} SoloRun(w: World, policy: SyncPolicy, steps: seq<Step>, v: World)
    requires Solo(w) && Reaches(w, policy, 1, steps, v)
    ensures OrderlyRun(w, policy, steps)
    decreases steps
  {
    hide Solo, Next, Enabled, Admitted, Orderly;
    if steps == [] {
    } else {
      SoloKeeps(w, policy, steps[0]);
      SoloRun(Next(w, policy, steps[0]), policy, steps[1..], v);
    }
  }

  lemma ForgettingStep(w: World, policy: SyncPolicy, step: Step, slipped: nat)
    requires Enabled(w, step)
    ensures var x := w.(slipped := slipped);
            Enabled(x, step) && Next(x, policy, step) == Next(w, policy, step).(slipped := Next(x, policy, step).slipped)
  {
    hide AppendLog, SyncLog, RollLog, CloseLog;
  }

  /** History changes nothing: the same run from a world whose slips are forgotten. */
  lemma {:induction false} Forgetting(w: World, policy: SyncPolicy, k: nat, steps: seq<Step>, v: World, slipped: nat)
    returns (u: World)
    requires Reaches(w, policy, k, steps, v)
    ensures Reaches(w.(slipped := slipped), policy, k, steps, u)
    ensures u.log == v.log && u.calls == v.calls && u.appends == v.appends
    decreases steps
  {
    hide Next, Enabled, InFlight;
    if steps == [] {
      u := w.(slipped := slipped);
    } else {
      ForgettingStep(w, policy, steps[0], slipped);
      var x := Next(w.(slipped := slipped), policy, steps[0]);
      u := Forgetting(Next(w, policy, steps[0]), policy, k, steps[1..], v, x.slipped);
    }
  }

  lemma SoloBound(w: World, n: int, steps: seq<Step>, v: World)
    requires n >= 1 && Quiet(w) && LogInv(w.log) && w.log.segs != [] && w.appends < n
    requires Unsynced(w.log) <= w.appends
    requires Reaches(w, Every(n), 1, steps, v) && Quiet(v)
    ensures v.log.segs != [] && Unsynced(v.log) < n
  {
    hide LogInv, Unsynced, Reaches, InFlight, Waiting, OrderlyRun;
    var x := w.(slipped := 0);
    var y := Forgetting(w, Every(n), 1, steps, v, 0);
    QuietWaiting(w);
    assert Inv(x, n, 0) && Solo(x) && NoneSlipped(x);
    RunKeeps(x, Every(n), 1, steps, y, n, 0);
    SoloRun(x, Every(n), steps, y);
    OrderlyRunKeeps(x, Every(n), 1, steps, y);
    QuietBound(y, n, 0);
  }

  /** However calls follow one another from here, once none is in flight fewer than n records are unsynced. */
  ghost predicate KeepsOneByOne(w: World, n: int) {
    forall steps, v :: Reaches(w, Every(n), 1, steps, v) && Quiet(v) ==> v.log.segs != [] && Unsynced(v.log) < n
  }

  /**
   What is left of an overlap once no call is in flight. From there calls one
   at a time keep the bound exactly if every unsynced record is still counted;
   an overlap that loses one breaks the bound later, even without another.
   */
  lemma QuietExactly(w: World, n: int, ids: nat)
    requires n >= 1 && Quiet(w) && Takes(w.log, RoomBelow(n, w.appends)) && w.appends < n && IdsBelow(w, ids)
    ensures KeepsOneByOne(w, n) <==> Unsynced(w.log) <= w.appends
  {
    hide Takes, Unsynced, Reaches, LogInv;
    TakesNotEmpty(w.log, RoomBelow(n, w.appends));
    if Unsynced(w.log) <= w.appends {
      forall steps, v | Reaches(w, Every(n), 1, steps, v) && Quiet(v)
        ensures v.log.segs != [] && Unsynced(v.log) < n
      {
        SoloBound(w, n, steps, v);
      }
    } else {
      var steps, v := CallsRun(w, n, 1, ids, n - 1 - w.appends, 0);
      TakesNotEmpty(v.log, 0);
      assert Reaches(w, Every(n), 1, steps, v) && Quiet(v) && Unsynced(v.log) >= n;
    }
  }

  /** The calls that fit below the threshold. */
  function RoomBelow(n: int, appends: nat): nat {
    if n - 1 > appends then n - 1 - appends else 0
  }

  /** From an empty log, with at most k calls in flight, whenever none is fewer than n records are unsynced. */
  ghost predicate Bounded(n: nat, maxBytes: int, k: nat) {
    forall steps, v :: Reaches(Empty(maxBytes), Every(n), k, steps, v) && Quiet(v) ==>
      v.log.segs != [] && Unsynced(v.log) < n
  }

  /**
   The policy of n records keeps its bound exactly if there is never more than
   one call in flight, for every n whose records fit in a segment twice over.
   */
  lemma BoundedIff(n: nat, maxBytes: int, k: nat)
    requires ValidLimit(maxBytes) && n >= 1 && 64 * n <= maxBytes
    ensures Bounded(n, maxBytes, k) <==> k <= 1
  {
    hide Takes, Unsynced, Reaches, LogInv, Empty, Quiet;
    EmptyTakes(maxBytes, 0);
    EmptyCalls(maxBytes);
    TakesNotEmpty(Empty(maxBytes).log, 0);
    if k <= 1 {
      forall steps, v | Reaches(Empty(maxBytes), Every(n), k, steps, v) && Quiet(v)
        ensures v.log.segs != [] && Unsynced(v.log) < n
      {
        FewerCalls(Empty(maxBytes), Every(n), k, 1, steps, v);
        SoloBound(Empty(maxBytes), n, steps, v);
      }
    } else {
      var steps, v := OverlapFails(maxBytes, n);
      FewerCalls(Empty(maxBytes), Every(n), 2, k, steps, v);
    }
  }

  lemma {:induction false} FewerCalls(w: World, policy: SyncPolicy, j: nat, k: nat, steps: seq<Step>, v: World)
    requires j <= k && Reaches(w, policy, j, steps, v)
    ensures Reaches(w, policy, k, steps, v)
    decreases steps
  {
    hide Next, Enabled, InFlight;
    if steps == [] {
    } else {
      FewerCalls(Next(w, policy, steps[0]), policy, j, k, steps[1..], v);
    }
  }
}
