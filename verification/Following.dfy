/**
 The live tail: consumers that follow a partition, and producers whose appends
 finish in a worker thread and notify afterwards on the event loop.

 A step is what happens between two awaits, or one effect of a worker thread;
 steps of all coroutines and threads interleave in any order. `pending` holds
 one entry for every finished append whose notification has yet to run.
 */
module Following {
  import opened Bytes
  import opened Records
  import opened Frames
  import opened Reading
  import opened Paging
  import opened Tails

  datatype Phase =
    | AtTop                                                    // about to subscribe
    | Fetching(waiter: nat, floor: nat)                        // subscribed when the log held `floor` records
    | Sending(waiter: nat, seen: nat, batch: seq<Record>)      // the read saw `seen` records
    | Parked(waiter: nat)
    | Ended

  datatype Follower = Follower(key: Key, start: int, offset: int, sent: seq<Record>, phase: Phase)

  datatype World = World(logs: map<Key, Content>, pending: multiset<Key>, tail: TailState<nat>,
                         followers: map<nat, Follower>)

  datatype Step =
    | Create(key: Key, first: int)
    | Produce(key: Key, recordKey: Option<seq<byte>>, value: Option<seq<byte>>, timestamp: int)
    | RunNotify(key: Key)
    | Join(id: nat, key: Key, start: int)
    | StartRead(id: nat, unused: nat)
    | FinishRead(id: nat, seen: nat)      // a read sees everything committed before it started, perhaps more
    | Send(id: nat)
    | Wake(id: nat)
    | Timeout(id: nat)
    | Leave(id: nat)                      // the client goes away, or the read fails
    | Shutdown

  function Length(w: World, key: Key): nat {
    if key in w.logs then |w.logs[key].records| else 0
  }

  predicate Enabled(w: World, step: Step) {
    match step
    case Create(key, _) => key !in w.logs
    case Produce(key, _, _, _) => key in w.logs
    case RunNotify(key) => key in w.pending
    case Join(id, _, _) => id !in w.followers
    case StartRead(id, unused) => id in w.followers && w.followers[id].phase.AtTop? && unused !in w.tail.made
    case FinishRead(id, seen) =>
      && id in w.followers && w.followers[id].phase.Fetching?
      && w.followers[id].phase.floor <= seen <= Length(w, w.followers[id].key)
    case Send(id) => id in w.followers && w.followers[id].phase.Sending?
    case Wake(id) => id in w.followers && w.followers[id].phase.Parked? && w.followers[id].phase.waiter in w.tail.fired
    case Timeout(id) => id in w.followers && w.followers[id].phase.Parked?
    case Leave(id) => id in w.followers
    case Shutdown => true
  }

  function Appended(c: Content, key: Option<seq<byte>>, value: Option<seq<byte>>, timestamp: int): Content {
    c.(records := c.records + [Record(c.first + |c.records|, timestamp, key, value)])
  }

  function Fetched(w: World, f: Follower, seen: nat): Phase
    requires f.phase.Fetching? && seen <= Length(w, f.key)
  {
    if f.key !in w.logs then Ended                                        // no such topic
    else if f.offset < w.logs[f.key].first then Ended                     // out of range
    else Sending(f.phase.waiter, seen,
                 Cut(w.logs[f.key].records[..seen], f.offset - w.logs[f.key].first, Some(BATCH)))
  }

  function Sent(f: Follower, closed: bool): Follower
    requires f.phase.Sending?
  {
    var batch := f.phase.batch;
    f.(sent := f.sent + batch,
       offset := if batch != [] then batch[|batch| - 1].offset + 1 else f.offset,
       phase := if |batch| == BATCH then AtTop         // a full batch: more may be waiting
                else if closed then Ended
                else Parked(f.phase.waiter))
  }

  function Woken(closed: bool): Phase {
    if closed then Ended else AtTop
  }

  function Next(w: World, step: Step): World
    requires Enabled(w, step)
  {
    match step
    case Create(key, first) => w.(logs := w.logs[key := Content(first, [])])
    case Produce(key, recordKey, value, timestamp) =>
      w.(logs := w.logs[key := Appended(w.logs[key], recordKey, value, timestamp)],
         pending := w.pending + multiset{key})
    case RunNotify(key) => w.(pending := w.pending - multiset{key}, tail := Notified(w.tail, key))
    case Join(id, key, start) => With(w, id, Follower(key, start, start, [], AtTop))
    case StartRead(id, unused) =>
      var f := w.followers[id];
      var (tail, waiter) := Subscribed(w.tail, f.key, unused);
      With(w, id, f.(phase := Fetching(waiter, Length(w, f.key)))).(tail := tail)
    case FinishRead(id, seen) =>
      With(w, id, w.followers[id].(phase := Fetched(w, w.followers[id], seen)))
    case Send(id) => With(w, id, Sent(w.followers[id], w.tail.closed))
    case Wake(id) => With(w, id, w.followers[id].(phase := Woken(w.tail.closed)))
    case Timeout(id) => With(w, id, w.followers[id].(phase := Woken(w.tail.closed)))
    case Leave(id) => With(w, id, w.followers[id].(phase := Ended))
    case Shutdown => w.(tail := CloseTail(w.tail))
  }

  function With(w: World, id: nat, f: Follower): World {
    w.(followers := w.followers[id := f])
  }

  // --------------------------------------------------------------- invariant

  ghost predicate StreamInv(w: World, f: Follower) {
    && f.offset == f.start + |f.sent|
    && (f.sent != [] ==> f.key in w.logs)
    && (f.key in w.logs ==> SliceAt(w.logs[f.key], f.start, f.sent))
    && (f.phase.Sending? ==>
          && f.key in w.logs && f.offset >= w.logs[f.key].first
          && SliceAt(w.logs[f.key], f.offset, f.phase.batch)
          && f.phase.seen <= |w.logs[f.key].records|
          && (|f.phase.batch| != BATCH ==> f.offset + |f.phase.batch| >= w.logs[f.key].first + f.phase.seen))
    && (f.phase.Fetching? ==> f.phase.floor <= Length(w, f.key))
    && (f.phase.Parked? ==> f.key in w.logs && f.offset >= w.logs[f.key].first)
  }

  /** How much of the log a waiting follower has, or is sure to have, seen. */
  function Covered(w: World, f: Follower): int
    requires f.phase.Parked? ==> f.key in w.logs
  {
    match f.phase
    case Fetching(_, floor) => floor
    case Sending(_, seen, _) => seen
    case Parked(_) => f.offset - w.logs[f.key].first
    case _ => 0
  }

  predicate Waits(f: Follower) {
    f.phase.Fetching? || f.phase.Sending? || f.phase.Parked?
  }

  /** While its event has not fired it is registered, and every record not covered has a notification to come. */
  ghost predicate WaitInv(w: World, f: Follower) {
    && (f.phase.Parked? ==> f.key in w.logs)
    && (Waits(f) ==>
          && f.phase.waiter in w.tail.made
          && (f.phase.waiter !in w.tail.fired ==>
                && f.key in w.tail.events && w.tail.events[f.key] == f.phase.waiter
                && w.pending[f.key] >= Length(w, f.key) - Covered(w, f)))
    && (f.phase.Parked? && w.tail.closed ==> f.phase.waiter in w.tail.fired)
  }

  ghost predicate WorldInv(w: World) {
    && TailInv(w.tail)
    && (forall k :: k in w.logs ==> Numbered(w.logs[k].records, w.logs[k].first))
    && (forall id :: id in w.followers ==> StreamInv(w, w.followers[id]) && WaitInv(w, w.followers[id]))
  }

  ghost predicate Initial(w: World) {
    && TailInv(w.tail) && !w.tail.closed
    && w.followers == map[]
    && (forall k :: k in w.logs ==> Numbered(w.logs[k].records, w.logs[k].first))
  }

  /** How the shared part of the world may change under a follower that takes no step. */
  ghost predicate Advances(w: World, v: World) {
    && (forall k :: k in w.logs ==>
          k in v.logs && v.logs[k].first == w.logs[k].first && w.logs[k].records <= v.logs[k].records)
    && w.tail.made <= v.tail.made && w.tail.fired <= v.tail.fired
    && (forall k :: k in w.tail.events && w.tail.events[k] !in v.tail.fired ==>
          && k in v.tail.events && v.tail.events[k] == w.tail.events[k]
          && v.pending[k] - w.pending[k] >= Length(v, k) - Length(w, k))
    && (v.tail.closed && !w.tail.closed ==> forall k :: k in w.tail.events ==> w.tail.events[k] in v.tail.fired)
  }

  lemma SharedAdvances(w: World, v: World)
    requires v.logs == w.logs && v.pending == w.pending && v.tail == w.tail
    ensures Advances(w, v)
  {
  }

  lemma ProduceAdvances(w: World, step: Step)
    requires (step.Produce? || step.Create?) && Enabled(w, step)
    ensures Advances(w, Next(w, step))
  {
  }

  lemma NotifyAdvances(w: World, key: Key)
    requires TailInv(w.tail) && Enabled(w, RunNotify(key))
    ensures Advances(w, Next(w, RunNotify(key)))
  {
    hide TailInv;
    NotifyKeeps(w.tail, key);
    var v := Next(w, RunNotify(key));
    assert v.logs == w.logs && v.tail == Notified(w.tail, key);
    assert forall k :: k != key ==> v.pending[k] == w.pending[k];
    hide Next, Notified, Enabled;
  }

  lemma SubscribeAdvances(w: World, id: nat, unused: nat)
    requires TailInv(w.tail) && Enabled(w, StartRead(id, unused))
    ensures Advances(w, Next(w, StartRead(id, unused)))
  {
    SubscribeKeeps(w.tail, w.followers[id].key, unused);
  }

  lemma CloseAdvances(w: World)
    requires TailInv(w.tail)
    ensures Advances(w, Next(w, Shutdown))
  {
    hide TailInv;
    CloseKeeps(w.tail);
  }

  lemma StepAdvances(w: World, step: Step)
    requires TailInv(w.tail) && Enabled(w, step)
    ensures Advances(w, Next(w, step))
  {
    hide TailInv, Advances, Fetched, Sent;
    if step.Produce? || step.Create? {
      ProduceAdvances(w, step);
    } else if step.RunNotify? {
      NotifyAdvances(w, step.key);
    } else if step.StartRead? {
      SubscribeAdvances(w, step.id, step.unused);
    } else if step.Shutdown? {
      CloseAdvances(w);
    } else {
      SharedAdvances(w, Next(w, step));
    }
  }

  /** A follower that takes no step keeps its invariant. */
  lemma BystanderKeeps(w: World, v: World, f: Follower)
    requires Advances(w, v) && StreamInv(w, f) && WaitInv(w, f)
    ensures StreamInv(v, f) && WaitInv(v, f)
  {
    if f.key in w.logs {
      SliceGrows(w.logs[f.key], v.logs[f.key], f.start, f.sent);
      if f.phase.Sending? {
        SliceGrows(w.logs[f.key], v.logs[f.key], f.offset, f.phase.batch);
      }
    }
  }

  lemma BatchIsSlice(c: Content, offset: int, seen: nat)
    requires Numbered(c.records, c.first) && offset >= c.first && seen <= |c.records|
    ensures var batch := Cut(c.records[..seen], offset - c.first, Some(BATCH));
            && SliceAt(c, offset, batch) && |batch| <= BATCH
            && (|batch| != BATCH ==> offset + |batch| >= c.first + seen)
            && (offset < c.first + seen ==> batch != [])
  {
  }

  lemma LastOfSlice(c: Content, offset: int, batch: seq<Record>)
    requires Numbered(c.records, c.first) && SliceAt(c, offset, batch) && batch != []
    ensures batch[|batch| - 1].offset + 1 == offset + |batch|
  {
    assert batch[|batch| - 1] == c.records[offset - c.first + |batch| - 1];
  }

  lemma ActorStartRead(w: World, step: Step)
    requires WorldInv(w) && step.StartRead? && Enabled(w, step)
    ensures var v := Next(w, step); var f := v.followers[step.id]; StreamInv(v, f) && WaitInv(v, f)
  {
    hide Numbered, SliceAt;
    SubscribeKeeps(w.tail, w.followers[step.id].key, step.unused);
    var f := w.followers[step.id];
    assert StreamInv(w, f);
  }

  lemma ActorFinishRead(w: World, step: Step)
    requires WorldInv(w) && step.FinishRead? && Enabled(w, step)
    ensures var v := Next(w, step); var f := v.followers[step.id]; StreamInv(v, f) && WaitInv(v, f)
  {
    hide Numbered, SliceAt, Cut;
    var f := w.followers[step.id];
    assert StreamInv(w, f) && WaitInv(w, f);
    if f.key in w.logs && f.offset >= w.logs[f.key].first {
      BatchIsSlice(w.logs[f.key], f.offset, step.seen);
    }
  }

  lemma ActorSend(w: World, step: Step)
    requires WorldInv(w) && step.Send? && Enabled(w, step)
    ensures var v := Next(w, step); var f := v.followers[step.id]; StreamInv(v, f) && WaitInv(v, f)
  {
    hide Numbered;
    var f := w.followers[step.id];
    assert StreamInv(w, f) && WaitInv(w, f);
    var c := w.logs[f.key];
    SliceJoins(c, f.start, f.sent, f.phase.batch);
    if f.phase.batch != [] {
      LastOfSlice(c, f.offset, f.phase.batch);
    }
  }

  lemma ActorRests(w: World, step: Step)
    requires WorldInv(w) && Enabled(w, step) && (step.Wake? || step.Timeout? || step.Leave? || step.Join?)
    ensures var v := Next(w, step); var f := v.followers[step.id]; StreamInv(v, f) && WaitInv(v, f)
  {
    hide Numbered;
    if !step.Join? {
      assert StreamInv(w, w.followers[step.id]);
    }
  }

  function Actor(step: Step): Option<nat> {
    match step
    case Join(id, _, _) => Some(id)
    case StartRead(id, _) => Some(id)
    case FinishRead(id, _) => Some(id)
    case Send(id) => Some(id)
    case Wake(id) => Some(id)
    case Timeout(id) => Some(id)
    case Leave(id) => Some(id)
    case _ => None
  }

  lemma TailKept(w: World, step: Step)
    requires WorldInv(w) && Enabled(w, step)
    ensures TailInv(Next(w, step).tail)
    ensures forall k :: k in Next(w, step).logs ==> Numbered(Next(w, step).logs[k].records, Next(w, step).logs[k].first)
  {
    hide StreamInv, WaitInv, Fetched, Sent;
    match step
    case RunNotify(key) => NotifyKeeps(w.tail, key);
    case StartRead(id, unused) => SubscribeKeeps(w.tail, w.followers[id].key, unused);
    case Shutdown => CloseKeeps(w.tail);
    case _ =>
  }

  /** Every step keeps the invariant. */
  lemma StepKeeps(w: World, step: Step)
    requires WorldInv(w) && Enabled(w, step)
    ensures WorldInv(Next(w, step))
  {
    hide TailInv, Numbered, Advances, Fetched, Sent, SliceAt, WaitInv;
    var v := Next(w, step);
    StepAdvances(w, step);
    TailKept(w, step);
    forall id | id in v.followers
      ensures StreamInv(v, v.followers[id]) && WaitInv(v, v.followers[id])
    {
      if Actor(step) == Some(id) {
        match step
        case StartRead(_, _) => ActorStartRead(w, step);
        case FinishRead(_, _) => ActorFinishRead(w, step);
        case Send(_) => ActorSend(w, step);
        case _ => ActorRests(w, step);
      } else {
        assert v.followers[id] == w.followers[id];
        BystanderKeeps(w, v, w.followers[id]);
      }
    }
  }

  ghost predicate Reaches(w: World, steps: seq<Step>, v: World)
    decreases steps
  {
    if steps == [] then w == v else Enabled(w, steps[0]) && Reaches(Next(w, steps[0]), steps[1..], v)
  }

  lemma {:induction false} RunKeeps(w: World, steps: seq<Step>, v: World)
    requires WorldInv(w) && Reaches(w, steps, v)
    ensures WorldInv(v)
    decreases steps
  {
    hide WorldInv, Enabled, Next;
    if steps == [] {
    } else {
      StepKeeps(w, steps[0]);
      RunKeeps(Next(w, steps[0]), steps[1..], v);
    }
  }

  // ---------------------------------------------------------------- theorems

  /**
   No lost wake-up. In every reachable world, a follower parked on an event that
   has not fired still has that event registered, and of the records it has not
   read each one has a finished append whose notification is yet to run.
   */
  lemma NoLostWakeup(start: World, steps: seq<Step>, w: World, id: nat)
    requires Initial(start) && Reaches(start, steps, w)
    requires id in w.followers && w.followers[id].phase.Parked?
    ensures var f := w.followers[id];
            && f.key in w.logs
            && var unread := w.logs[f.key].first + |w.logs[f.key].records| - f.offset;
               f.phase.waiter !in w.tail.fired ==>
                 && f.key in w.tail.events && w.tail.events[f.key] == f.phase.waiter
                 && w.pending[f.key] >= unread
                 && (unread > 0 ==> f.key in w.pending)
  {
    hide TailInv, Numbered, StreamInv;
    RunKeeps(start, steps, w);
    assert WaitInv(w, w.followers[id]);
  }

  /** And once that notification runs, the follower can wake. */
  lemma NotificationWakes(start: World, steps: seq<Step>, w: World, id: nat)
    requires Initial(start) && Reaches(start, steps, w)
    requires id in w.followers && w.followers[id].phase.Parked?
    requires w.followers[id].key in w.pending
    ensures Enabled(Next(w, RunNotify(w.followers[id].key)), Wake(id))
  {
    hide Numbered, StreamInv;
    RunKeeps(start, steps, w);
    assert WaitInv(w, w.followers[id]);
    NotifyKeeps(w.tail, w.followers[id].key);
  }

  /** A read that starts with records to read brings at least one of them. */
  lemma ReadDelivers(start: World, steps: seq<Step>, w: World, id: nat, seen: nat)
    requires Initial(start) && Reaches(start, steps, w)
    requires Enabled(w, FinishRead(id, seen))
    requires var f := w.followers[id];
             f.key in w.logs && w.logs[f.key].first <= f.offset < w.logs[f.key].first + f.phase.floor
    ensures var g := Next(w, FinishRead(id, seen)).followers[id];
            g.phase.Sending? && 0 < |g.phase.batch| <= BATCH
  {
    hide SliceAt, StreamInv, WaitInv, TailInv;
    RunKeeps(start, steps, w);
    var f := w.followers[id];
    BatchIsSlice(w.logs[f.key], f.offset, seen);
  }

  /**
   The stream is the log. Whatever appends, wake-ups and timeouts interleave,
   what a follower has been sent is exactly the records from where it started:
   consecutive offsets, no gap and no repeat, and it will ask for the next.
   */
  lemma StreamIsLog(start: World, steps: seq<Step>, w: World, id: nat)
    requires Initial(start) && Reaches(start, steps, w) && id in w.followers
    ensures var f := w.followers[id];
            && f.offset == f.start + |f.sent|
            && Numbered(f.sent, f.start)
            && (f.sent != [] ==>
                  && f.key in w.logs && w.logs[f.key].first <= f.start
                  && f.sent <= Suffix(w.logs[f.key].records, f.start - w.logs[f.key].first))
  {
    hide TailInv, WaitInv;
    RunKeeps(start, steps, w);
    var f := w.followers[id];
    assert StreamInv(w, f);
    if f.sent != [] {
      var c, i := w.logs[f.key], f.start - w.logs[f.key].first;
      assert Suffix(c.records, i)[..|f.sent|] == f.sent;
      forall j | 0 <= j < |f.sent|
        ensures f.sent[j].offset == f.start + j
      {
        assert f.sent[j] == c.records[i + j];
      }
    }
  }

  // ---------------------------------------------------------------- delivery

  /**
   When a stream goes on. A full batch is followed by another read, closed or not;
   on an open tail a short batch parks and a wake-up reads again. A stream ends
   exactly when its client leaves, a read is refused, or the tail is closed
   where it would park or wakes up.
   */
  lemma StreamsGoOn(w: World, step: Step, id: nat)
    requires Enabled(w, step) && id in w.followers && w.followers[id].phase != Ended
    ensures id in Next(w, step).followers
    ensures var f, p := w.followers[id], Next(w, step).followers[id].phase;
            && (p == Ended <==>
                  || step == Leave(id)
                  || (step.FinishRead? && step.id == id && (f.key !in w.logs || f.offset < w.logs[f.key].first))
                  || (w.tail.closed && step == Send(id) && |f.phase.batch| != 500)
                  || (w.tail.closed && (step == Wake(id) || step == Timeout(id))))
            && (step == Send(id) && |f.phase.batch| == 500 ==> p == AtTop)
            && (step == Send(id) && |f.phase.batch| != 500 && !w.tail.closed ==> p == Parked(f.phase.waiter))
            && ((step == Wake(id) || step == Timeout(id)) && !w.tail.closed ==> p == AtTop)
  {
    hide Cut, Subscribed, Notified;
  }

  lemma {:induction false} Unused(made: set<nat>) returns (n: nat)
    ensures n !in made && forall m :: m in made ==> m < n
    decreases made
  {
    if made == {} {
      n := 0;
    } else {
      var m :| m in made;
      var rest := Unused(made - {m});
      n := if m < rest then rest else m + 1;
      forall x | x in made
        ensures x < n
      {
        assert x == m || x in made - {m};
      }
    }
  }

  /** A follower that has not ended always has a step of its own to take, other than to leave. */
  lemma FollowersCanStep(start: World, steps: seq<Step>, w: World, id: nat)
    requires Initial(start) && Reaches(start, steps, w) && id in w.followers && w.followers[id].phase != Ended
    ensures exists step :: Actor(step) == Some(id) && !step.Leave? && Enabled(w, step)
  {
    hide TailInv, Numbered, SliceAt, WaitInv;
    RunKeeps(start, steps, w);
    var f := w.followers[id];
    assert StreamInv(w, f);
    var unused := Unused(w.tail.made);
    var step := match f.phase
      case AtTop => StartRead(id, unused)
      case Fetching(_, floor) => FinishRead(id, floor)
      case Sending(_, _, _) => Send(id)
      case _ => Timeout(id);
    assert Actor(step) == Some(id) && Enabled(w, step);
  }

  /** How many steps of its own take a follower past an offset that the log holds. */
  function Owed(w: World, f: Follower, target: int): nat {
    if f.offset > target then 0
    else
      var need := target - f.offset + 1;
      match f.phase
      case AtTop => 4 * need - 1
      case Fetching(_, floor) =>
        if f.key in w.logs && floor > f.offset - w.logs[f.key].first then 4 * need - 2 else 4 * need + 2
      case Sending(_, _, batch) => if batch != [] then 4 * need - 3 else 4 * need + 1
      case Parked(_) => 4 * need
      case Ended => 0
  }

  function OwnSteps(steps: seq<Step>, id: nat): nat {
    if steps == [] then 0 else (if Actor(steps[0]) == Some(id) then 1 else 0) + OwnSteps(steps[1..], id)
  }

  /** The log of this follower holds this offset. */
  predicate Holds(w: World, f: Follower, target: int) {
    f.key in w.logs && target < w.logs[f.key].first + |w.logs[f.key].records|
  }

  /** Each of its own steps brings it nearer. */
  lemma OwnStepPays(w: World, step: Step, id: nat, target: int)
    requires WorldInv(w) && Enabled(w, step) && Actor(step) == Some(id) && id in w.followers
    requires Holds(w, w.followers[id], target) && Next(w, step).followers[id].phase != Ended
    ensures var v := Next(w, step); var f, g := w.followers[id], v.followers[id];
            && g.key == f.key && g.start == f.start && Holds(v, g, target)
            && (Owed(v, g, target) < Owed(w, f, target) || Owed(v, g, target) == 0)
            && g.offset >= f.offset
  {
    hide TailInv, WaitInv, Numbered, Cut, Subscribed, SliceAt;
    var f := w.followers[id];
    assert StreamInv(w, f);
    if step.Send? && f.phase.batch != [] {
      LastOfSlice(w.logs[f.key], f.offset, f.phase.batch);
    }
    if step.FinishRead? && f.key in w.logs && f.offset >= w.logs[f.key].first {
      BatchIsSlice(w.logs[f.key], f.offset, step.seen);
    }
  }

  /** The steps of others take nothing back. */
  lemma OtherStepKeeps(w: World, step: Step, id: nat, target: int)
    requires Enabled(w, step) && Actor(step) != Some(id) && id in w.followers && Holds(w, w.followers[id], target)
    ensures var v := Next(w, step);
            && id in v.followers && v.followers[id] == w.followers[id] && Holds(v, w.followers[id], target)
            && Owed(v, w.followers[id], target) == Owed(w, w.followers[id], target)
  {
    hide Subscribed, Notified;
  }

  lemma {:induction false} EndedStays(w: World, steps: seq<Step>, v: World, id: nat)
    requires Reaches(w, steps, v) && id in w.followers && w.followers[id].phase == Ended
    ensures id in v.followers && v.followers[id].phase == Ended
    decreases steps
  {
    hide Fetched, Sent, Subscribed, Notified;
    if steps == [] {
    } else {
      EndedStays(Next(w, steps[0]), steps[1..], v, id);
    }
  }

  lemma {:induction false} RunPays(w: World, steps: seq<Step>, v: World, id: nat, target: int)
    requires WorldInv(w) && Reaches(w, steps, v) && id in w.followers && Holds(w, w.followers[id], target)
    requires id in v.followers ==> v.followers[id].phase != Ended
    requires OwnSteps(steps, id) >= Owed(w, w.followers[id], target)
    ensures WorldInv(v) && id in v.followers
    ensures v.followers[id].key == w.followers[id].key && v.followers[id].start == w.followers[id].start
    ensures v.followers[id].offset > target
    decreases steps
  {
    hide WorldInv, Enabled, Next, Holds, Owed;
    if steps == [] {
      NothingOwed(w, w.followers[id], target);
    } else {
      var m := Next(w, steps[0]);
      StepKeeps(w, steps[0]);
      ActsOn(w, steps[0], id);
      if m.followers[id].phase == Ended {
        EndedStays(m, steps[1..], v, id);
      }
      if Actor(steps[0]) == Some(id) {
        OwnStepPays(w, steps[0], id, target);
      } else {
        OtherStepKeeps(w, steps[0], id, target);
      }
      RunPays(m, steps[1..], v, id, target);
    }
  }

  lemma NothingOwed(w: World, f: Follower, target: int)
    requires Owed(w, f, target) == 0 && f.phase != Ended
    ensures f.offset > target
  {
  }

  lemma ActsOn(w: World, step: Step, id: nat)
    requires Enabled(w, step) && id in w.followers
    ensures id in Next(w, step).followers
  {
    hide Fetched, Sent, Subscribed, Notified;
  }

  /**
   Every record arrives. From any reachable world, and whatever others do, once a
   follower has taken as many of its own steps as it owes for an offset that its
   log holds, at most four for each record up to there and two more, and has not
   ended, it has been sent the record at that offset.
   */
  lemma EveryRecordArrives(start: World, before: seq<Step>, w: World, steps: seq<Step>, v: World, id: nat, target: int)
    requires Initial(start) && Reaches(start, before, w) && Reaches(w, steps, v)
    requires id in w.followers && Holds(w, w.followers[id], target)
    requires id in v.followers ==> v.followers[id].phase != Ended
    requires OwnSteps(steps, id) >= Owed(w, w.followers[id], target)
    ensures target >= w.followers[id].offset ==> Owed(w, w.followers[id], target) <= 4 * (target - w.followers[id].offset + 1) + 2
    ensures id in v.followers
    ensures var f, g, c := w.followers[id], v.followers[id], w.logs[w.followers[id].key];
            target >= f.start ==>
              && 0 <= target - c.first < |c.records| && target - f.start < |g.sent|
              && g.sent[target - f.start] == c.records[target - c.first]
  {
    hide TailInv, WaitInv, Numbered, Reaches, SliceAt, LogsGrow;
    RunKeeps(start, before, w);
    RunPays(w, steps, v, id, target);
    RunAdvances(w, steps, v);
    var f, g := w.followers[id], v.followers[id];
    assert StreamInv(v, g);
    if target >= f.start {
      LogsKept(w, v, f.key);
      SliceHas(v.logs[f.key], f.start, g.sent, target - f.start);
    }
  }

  lemma SliceHas(c: Content, offset: int, rs: seq<Record>, i: nat)
    requires SliceAt(c, offset, rs) && i < |rs|
    ensures 0 <= offset - c.first + i < |c.records| && c.records[offset - c.first + i] == rs[i]
  {
  }

  /** Logs only grow. */
  ghost predicate LogsGrow(w: World, v: World) {
    forall k :: k in w.logs ==> k in v.logs && v.logs[k].first == w.logs[k].first && w.logs[k].records <= v.logs[k].records
  }

  lemma LogsKept(w: World, v: World, key: Key)
    requires LogsGrow(w, v) && key in w.logs
    ensures key in v.logs && v.logs[key].first == w.logs[key].first && w.logs[key].records <= v.logs[key].records
  {
  }

  lemma {:induction false} RunAdvances(w: World, steps: seq<Step>, v: World)
    requires WorldInv(w) && Reaches(w, steps, v)
    ensures LogsGrow(w, v)
    decreases steps
  {
    hide Enabled, Next;
    if steps == [] {
    } else {
      StepAdvances(w, steps[0]);
      StepKeeps(w, steps[0]);
      RunAdvances(Next(w, steps[0]), steps[1..], v);
    }
  }

  /**
   So a produced record reaches every follower that asked for it: with the key,
   value and timestamp it was produced with, under the next offset of its log.
   */
  lemma ProducedArrives(start: World, before: seq<Step>, w: World, key: Key, recordKey: Option<seq<byte>>,
                        value: Option<seq<byte>>, timestamp: int, steps: seq<Step>, v: World, id: nat)
    requires Initial(start) && Reaches(start, before, w) && key in w.logs
    requires Reaches(Next(w, Produce(key, recordKey, value, timestamp)), steps, v)
    requires id in w.followers && w.followers[id].key == key && id in v.followers && v.followers[id].phase != Ended
    requires var offset := w.logs[key].first + |w.logs[key].records|;
             && w.followers[id].start <= offset
             && OwnSteps(steps, id) >= Owed(Next(w, Produce(key, recordKey, value, timestamp)), w.followers[id], offset)
    ensures var offset := w.logs[key].first + |w.logs[key].records|;
            var at := offset - v.followers[id].start;
            && v.followers[id].start == w.followers[id].start && at < |v.followers[id].sent|
            && v.followers[id].sent[at] == Record(offset, timestamp, recordKey, value)
  {
    hide WorldInv, Owed, Initial, Reaches;
    InitialWorld(start);
    var step := Produce(key, recordKey, value, timestamp);
    var m, offset := Next(w, step), w.logs[key].first + |w.logs[key].records|;
    ReachesNext(start, before, w, step);
    EveryRecordArrives(start, before + [step], m, steps, v, id, offset);
    RunKeeps(start, before + [step], m);
    RunPays(m, steps, v, id, offset);
  }

  lemma InitialWorld(w: World)
    requires Initial(w)
    ensures WorldInv(w)
  {
    hide TailInv, Numbered;
  }

  lemma {:induction false} ReachesNext(w: World, steps: seq<Step>, v: World, step: Step)
    requires Reaches(w, steps, v) && Enabled(v, step)
    ensures Reaches(w, steps + [step], Next(v, step))
    decreases steps
  {
    hide Enabled, Next;
    if steps == [] {
      assert (steps + [step])[1..] == [];
    } else {
      ReachesNext(Next(w, steps[0]), steps[1..], v, step);
      assert (steps + [step])[1..] == steps[1..] + [step];
    }
  }

  /** Everyone who joined follows what it asked for, from where it asked. */
  ghost predicate JoinedAs(w: World, steps: seq<Step>) {
    forall s :: s in steps && s.Join? ==>
      s.id in w.followers && w.followers[s.id].key == s.key && w.followers[s.id].start == s.start
  }

  lemma StepJoined(w: World, steps: seq<Step>, step: Step)
    requires JoinedAs(w, steps) && Enabled(w, step)
    ensures JoinedAs(Next(w, step), steps + [step])
  {
    hide Fetched, Subscribed, Notified;
  }

  lemma {:induction false} RunJoined(w: World, before: seq<Step>, steps: seq<Step>, v: World)
    requires JoinedAs(w, before) && Reaches(w, steps, v)
    ensures JoinedAs(v, before + steps)
    decreases steps
  {
    hide JoinedAs, Enabled, Next;
    if steps == [] {
      assert before + [] == before;
    } else {
      StepJoined(w, before, steps[0]);
      RunJoined(Next(w, steps[0]), before + [steps[0]], steps[1..], v);
      assert before + [steps[0]] + steps[1..] == before + steps;
    }
  }

  lemma JoinsFollow(start: World, steps: seq<Step>, w: World)
    requires Initial(start) && Reaches(start, steps, w)
    ensures JoinedAs(w, steps)
  {
    hide TailInv, Numbered, Reaches;
    RunJoined(start, [], steps, w);
    assert [] + steps == steps;
  }

  /** Shutdown releases everyone: once closed, every parked follower can wake and ends, and none parks again. */
  lemma ShutdownReleases(start: World, steps: seq<Step>, w: World, step: Step, id: nat)
    requires Initial(start) && Reaches(start, steps, w) && w.tail.closed
    requires Enabled(w, step) && id in w.followers
    ensures Next(w, step).tail.closed
    ensures w.followers[id].phase.Parked? ==> Enabled(w, Wake(id)) && Next(w, Wake(id)).followers[id].phase == Ended
    ensures Next(w, step).followers[id].phase.Parked? ==> w.followers[id].phase.Parked?
  {
    hide TailInv, Numbered, StreamInv;
    RunKeeps(start, steps, w);
    assert WaitInv(w, w.followers[id]);
  }

  function Unread(w: World, key: Key, offset: int): nat {
    if key in w.logs && offset < w.logs[key].first + |w.logs[key].records|
    then w.logs[key].first + |w.logs[key].records| - offset else 0
  }

  /** How many of its own steps a follower may still take once the tail is closed. */
  function StepsLeft(w: World, f: Follower): nat {
    match f.phase
    case Ended => 0
    case Parked(_) => 1
    case AtTop => 4 * Unread(w, f.key, f.offset) + 3
    case Fetching(_, _) => 4 * Unread(w, f.key, f.offset) + 2
    case Sending(_, _, batch) =>
      if |batch| == BATCH then 4 * Unread(w, f.key, f.offset + |batch|) + 4 else 1
  }

  /** After shutdown every step a stream takes brings its end nearer, unless records are still being appended. */
  lemma ShutdownEnds(start: World, steps: seq<Step>, w: World, step: Step, id: nat)
    requires Initial(start) && Reaches(start, steps, w) && w.tail.closed
    requires Enabled(w, step) && id in w.followers && w.followers[id].phase != Ended
    requires Actor(step) == Some(id)
    ensures StepsLeft(Next(w, step), Next(w, step).followers[id]) < StepsLeft(w, w.followers[id])
  {
    hide TailInv, WaitInv, Numbered, Cut, Subscribed;
    RunKeeps(start, steps, w);
    var f := w.followers[id];
    assert StreamInv(w, f);
    if step.Send? && f.phase.batch != [] {
      LastOfSlice(w.logs[f.key], f.offset, f.phase.batch);
    }
    if step.FinishRead? && f.key in w.logs && f.offset >= w.logs[f.key].first {
      BatchIsSlice(w.logs[f.key], f.offset, step.seen);
    }
  }

  lemma OthersWait(w: World, step: Step, id: nat)
    requires Enabled(w, step) && id in w.followers && Actor(step) != Some(id) && !step.Produce? && !step.Create?
    ensures Next(w, step).followers[id] == w.followers[id]
    ensures StepsLeft(Next(w, step), w.followers[id]) == StepsLeft(w, w.followers[id])
  {
  }
}
