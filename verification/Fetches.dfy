/**
 The read a follower awaits is a reader of the log beside its appenders. This
 joins the two state machines: what such a reader returns when it has a full
 batch, or has come to the end, is what a follower may receive.
 */
module Fetches {
  import opened Bytes
  import opened Records
  import opened Frames
  import opened Chains
  import opened Paging
  import opened Appenders
  import S = Snapshots
  import F = Following

  lemma CommittedIsHeld(segs: seq<Seg>, r: S.Reader)
    requires SegsInv(segs) && S.ReaderInv(segs, r) && !r.place.Refused?
    ensures r.committed <= |S.Held(segs).records|
  {
    hide AllRecords, Complete, Linked, Stored, S.PlaceInv, SliceAt;
    var views, i := Views(segs), r.count - 1;
    ViewsInv(segs);
    PrefixCount(views, i);
    PrefixRecords(views, i);
    S.PrefixOfAll(views, i + 1);
  }

  /** A run from the offset that is a full batch, or holds all that was committed, is a cut of what some read can see. */
  lemma RunIsCut(c: Content, offset: int, run: seq<Record>, committed: nat) returns (seen: nat)
    requires SliceAt(c, offset, run) && c.first <= offset && committed <= |c.records| && |run| <= BATCH
    requires |run| == BATCH || offset + |run| >= c.first + committed
    ensures committed <= seen <= |c.records|
    ensures Cut(c.records[..seen], offset - c.first, Some(BATCH)) == run
  {
    var n := offset - c.first;
    if |run| == BATCH {
      seen := |c.records|;
      assert c.records[n..][..BATCH] == c.records[n..n + BATCH];
    } else if run == [] {
      seen := committed;
    } else {
      seen := n + |run|;
      assert c.records[..seen][n..] == c.records[n..n + |run|];
    }
  }

  /** A bounded read takes no more steps once it holds a full batch. */
  predicate ReadEnds(r: S.Reader) {
    |r.yielded| <= BATCH && (r.place.Finished? || |r.yielded| == BATCH)
  }

  /** What a bounded read beside appenders returns, as a cut of the log. */
  lemma ReadIsCut(start: S.World, steps: seq<S.Step>, w: S.World, id: nat) returns (seen: nat)
    requires Appenders.Initial(start.writers) && start.readers == map[]
    requires S.Runs(start, steps, w) && id in w.readers
    requires !w.readers[id].place.Refused? && ReadEnds(w.readers[id])
    ensures w.writers.segs != []
    ensures var c, r := S.Held(w.writers.segs), w.readers[id];
            && c.first <= r.offset && r.committed <= seen <= |c.records|
            && Cut(c.records[..seen], r.offset - c.first, Some(BATCH)) == r.yielded
  {
    hide WritersInv, CallsInv, SegsInv, S.ReaderInv, S.Held, SliceAt, Cut, Appenders.Initial, S.Runs;
    S.ReadersSeeARun(start, steps, w, id);
    var r := w.readers[id];
    S.FirstHeld(w.writers.segs);
    InitialInv(start.writers);
    S.RunKeeps(start, steps, w);
    WritersSegs(w.writers);
    CommittedIsHeld(w.writers.segs, r);
    seen := RunIsCut(S.Held(w.writers.segs), r.offset, r.yielded, r.committed);
  }

  /**
   A bounded read beside appenders is a fetch. A reader that took its snapshot
   after its follower subscribed, and that holds a full batch or has finished,
   returns exactly what finishing the fetch at some point brings.
   */
  lemma ReadIsFetch(start: S.World, steps: seq<S.Step>, w: S.World, id: nat, world: F.World, follower: nat)
    requires Appenders.Initial(start.writers) && start.readers == map[]
    requires S.Runs(start, steps, w) && id in w.readers
    requires w.writers.segs != []
    requires !w.readers[id].place.Refused? && ReadEnds(w.readers[id])
    requires Awaits(world, follower, S.Held(w.writers.segs), w.readers[id].offset)
    requires world.followers[follower].phase.floor <= w.readers[id].committed
    ensures exists seen :: Brings(world, follower, seen, w.readers[id].yielded)
  {
    hide S.Held, Cut, Appenders.Initial, S.Runs, ReadEnds;
    var seen := ReadIsCut(start, steps, w, id);
    assert Brings(world, follower, seen, w.readers[id].yielded);
  }

  /** The follower is fetching from this offset of a partition that holds this. */
  predicate Awaits(world: F.World, follower: nat, c: Content, offset: int) {
    && follower in world.followers && world.followers[follower].phase.Fetching?
    && world.followers[follower].key in world.logs && world.logs[world.followers[follower].key] == c
    && world.followers[follower].offset == offset
  }

  /** Finishing the fetch with `seen` records visible is a step of the follower, and brings this batch. */
  predicate Brings(world: F.World, follower: nat, seen: nat, batch: seq<Record>) {
    && F.Enabled(world, F.FinishRead(follower, seen))
    && F.Fetched(world, world.followers[follower], seen)
       == F.Sending(world.followers[follower].phase.waiter, seen, batch)
  }

  /** A reader that was refused ends its follower. */
  lemma RefusalEnds(start: S.World, steps: seq<S.Step>, w: S.World, id: nat, world: F.World, follower: nat, seen: nat)
    requires Appenders.Initial(start.writers) && start.readers == map[]
    requires S.Runs(start, steps, w) && id in w.readers
    requires w.writers.segs != [] && w.readers[id].place.Refused?
    requires Awaits(world, follower, S.Held(w.writers.segs), w.readers[id].offset)
    requires seen <= F.Length(world, world.followers[follower].key)
    ensures F.Fetched(world, world.followers[follower], seen) == F.Ended
  {
    hide S.Held, Cut, Appenders.Initial, S.Runs, SliceAt;
    S.ReadersSeeARun(start, steps, w, id);
    S.FirstHeld(w.writers.segs);
  }

  lemma WritersSegs(w: Writers)
    requires WritersInv(w)
    ensures SegsInv(w.segs)
  {
    hide SegsInv;
  }
}
