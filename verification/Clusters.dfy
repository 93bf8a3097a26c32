/**
 Which partitions a broker holds: the directories it creates, the guard that
 keeps it from serving what it does not own, and whole clusters of brokers
 restarted under changing counts.
 */
module Clusters {
  import opened Bytes
  import opened Rings

  /** A partition, by its topic's name and its number. */
  type Slot = (string, nat)

  /** A broker's data directory: the partition count written for each topic, and the partition directories. */
  datatype Disk = Disk(meta: map<string, int>, dirs: set<Slot>)

  /** A topic as one broker sees it: the total count, and the partitions stored here. */
  datatype OpenedTopic = OpenedTopic(partitions: int, local: set<nat>)

  predicate OwnsSlot(r: Ring, digest: string -> int, slot: Slot)
    requires Valid(r)
  {
    Owns(r, digest, slot.0, slot.1) == Ok(true)
  }

  function Share(r: Ring, digest: string -> int, name: string, count: int): set<nat>
    requires Valid(r)
  {
    set p: nat | 0 <= p < count && OwnsSlot(r, digest, (name, p))
  }

  function SlotsOf(name: string, ps: set<nat>): set<Slot> {
    set p | p in ps :: (name, p)
  }

  /** The count already written, or the one asked for, or the default; zero counts as not asked. */
  function CountFor(meta: map<string, int>, name: string, asked: Option<int>, default: int): int {
    if name in meta then meta[name]
    else if asked.Some? && asked.value != 0 then asked.value
    else default
  }

  /** Opening a topic writes its count if it is new, and creates the directories this broker owns. */
  function OpenTopic(d: Disk, r: Ring, digest: string -> int, name: string, asked: Option<int>, default: int): (Disk, OpenedTopic)
    requires Valid(r)
  {
    var count := CountFor(d.meta, name, asked, default);
    var share := Share(r, digest, name, count);
    (Disk(d.meta[name := count], d.dirs + SlotsOf(name, share)), OpenedTopic(count, share))
  }

  /** Creating a topic does nothing if this process has it open already. */
  function CreateIn(d: Disk, cache: map<string, OpenedTopic>, r: Ring, digest: string -> int, name: string,
                    asked: Option<int>, default: int): (Disk, map<string, OpenedTopic>)
    requires Valid(r)
  {
    if name in cache then (d, cache)
    else
      var (disk, topic) := OpenTopic(d, r, digest, name, asked, default);
      (disk, cache[name := topic])
  }

  /** Directories here, of these topics, whose owner is another broker. */
  function Foreign(d: Disk, r: Ring, digest: string -> int, names: set<string>): set<Slot>
    requires Valid(r)
  {
    set s | s in d.dirs && s.0 in names && !OwnsSlot(r, digest, s)
  }

  lemma ShareOfNone(r: Ring, digest: string -> int, name: string, count: int)
    requires Valid(r)
    ensures count <= 0 ==> Share(r, digest, name, count) == {}
  {
    hide Owns, Valid;
  }

  lemma ShareNext(r: Ring, digest: string -> int, name: string, p: nat)
    requires Valid(r)
    ensures Share(r, digest, name, p + 1)
         == Share(r, digest, name, p) + if OwnsSlot(r, digest, (name, p)) then {p} else {}
  {
    hide Owns, Valid;
  }

  lemma NoSlots(name: string)
    ensures SlotsOf(name, {}) == {}
  {
  }

  lemma SlotsNext(name: string, ps: set<nat>, p: nat)
    ensures SlotsOf(name, ps + {p}) == SlotsOf(name, ps) + {(name, p)}
  {
  }

  /** Every open topic has its written count, exactly the partitions owned here, and their directories. */
  ghost predicate CacheInv(d: Disk, cache: map<string, OpenedTopic>, r: Ring, digest: string -> int)
    requires Valid(r)
  {
    forall n :: n in cache ==>
      && n in d.meta && cache[n] == OpenedTopic(d.meta[n], Share(r, digest, n, d.meta[n]))
      && SlotsOf(n, cache[n].local) <= d.dirs
  }

  lemma CreateKeepsCache(d: Disk, cache: map<string, OpenedTopic>, r: Ring, digest: string -> int, name: string,
                         asked: Option<int>, default: int)
    requires Valid(r) && CacheInv(d, cache, r, digest)
    ensures var (disk, more) := CreateIn(d, cache, r, digest, name, asked, default);
            && CacheInv(disk, more, r, digest) && d.dirs <= disk.dirs && name in more
            && forall n :: n in cache ==> n in more && more[n] == cache[n]
  {
    hide Valid, Share, SlotsOf;
  }

  /** An open topic has the count that is written for it. */
  lemma OpenMeans(d: Disk, cache: map<string, OpenedTopic>, r: Ring, digest: string -> int, name: string)
    requires Valid(r) && CacheInv(d, cache, r, digest)
    ensures name in cache ==> name in d.meta && cache[name].partitions == d.meta[name]
  {
    hide Valid, Share, SlotsOf;
  }

  /** An open topic takes an append for a partition in its range that is stored here. */
  predicate Accepts(topic: OpenedTopic, partition: int) {
    0 <= partition < topic.partitions && partition in topic.local
  }

  /** Given what every open topic has, that is to be in the written range and owned; the directory is then there. */
  lemma AcceptsOwned(d: Disk, cache: map<string, OpenedTopic>, r: Ring, digest: string -> int, name: string, partition: int)
    requires Valid(r) && CacheInv(d, cache, r, digest) && name in cache
    ensures name in d.meta && cache[name].partitions == d.meta[name]
    ensures Accepts(cache[name], partition) <==>
              0 <= partition < d.meta[name] && OwnsSlot(r, digest, (name, partition))
    ensures Accepts(cache[name], partition) ==> (name, partition) in d.dirs
  {
    hide Owns, Valid;
    if Accepts(cache[name], partition) {
      assert (name, partition) in SlotsOf(name, cache[name].local);
    }
  }

  class Root {
    var meta: map<string, int>
    var dirs: set<Slot>

    constructor (d: Disk)
      ensures State() == d
    {
      meta, dirs := d.meta, d.dirs;
    }

    function State(): Disk
      reads this
    {
      Disk(meta, dirs)
    }
  }

  /** The topics of one broker, over its data directory. */
  class Topics {
    const root: Root
    const ring: Ring
    const digest: string -> int
    const default: int
    var cache: map<string, OpenedTopic>

    constructor (root: Root, ring: Ring, digest: string -> int, default: int)
      ensures this.root == root && this.ring == ring && this.digest == digest && this.default == default
      ensures cache == map[] && (Valid(ring) ==> Consistent())
    {
      this.root, this.ring, this.digest, this.default := root, ring, digest, default;
      cache := map[];
    }

    ghost predicate Consistent()
      reads this, root
    {
      Valid(ring) && CacheInv(root.State(), cache, ring, digest)
    }

    /** Creates the topic if it is absent; its partition count either way. */
    method Create(name: string, asked: Option<int>) returns (count: int)
      requires Consistent()
      modifies this, root
      ensures Consistent()
      ensures (root.State(), cache) == CreateIn(old(root.State()), old(cache), ring, digest, name, asked, default)
      ensures name in cache && count == cache[name].partitions
      ensures name in root.meta && root.meta[name] == count
      ensures name in old(root.meta) ==> count == old(root.meta)[name]
      ensures name !in old(root.meta) ==> count == if asked.Some? && asked.value != 0 then asked.value else default
    {
      hide Valid, CacheInv;
      OpenMeans(root.State(), cache, ring, digest, name);
      CreateKeepsCache(root.State(), cache, ring, digest, name, asked, default);
      if name in cache {
        return cache[name].partitions;
      }
      count := OpenLocked(name, asked);
    }

    method OpenLocked(name: string, asked: Option<int>) returns (count: int)
      requires Valid(ring)
      modifies this, root
      ensures var (disk, topic) := OpenTopic(old(root.State()), ring, digest, name, asked, default);
              root.State() == disk && cache == old(cache)[name := topic] && count == topic.partitions
    {
      if name in root.meta {
        count := root.meta[name];
      } else {
        count := if asked.Some? && asked.value != 0 then asked.value else default;
        root.meta := root.meta[name := count];
      }
      hide Owns, Valid, Share, SlotsOf;
      ShareOfNone(ring, digest, name, 0);
      var local: set<nat> := {};
      var p := 0;
      NoSlots(name);
      while p < count
        invariant 0 <= p && (p == 0 || p <= count)
        invariant root.meta == old(root.meta)[name := count] && cache == old(cache)
        invariant local == Share(ring, digest, name, p)
        invariant root.dirs == old(root.dirs) + SlotsOf(name, local)
      {
        ShareNext(ring, digest, name, p);
        SlotsNext(name, local, p);
        var mine := Owns(ring, digest, name, p);
        if mine == Ok(true) {
          root.dirs := root.dirs + {(name, p)};       // the log creates its directory
          local := local + {p};
        }
        p := p + 1;
      }
      ShareOfNone(ring, digest, name, count);
      cache := cache[name := OpenedTopic(count, local)];
    }

    /**
     Whether an append to a partition of an open topic may go ahead: exactly when
     the partition is within the written count and owned by this broker, which
     then holds its directory. Being out of range and being another broker's are
     different errors.
     */
    method CheckPartition(name: string, partition: int) returns (r: Result<nat>)
      requires Consistent() && name in cache
      ensures name in root.meta
      ensures r.Ok? <==> 0 <= partition < root.meta[name] && OwnsSlot(ring, digest, (name, partition))
      ensures r.Ok? ==> r.value == partition && (name, r.value) in root.dirs
      ensures r == Err(ValueError) <==> !(0 <= partition < root.meta[name])
      ensures r == Err(PartitionNotLocal) <==> 0 <= partition < root.meta[name] && !OwnsSlot(ring, digest, (name, partition))
    {
      hide Owns, Valid, CacheInv, OwnsSlot;
      AcceptsOwned(root.State(), cache, ring, digest, name, partition);
      var topic := cache[name];
      if !(0 <= partition < topic.partitions) {
        return Err(ValueError);
      }
      if partition !in topic.local {
        return Err(PartitionNotLocal);
      }
      return Ok(partition);
    }

    /** What an append does before it writes: it creates the topic if there is none, and checks the partition. */
    method Admit(name: string, partition: int) returns (r: Result<nat>)
      requires Consistent()
      modifies this, root
      ensures Consistent()
      ensures (root.State(), cache) == CreateIn(old(root.State()), old(cache), ring, digest, name, None, default)
      ensures name in cache && (r.Ok? <==> Accepts(cache[name], partition))
      ensures r.Ok? ==> r.value == partition && (name, r.value) in root.dirs
    {
      hide Owns, Valid, CacheInv, OwnsSlot, CreateIn;
      var _ := Create(name, None);
      AcceptsOwned(root.State(), cache, ring, digest, name, partition);
      r := CheckPartition(name, partition);
    }
  }

  /** Opening topics one after another. */
  function OpenAll(d: Disk, cache: map<string, OpenedTopic>, r: Ring, digest: string -> int, names: seq<string>, default: int)
    : (Disk, map<string, OpenedTopic>)
    requires Valid(r)
  {
    if names == [] then (d, cache)
    else
      var (disk, sofar) := OpenAll(d, cache, r, digest, names[..|names| - 1], default);
      CreateIn(disk, sofar, r, digest, names[|names| - 1], None, default)
  }

  /** The broker's store: ready once every topic is open and nothing foreign was found. */
  class Store {
    const topics: Topics
    const allowOrphans: bool
    var ready: bool
    var orphans: set<Slot>

    constructor (topics: Topics, allowOrphans: bool)
      ensures this.topics == topics && this.allowOrphans == allowOrphans && !ready && orphans == {}
    {
      this.topics, this.allowOrphans := topics, allowOrphans;
      ready, orphans := false, {};
    }

    /** Opens every topic found on disk, in the order listed, then looks for foreign directories. */
    method Open(names: seq<string>)
      requires topics.Consistent()
      modifies this, topics, topics.root
      ensures topics.Consistent()
      ensures (topics.root.State(), topics.cache)
           == OpenAll(old(topics.root.State()), old(topics.cache), topics.ring, topics.digest, names, topics.default)
      ensures forall n :: n in names ==> n in topics.cache && n in topics.root.meta
      ensures orphans == Foreign(topics.root.State(), topics.ring, topics.digest, set n | n in names)
      ensures forall s :: s in orphans <==>
                s in topics.root.dirs && s.0 in names && Owns(topics.ring, topics.digest, s.0, s.1) != Ok(true)
      ensures ready <==> old(ready) || allowOrphans || orphans == {}
    {
      hide CreateIn, Valid, CacheInv;
      for i := 0 to |names|
        invariant ready == old(ready) && topics.Consistent()
        invariant forall n :: n in names[..i] ==> n in topics.cache
        invariant (topics.root.State(), topics.cache)
               == OpenAll(old(topics.root.State()), old(topics.cache), topics.ring, topics.digest, names[..i], topics.default)
      {
        assert names[..i + 1][..i] == names[..i];
        assert forall n :: n in names[..i + 1] ==> n in names[..i] || n == names[i];
        CreateKeepsCache(topics.root.State(), topics.cache, topics.ring, topics.digest, names[i], None, topics.default);
        var _ := topics.Create(names[i], None);
      }
      assert names[..|names|] == names;
      forall n | n in names
        ensures n in topics.root.meta
      {
        OpenMeans(topics.root.State(), topics.cache, topics.ring, topics.digest, n);
      }
      orphans := Foreign(topics.root.State(), topics.ring, topics.digest, set n | n in names);
      if orphans != {} && !allowOrphans {
        return;
      }
      ready := true;
    }
  }

  // ---------------------------------------------------------------- clusters

  /** A running broker: `names` were the topics on disk when it started. */
  datatype Process = Process(ring: Ring, allowOrphans: bool, names: set<string>, cache: map<string, OpenedTopic>,
                             checked: bool, ready: bool, orphans: set<Slot>)

  datatype Broker = Broker(disk: Disk, process: Option<Process>)

  type Cluster = map<nat, Broker>

  datatype Step =
    | Launch(b: nat, ring: Ring, allowOrphans: bool)
    | Create(b: nat, name: string, asked: Option<int>, default: int)   // at start-up, or on request
    | Append(b: nat, name: string, partition: int, default: int)       // creates the topic if there is none
    | Check(b: nat)                                                    // the end of start-up
    | Stop(b: nat)                                                     // or crash, at any moment

  predicate Running(c: Cluster, b: nat) {
    b in c && c[b].process.Some? && Valid(c[b].process.value.ring)
  }

  predicate Enabled(c: Cluster, step: Step) {
    match step
    case Launch(b, ring, _) => b in c && c[b].process == None && Valid(ring) && ring.me == b
    case Create(b, _, _, _) => Running(c, b)
    case Append(b, _, _, _) => Running(c, b)
    case Check(b) => Running(c, b) && !c[b].process.value.checked && c[b].process.value.names <= c[b].process.value.cache.Keys
    case Stop(b) => b in c
  }

  function Creates(b: Broker, digest: string -> int, name: string, asked: Option<int>, default: int): Broker
    requires b.process.Some? && Valid(b.process.value.ring)
  {
    var p := b.process.value;
    var (disk, cache) := CreateIn(b.disk, p.cache, p.ring, digest, name, asked, default);
    Broker(disk, Some(p.(cache := cache)))
  }

  function Checks(b: Broker, digest: string -> int): Broker
    requires b.process.Some? && Valid(b.process.value.ring)
  {
    var p := b.process.value;
    var found := Foreign(b.disk, p.ring, digest, p.names);
    b.(process := Some(p.(checked := true, orphans := found, ready := found == {} || p.allowOrphans)))
  }

  function Next(c: Cluster, digest: string -> int, step: Step): Cluster
    requires Enabled(c, step)
  {
    match step
    case Launch(b, ring, allow) =>
      c[b := c[b].(process := Some(Process(ring, allow, c[b].disk.meta.Keys, map[], false, false, {})))]
    case Create(b, name, asked, default) => c[b := Creates(c[b], digest, name, asked, default)]
    case Append(b, name, _, default) => c[b := Creates(c[b], digest, name, None, default)]
    case Check(b) => c[b := Checks(c[b], digest)]
    case Stop(b) => c[b := c[b].(process := None)]
  }

  ghost predicate DiskInv(d: Disk) {
    forall s :: s in d.dirs ==> s.0 in d.meta
  }

  ghost predicate AllOwned(d: Disk, r: Ring, digest: string -> int)
    requires Valid(r)
  {
    forall s :: s in d.dirs ==> OwnsSlot(r, digest, s)
  }

  ghost predicate ProcessInv(b: nat, d: Disk, p: Process, digest: string -> int) {
    && Valid(p.ring) && p.ring.me == b
    && CacheInv(d, p.cache, p.ring, digest)
    && (forall s :: s in d.dirs ==> s.0 in p.names || OwnsSlot(p.ring, digest, s))
    && (forall s :: s in p.orphans <==> p.checked && s in d.dirs && !OwnsSlot(p.ring, digest, s))
    && (p.ready ==> p.checked && (p.orphans == {} || p.allowOrphans))
  }

  ghost predicate BrokerInv(b: nat, broker: Broker, digest: string -> int) {
    && DiskInv(broker.disk)
    && (broker.process.Some? ==> ProcessInv(b, broker.disk, broker.process.value, digest))
  }

  ghost predicate ClusterInv(c: Cluster, digest: string -> int) {
    forall b :: b in c ==> BrokerInv(b, c[b], digest)
  }

  lemma SlotsAre(r: Ring, digest: string -> int, name: string, count: int)
    requires Valid(r)
    ensures forall s :: s in SlotsOf(name, Share(r, digest, name, count)) ==> s.0 == name && OwnsSlot(r, digest, s)
  {
    hide Owns, Valid;
  }

  lemma CreateKeeps(b: nat, broker: Broker, digest: string -> int, name: string, asked: Option<int>, default: int)
    requires BrokerInv(b, broker, digest) && broker.process.Some?
    ensures BrokerInv(b, Creates(broker, digest, name, asked, default), digest)
  {
    hide Owns, Valid, Share, SlotsOf, OwnsSlot;
    var p := broker.process.value;
    CreateKeepsCache(broker.disk, p.cache, p.ring, digest, name, asked, default);
    hide CacheInv;
    if name !in p.cache {
      SlotsAre(p.ring, digest, name, CountFor(broker.disk.meta, name, asked, default));
    }
  }

  lemma CheckKeeps(b: nat, broker: Broker, digest: string -> int)
    requires BrokerInv(b, broker, digest) && broker.process.Some?
    ensures BrokerInv(b, Checks(broker, digest), digest)
  {
    hide Owns, Valid, Share, SlotsOf, OwnsSlot;
    var p := broker.process.value;
    forall s
      ensures s in Foreign(broker.disk, p.ring, digest, p.names) <==> s in broker.disk.dirs && !OwnsSlot(p.ring, digest, s)
    {
    }
  }

  /** Every step of every broker keeps the invariant, and no written count ever changes. */
  lemma StepKeeps(c: Cluster, digest: string -> int, step: Step)
    requires ClusterInv(c, digest) && Enabled(c, step)
    ensures ClusterInv(Next(c, digest, step), digest)
    ensures forall b :: b in c ==> b in Next(c, digest, step)
    ensures forall b, n :: b in c && n in c[b].disk.meta ==>
              n in Next(c, digest, step)[b].disk.meta && Next(c, digest, step)[b].disk.meta[n] == c[b].disk.meta[n]
  {
    hide Owns, Valid, Share, SlotsOf, OwnsSlot, Foreign;
    match step
    case Launch(b, _, _) => assert BrokerInv(b, c[b], digest);
    case Create(b, name, asked, default) => CreateKeeps(b, c[b], digest, name, asked, default);
    case Append(b, name, _, default) => CreateKeeps(b, c[b], digest, name, None, default);
    case Check(b) => CheckKeeps(b, c[b], digest);
    case Stop(b) => assert BrokerInv(b, c[b], digest);
  }

  /** A topic that has no count gets the one asked for, or the broker's default if none or zero is asked; an append asks for none. */
  lemma CreatedWith(c: Cluster, digest: string -> int, step: Step)
    requires ClusterInv(c, digest) && Enabled(c, step) && (step.Create? || step.Append?)
    requires step.name !in c[step.b].disk.meta
    ensures var v := Next(c, digest, step)[step.b];
            && step.name in v.disk.meta
            && v.disk.meta[step.name]
                 == (if step.Create? && step.asked.Some? && step.asked.value != 0 then step.asked.value else step.default)
            && forall n :: n != step.name ==> (n in v.disk.meta <==> n in c[step.b].disk.meta)
  {
    hide Owns, Valid, Share, SlotsOf, OwnsSlot;
    assert BrokerInv(step.b, c[step.b], digest);
  }

  ghost predicate Reaches(c: Cluster, digest: string -> int, steps: seq<Step>, d: Cluster)
    decreases steps
  {
    if steps == [] then c == d else Enabled(c, steps[0]) && Reaches(Next(c, digest, steps[0]), digest, steps[1..], d)
  }

  /** Stopped brokers whose directories hold only topics with a written count. */
  ghost predicate Initial(c: Cluster) {
    forall b :: b in c ==> c[b].process == None && DiskInv(c[b].disk)
  }

  lemma {:induction false} RunKeeps(c: Cluster, digest: string -> int, steps: seq<Step>, d: Cluster)
    requires ClusterInv(c, digest) && Reaches(c, digest, steps, d)
    ensures ClusterInv(d, digest)
    ensures forall b, n :: b in c && n in c[b].disk.meta ==> b in d && n in d[b].disk.meta && d[b].disk.meta[n] == c[b].disk.meta[n]
    decreases steps
  {
    hide ClusterInv, Enabled, Next;
    if steps == [] {
    } else {
      StepKeeps(c, digest, steps[0]);
      RunKeeps(Next(c, digest, steps[0]), digest, steps[1..], d);
    }
  }

  /** The broker has looked for orphans, at the end of its start-up. */
  predicate Checked(c: Cluster, b: nat) {
    b in c && c[b].process.Some? && c[b].process.value.checked
  }

  /**
   What a broker found at start-up stays the truth. Over any run of brokers that
   create, append, stop and restart under changing counts, the orphans of a
   broker that has checked, told to serve with them or not, are exactly the
   directories it holds and does not own; there are none exactly if it owns all
   it holds, as every ready broker does that may not serve with orphans.
   */
  lemma OrphansExactly(start: Cluster, digest: string -> int, steps: seq<Step>, c: Cluster, b: nat)
    requires Initial(start) && Reaches(start, digest, steps, c) && Checked(c, b)
    ensures var p := c[b].process.value;
            && Valid(p.ring) && p.ring.me == b
            && (forall s :: s in p.orphans <==> s in c[b].disk.dirs && !OwnsSlot(p.ring, digest, s))
            && (AllOwned(c[b].disk, p.ring, digest) <==> p.orphans == {})
            && (p.ready && !p.allowOrphans ==> p.orphans == {})
  {
    hide Owns, Valid, Share, SlotsOf, OwnsSlot, CacheInv;
    RunKeeps(start, digest, steps, c);
    assert BrokerInv(b, c[b], digest);
    var p := c[b].process.value;
    if !AllOwned(c[b].disk, p.ring, digest) {
      var s :| s in c[b].disk.dirs && !OwnsSlot(p.ring, digest, s);
      assert s in p.orphans;
    }
  }

  /**
   No split log. Among brokers that have checked and share a rule, a partition
   that two of them hold is an orphan of one; so those without orphans hold none
   twice.
   */
  lemma NoSplitLog(start: Cluster, digest: string -> int, steps: seq<Step>, c: Cluster, a: nat, b: nat)
    requires Initial(start) && Reaches(start, digest, steps, c)
    requires Checked(c, a) && Checked(c, b) && a != b
    requires SameRule(c[a].process.value.ring, c[b].process.value.ring)
    ensures c[a].disk.dirs * c[b].disk.dirs <= c[a].process.value.orphans + c[b].process.value.orphans
    ensures c[a].process.value.orphans == {} && c[b].process.value.orphans == {} ==> c[a].disk.dirs !! c[b].disk.dirs
  {
    hide Owns, Valid, AllOwned, SameRule;
    OrphansExactly(start, digest, steps, c, a);
    OrphansExactly(start, digest, steps, c, b);
    var p, q := c[a].process.value, c[b].process.value;
    forall s | s in c[a].disk.dirs && s in c[b].disk.dirs
      ensures s in p.orphans + q.orphans
    {
      ExactlyOneOwner(p.ring, q.ring, digest, s.0, s.1);
    }
    assert p.orphans + q.orphans == {} ==> c[a].disk.dirs * c[b].disk.dirs <= {};
  }

  /**
   And it is exactly the orphans that split: where one broker accepts appends to
   a partition, another that shares its rule holds the partition too if and only
   if it is one of that other broker's orphans.
   */
  lemma SplitExactly(start: Cluster, digest: string -> int, steps: seq<Step>, c: Cluster, a: nat, b: nat, s: Slot)
    requires Initial(start) && Reaches(start, digest, steps, c)
    requires Checked(c, a) && Running(c, b) && a != b
    requires SameRule(c[a].process.value.ring, c[b].process.value.ring)
    requires s.0 in c[b].process.value.cache && Accepts(c[b].process.value.cache[s.0], s.1)
    ensures s in c[a].disk.dirs && s in c[b].disk.dirs <==> s in c[a].process.value.orphans
  {
    hide Owns, Valid, AllOwned, SameRule;
    OrphansExactly(start, digest, steps, c, a);
    AcceptsExactlyOwned(start, digest, steps, c, b, s.0, s.1);
    RunKeeps(start, digest, steps, c);
    assert BrokerInv(b, c[b], digest);
    if s in c[a].disk.dirs {
      ExactlyOneOwner(c[a].process.value.ring, c[b].process.value.ring, digest, s.0, s.1);
    }
  }

  /**
   Over every run, a running broker that has a topic open accepts an append for
   exactly the partitions in the topic's written range that it owns, and it
   holds the directory of each of them.
   */
  lemma AcceptsExactlyOwned(start: Cluster, digest: string -> int, steps: seq<Step>, c: Cluster, b: nat,
                            name: string, partition: int)
    requires Initial(start) && Reaches(start, digest, steps, c)
    requires Running(c, b) && name in c[b].process.value.cache
    ensures name in c[b].disk.meta
    ensures Accepts(c[b].process.value.cache[name], partition) <==>
              0 <= partition < c[b].disk.meta[name] && OwnsSlot(c[b].process.value.ring, digest, (name, partition))
    ensures Accepts(c[b].process.value.cache[name], partition) ==> (name, partition) in c[b].disk.dirs
  {
    hide Owns, Valid, CacheInv, OwnsSlot;
    RunKeeps(start, digest, steps, c);
    assert BrokerInv(b, c[b], digest);
    AcceptsOwned(c[b].disk, c[b].process.value.cache, c[b].process.value.ring, digest, name, partition);
  }

  /** So an append, wherever it is sent, goes ahead only at the owner; it leaves the topic open and every count as written. */
  lemma AppendsAtOwner(start: Cluster, digest: string -> int, steps: seq<Step>, c: Cluster, b: nat,
                       name: string, partition: int, default: int)
    requires Initial(start) && Reaches(start, digest, steps, c) && Enabled(c, Append(b, name, partition, default))
    ensures var v := Next(c, digest, Append(b, name, partition, default));
            && Running(v, b) && name in v[b].process.value.cache && name in v[b].disk.meta
            && v[b].process.value.ring == c[b].process.value.ring
            && (Accepts(v[b].process.value.cache[name], partition) <==>
                  0 <= partition < v[b].disk.meta[name] && OwnsSlot(c[b].process.value.ring, digest, (name, partition)))
            && (Accepts(v[b].process.value.cache[name], partition) ==> (name, partition) in v[b].disk.dirs)
  {
    hide Owns, Valid, Share, SlotsOf, OwnsSlot, CacheInv;
    RunKeeps(start, digest, steps, c);
    assert BrokerInv(b, c[b], digest);
    var p := c[b].process.value;
    CreateKeepsCache(c[b].disk, p.cache, p.ring, digest, name, None, default);
    var v := Next(c, digest, Append(b, name, partition, default));
    AcceptsOwned(v[b].disk, v[b].process.value.cache, p.ring, digest, name, partition);
  }

  /** The guard refuses exactly the brokers that hold a foreign directory. */
  lemma RefusedExactly(start: Cluster, digest: string -> int, steps: seq<Step>, c: Cluster, b: nat)
    requires Initial(start) && Reaches(start, digest, steps, c) && Enabled(c, Check(b))
    ensures var after := Next(c, digest, Check(b));
            && after[b].process.Some?
            && (after[b].process.value.ready <==>
                  c[b].process.value.allowOrphans || AllOwned(c[b].disk, c[b].process.value.ring, digest))
  {
    hide Owns, Valid, Share, SlotsOf, OwnsSlot;
    RunKeeps(start, digest, steps, c);
    CheckKeeps(b, c[b], digest);
    assert BrokerInv(b, c[b], digest) && BrokerInv(b, Checks(c[b], digest), digest);
    var p := c[b].process.value;
    if Foreign(c[b].disk, p.ring, digest, p.names) != {} {
      var s :| s in Foreign(c[b].disk, p.ring, digest, p.names);
      assert s in c[b].disk.dirs;
    }
  }

  lemma {:induction false} ReachesNext(c: Cluster, digest: string -> int, steps: seq<Step>, d: Cluster, step: Step)
    requires Reaches(c, digest, steps, d) && Enabled(d, step)
    ensures Reaches(c, digest, steps + [step], Next(d, digest, step))
    decreases steps
  {
    hide Enabled, Next;
    if steps == [] {
      assert (steps + [step])[1..] == [];
    } else {
      ReachesNext(Next(c, digest, steps[0]), digest, steps[1..], d, step);
      assert (steps + [step])[1..] == steps[1..] + [step];
    }
  }

  lemma ShareOfOne(digest: string -> int)
    ensures Share(Modulo(1, 0), digest, "t", 2) == {0, 1}
  {
  }

  lemma ShareOfTwo(digest: string -> int)
    ensures Share(Modulo(2, 0), digest, "t", 2) == {0} && Share(Modulo(2, 1), digest, "t", 2) == {1}
  {
  }

  lemma SlotsOfT(ps: set<nat>)
    ensures forall p: nat :: p in ps <==> ("t", p) in SlotsOf("t", ps)
  {
  }

  /** One more step of broker b. */
  lemma Then(start: Cluster, digest: string -> int, c: Cluster, step: Step)
    requires exists steps :: Reaches(start, digest, steps, c)
    requires Enabled(c, step)
    ensures exists steps :: Reaches(start, digest, steps, Next(c, digest, step))
  {
    hide Enabled, Next;
    var steps :| Reaches(start, digest, steps, c);
    ReachesNext(start, digest, steps, c, step);
  }

  /** A broker told to serve with orphans: broker 0 held both partitions when it was alone. */
  lemma OrphanServed(digest: string -> int, start: Cluster) returns (c: Cluster)
    requires 0 in start && start[0] == Broker(Disk(map[], {}), None)
    ensures exists steps :: Reaches(start, digest, steps, c)
    ensures 0 in c && c == start[0 := c[0]]
    ensures c[0].process.Some? && c[0].process.value.ready && c[0].process.value.ring == Modulo(2, 0)
    ensures ("t", 1) in c[0].disk.dirs
  {
    hide Share, SlotsOf, OwnsSlot, Owns, Reaches;
    ShareOfOne(digest);
    SlotsOfT({0, 1});
    ReachesNothing(digest, start);
    var c1 := Next(start, digest, Launch(0, Modulo(1, 0), false));
    Then(start, digest, start, Launch(0, Modulo(1, 0), false));
    var c2 := Next(c1, digest, Create(0, "t", Some(2), 1));
    Then(start, digest, c1, Create(0, "t", Some(2), 1));
    var c3 := Next(c2, digest, Stop(0));
    Then(start, digest, c2, Stop(0));
    var c4 := Next(c3, digest, Launch(0, Modulo(2, 0), true));
    Then(start, digest, c3, Launch(0, Modulo(2, 0), true));
    var c5 := Next(c4, digest, Create(0, "t", None, 1));
    Then(start, digest, c4, Create(0, "t", None, 1));
    c := Next(c5, digest, Check(0));
    Then(start, digest, c5, Check(0));
  }

  /** Such brokers exist: one told to serve with orphans, and the owner it splits a log with. */
  lemma AllowedOrphansSplit(digest: string -> int) returns (start: Cluster, c: Cluster)
    ensures Initial(start) && exists steps :: Reaches(start, digest, steps, c)
    ensures Running(c, 0) && Running(c, 1) && c[0].process.value.ready && c[1].process.value.ready
    ensures SameRule(c[0].process.value.ring, c[1].process.value.ring)
    ensures ("t", 1) in c[0].disk.dirs && ("t", 1) in c[1].disk.dirs
  {
    hide Share, SlotsOf, OwnsSlot, Owns, Reaches;
    start := map[0 := Broker(Disk(map[], {}), None), 1 := Broker(Disk(map[], {}), None)];
    ShareOfTwo(digest);
    SlotsOfT({1});
    var c0 := OrphanServed(digest, start);
    var c1 := Next(c0, digest, Launch(1, Modulo(2, 1), false));
    Then(start, digest, c0, Launch(1, Modulo(2, 1), false));
    var c2 := Next(c1, digest, Check(1));
    Then(start, digest, c1, Check(1));
    c := Next(c2, digest, Create(1, "t", Some(2), 1));
    Then(start, digest, c2, Create(1, "t", Some(2), 1));
  }

  lemma ReachesNothing(digest: string -> int, c: Cluster)
    ensures Reaches(c, digest, [], c)
  {
  }
}
