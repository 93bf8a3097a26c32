/** Which broker owns a partition: by modulo, or on a circle of hashed points. */
module Rings {
  import opened Bytes
  import opened Bisect

  /** Configuration, the same on every broker but for `me`. */
  datatype Ring =
    | Modulo(brokers: int, me: int)
    | Hashed(brokers: int, me: int, vnodes: int)

  function MakeRing(r: Ring): Result<Ring> {
    if r.brokers < 1 then Err(ValueError)
    else if !(0 <= r.me < r.brokers) then Err(ValueError)
    else if r.Hashed? && r.vnodes < 1 then Err(ValueError)
    else Ok(r)
  }

  predicate Valid(r: Ring) {
    MakeRing(r).Ok?
  }

  function Digit(d: nat): char
    requires d < 10
  {
    "0123456789"[d]
  }

  function Decimal(n: nat): string {
    if n < 10 then [Digit(n)] else Decimal(n / 10) + [Digit(n % 10)]
  }

  function VnodeName(broker: nat, v: nat): string {
    "broker-" + Decimal(broker) + "#" + Decimal(v)
  }

  function PartitionName(topic: string, partition: nat): string {
    topic + ":" + Decimal(partition)
  }

  // ------------------------------------------------------------- the names

  function DigitValue(c: char): nat {
    if '0' <= c <= '9' then (c - '0') as nat else 0
  }

  predicate IsDigit(c: char) {
    '0' <= c <= '9'
  }

  /** Reads a decimal number. */
  function ReadDecimal(s: string): nat {
    if s == [] then 0 else 10 * ReadDecimal(s[..|s| - 1]) + DigitValue(s[|s| - 1])
  }

  lemma DigitsRead(d: nat)
    requires d < 10
    ensures DigitValue(Digit(d)) == d && IsDigit(Digit(d)) && (Digit(d) == '0' <==> d == 0)
  {
  }

  /** A number's spelling is digits, without a leading zero, and reads back. */
  lemma {:induction false} DecimalReads(n: nat)
    ensures ReadDecimal(Decimal(n)) == n
    ensures Decimal(n) != [] && forall c :: c in Decimal(n) ==> IsDigit(c)
    ensures n > 0 ==> Decimal(n)[0] != '0'
  {
    hide Digit, DigitValue, IsDigit;
    DigitsRead(n % 10);
    if n < 10 {
      assert [Digit(n)][..0] == [];
    } else {
      DecimalReads(n / 10);
      assert Decimal(n)[..|Decimal(n)| - 1] == Decimal(n / 10);
    }
  }

  /** Where a separator first occurs. */
  function FirstOf(s: string, c: char): (i: nat)
    ensures i <= |s|
    ensures c !in s[..i] && (i < |s| ==> s[i] == c)
  {
    if s == [] || s[0] == c then 0 else 1 + FirstOf(s[1..], c)
  }

  lemma {:induction false} FirstOfSplit(a: string, c: char, b: string)
    requires c !in a
    ensures FirstOf(a + [c] + b, c) == |a|
  {
    if a == [] {
    } else {
      assert (a + [c] + b)[1..] == a[1..] + [c] + b;
      assert a[0] in a && forall x :: x in a[1..] ==> x in a;
      FirstOfSplit(a[1..], c, b);
    }
  }

  /** Reads a partition's name: the topic before the first colon, the number after it. */
  function ReadPartition(name: string): (string, nat) {
    var i := FirstOf(name, ':');
    (name[..i], if i < |name| then ReadDecimal(name[i + 1..]) else 0)
  }

  /** Reads a virtual node's name: "broker-", the broker, a hash sign, the node. */
  function ReadVnode(name: string): (nat, nat) {
    var i := FirstOf(name, '#');
    (ReadDecimal(if 7 <= i then name[7..i] else []), if i < |name| then ReadDecimal(name[i + 1..]) else 0)
  }

  /** The name of a partition reads back, whatever the topic, as long as that holds no colon. */
  lemma PartitionReads(topic: string, partition: nat)
    requires ':' !in topic
    ensures ReadPartition(PartitionName(topic, partition)) == (topic, partition)
  {
    DecimalReads(partition);
    FirstOfSplit(topic, ':', Decimal(partition));
    var name := PartitionName(topic, partition);
    assert name == topic + [':'] + Decimal(partition);
    assert name[..|topic|] == topic && name[|topic| + 1..] == Decimal(partition);
  }

  lemma VnodeReads(broker: nat, v: nat)
    ensures ReadVnode(VnodeName(broker, v)) == (broker, v)
  {
    DecimalReads(broker);
    DecimalReads(v);
    var front := "broker-" + Decimal(broker);
    NoDigitIs(Decimal(broker), '#');
    assert '#' !in "broker-";
    FirstOfSplit(front, '#', Decimal(v));
    var name := VnodeName(broker, v);
    assert name == front + ['#'] + Decimal(v);
    assert name[7..|front|] == Decimal(broker) && name[|front| + 1..] == Decimal(v);
  }

  lemma NoDigitIs(s: string, c: char)
    requires (forall x :: x in s ==> IsDigit(x)) && !IsDigit(c)
    ensures c !in s
  {
    hide IsDigit;
  }

  lemma NoColon(broker: nat, v: nat)
    ensures ':' !in VnodeName(broker, v)
  {
    DecimalReads(broker);
    DecimalReads(v);
    NoDigitIs(Decimal(broker), ':');
    NoDigitIs(Decimal(v), ':');
  }

  /** What is hashed tells partitions of one topic apart, topics apart, and virtual nodes apart. */
  lemma NamesDiffer(topic: string, partition: nat, other: string, q: nat, broker: nat, v: nat, c: nat, u: nat)
    ensures PartitionName(topic, partition) == PartitionName(topic, q) ==> partition == q
    ensures ':' !in topic && ':' !in other && PartitionName(topic, partition) == PartitionName(other, q) ==>
              topic == other && partition == q
    ensures VnodeName(broker, v) == VnodeName(c, u) ==> broker == c && v == u
    ensures PartitionName(topic, partition) != VnodeName(broker, v)
  {
    hide ReadPartition, ReadVnode, VnodeName, IsDigit;
    VnodeReads(broker, v);
    VnodeReads(c, u);
    NoColon(broker, v);
    if ':' !in topic && ':' !in other {
      PartitionReads(topic, partition);
      PartitionReads(other, q);
    }
    DecimalReads(partition);
    DecimalReads(q);
    assert PartitionName(topic, partition)[|topic| + 1..] == Decimal(partition);
    assert PartitionName(topic, q)[|topic| + 1..] == Decimal(q);
    assert PartitionName(topic, partition)[|topic|] == ':';
  }

  /** The very names, with numbers of several digits. */
  lemma NamesAre()
    ensures PartitionName("orders", 10) == "orders:10" && PartitionName("orders", 0) == "orders:0"
    ensures VnodeName(3, 127) == "broker-3#127"
  {
    assert Decimal(10) == "10" && Decimal(127) == "127";
  }

  // ------------------------------------------------------------ the circle

  datatype Point = Point(key: int, broker: int)

  /** Tuples compare by key, then by broker. */
  predicate AtMost(p: Point, q: Point) {
    p.key < q.key || (p.key == q.key && p.broker <= q.broker)
  }

  function InsertPoint(ps: seq<Point>, p: Point): seq<Point> {
    if ps == [] || AtMost(p, ps[0]) then [p] + ps else [ps[0]] + InsertPoint(ps[1..], p)
  }

  function SortPoints(ps: seq<Point>): seq<Point> {
    if ps == [] then [] else InsertPoint(SortPoints(ps[1..]), ps[0])
  }

  function PointsOf(digest: string -> int, broker: nat, vnodes: nat): (ps: seq<Point>)
    ensures |ps| == vnodes
  {
    seq(vnodes, v requires 0 <= v < vnodes => Point(digest(VnodeName(broker, v)), broker))
  }

  function AllPoints(digest: string -> int, brokers: nat, vnodes: nat): seq<Point> {
    if brokers == 0 then [] else AllPoints(digest, brokers - 1, vnodes) + PointsOf(digest, brokers - 1, vnodes)
  }

  function Circle(digest: string -> int, brokers: nat, vnodes: nat): seq<Point> {
    SortPoints(AllPoints(digest, brokers, vnodes))
  }

  function Keys(ps: seq<Point>): (keys: seq<int>)
    ensures |keys| == |ps|
    ensures forall i :: 0 <= i < |ps| ==> keys[i] == ps[i].key
  {
    seq(|ps|, i requires 0 <= i < |ps| => ps[i].key)
  }

  /** The point that a bisection of the sorted keys leads to; past the last one it starts over. */
  function Clockwise(circle: seq<Point>, h: int): Point
    requires circle != []
  {
    circle[BisectRight(Keys(circle), h) % |circle|]
  }

  function BrokerFor(r: Ring, digest: string -> int, topic: string, partition: int): Result<int>
    requires Valid(r)
  {
    if partition < 0 then Err(ValueError)
    else match r
      case Modulo(brokers, _) => Ok(partition % brokers)
      case Hashed(brokers, _, vnodes) =>
        CircleNotEmpty(digest, brokers, vnodes);
        Ok(Clockwise(Circle(digest, brokers, vnodes), digest(PartitionName(topic, partition))).broker)
  }

  function Owns(r: Ring, digest: string -> int, topic: string, partition: int): Result<bool>
    requires Valid(r)
  {
    match BrokerFor(r, digest, topic, partition)
    case Ok(b) => Ok(b == r.me)
    case Err(e) => Err(e)
  }

  /** A broker's share of a topic, in increasing order. */
  function MyPartitions(r: Ring, digest: string -> int, topic: string, partitions: nat): seq<nat>
    requires Valid(r)
  {
    if partitions == 0 then [] else
      var p := partitions - 1;
      MyPartitions(r, digest, topic, p) + if Owns(r, digest, topic, p) == Ok(true) then [p] else []
  }

  // ---------------------------------------------------- sorting keeps points

  predicate InOrder(ps: seq<Point>) {
    forall i, j :: 0 <= i < j < |ps| ==> AtMost(ps[i], ps[j])
  }

  lemma {:induction false} InsertPointSorts(ps: seq<Point>, p: Point)
    requires InOrder(ps)
    ensures InOrder(InsertPoint(ps, p))
    ensures forall q :: q in InsertPoint(ps, p) <==> q == p || q in ps
  {
    if ps == [] || AtMost(p, ps[0]) {
    } else {
      assert ps == [ps[0]] + ps[1..];
      InsertPointSorts(ps[1..], p);
      var rest := InsertPoint(ps[1..], p);
      forall j | 0 <= j < |rest|
        ensures AtMost(ps[0], rest[j])
      {
        assert rest[j] in rest;
        assert rest[j] == p || rest[j] in ps[1..];
      }
    }
  }

  lemma {:induction false} SortPointsSorts(ps: seq<Point>)
    ensures InOrder(SortPoints(ps))
    ensures forall q :: q in SortPoints(ps) <==> q in ps
  {
    if ps == [] {
    } else {
      assert ps == [ps[0]] + ps[1..];
      SortPointsSorts(ps[1..]);
      InsertPointSorts(SortPoints(ps[1..]), ps[0]);
    }
  }

  /** One of the points that the brokers of a cluster put on the circle. */
  predicate IsPoint(digest: string -> int, brokers: nat, vnodes: nat, q: Point) {
    0 <= q.broker < brokers && q in PointsOf(digest, q.broker, vnodes)
  }

  lemma {:induction false} PointsByBroker(digest: string -> int, brokers: nat, vnodes: nat, q: Point)
    ensures q in AllPoints(digest, brokers, vnodes)
       <==> IsPoint(digest, brokers, vnodes, q)
  {
    if brokers == 0 {
    } else {
      PointsByBroker(digest, brokers - 1, vnodes, q);
      assert q in PointsOf(digest, brokers - 1, vnodes) ==> q.broker == brokers - 1;
    }
  }

  lemma OnCircle(digest: string -> int, brokers: nat, vnodes: nat, q: Point)
    ensures q in Circle(digest, brokers, vnodes)
       <==> IsPoint(digest, brokers, vnodes, q)
  {
    SortPointsSorts(AllPoints(digest, brokers, vnodes));
    PointsByBroker(digest, brokers, vnodes, q);
  }

  lemma CircleNotEmpty(digest: string -> int, brokers: nat, vnodes: nat)
    requires brokers >= 1 && vnodes >= 1
    ensures Circle(digest, brokers, vnodes) != []
  {
    hide Circle, PointsOf;
    var q := Point(digest(VnodeName(0, 0)), 0);
    assert q == PointsOf(digest, 0, vnodes)[0] by {
      FirstPoint(digest, vnodes);
    }
    assert q in PointsOf(digest, 0, vnodes);
    OnCircle(digest, brokers, vnodes, q);
  }

  lemma FirstPoint(digest: string -> int, vnodes: nat)
    requires vnodes >= 1
    ensures PointsOf(digest, 0, vnodes)[0] == Point(digest(VnodeName(0, 0)), 0)
  {
  }

  // ---------------------------------------------------------- what it means

  /** Going clockwise from h, p comes no later than q. */
  predicate NoLater(h: int, p: Point, q: Point) {
    if p.key > h && q.key <= h then true
    else if p.key <= h && q.key > h then false
    else p.key < q.key || (p.key == q.key && p.broker <= q.broker)
  }

  /** Of all points, p is the first going clockwise from h. */
  ghost predicate IsFirst(digest: string -> int, brokers: nat, vnodes: nat, h: int, p: Point) {
    && IsPoint(digest, brokers, vnodes, p)
    && forall q: Point :: IsPoint(digest, brokers, vnodes, q) ==> NoLater(h, p, q)
  }

  /** The bisection and its wrap-around find the point that comes first clockwise. */
  lemma ClockwiseIsFirst(circle: seq<Point>, h: int)
    requires circle != [] && InOrder(circle)
    ensures Clockwise(circle, h) in circle
    ensures forall q :: q in circle ==> NoLater(h, Clockwise(circle, h), q)
  {
    hide BisectRight, Clockwise;
    var keys := Keys(circle);
    assert Sorted(keys);
    Floor(keys, h);
    ClockwiseAt(circle, h);
    var i := if BisectRight(keys, h) == |circle| then 0 else BisectRight(keys, h);
    forall q | q in circle
      ensures NoLater(h, circle[i], q)
    {
      var j :| 0 <= j < |circle| && circle[j] == q;
      assert keys[j] == q.key && keys[i] == circle[i].key;
      assert i == j || AtMost(circle[if i < j then i else j], circle[if i < j then j else i]);
    }
  }

  lemma ClockwiseAt(circle: seq<Point>, h: int)
    requires circle != []
    ensures var i := BisectRight(Keys(circle), h);
            Clockwise(circle, h) == circle[if i == |circle| then 0 else i]
  {
    hide BisectRight;
    Wraps(BisectRight(Keys(circle), h), |circle|);
  }

  lemma Wraps(i: nat, n: nat)
    requires 0 < n && i <= n
    ensures i % n == if i == n then 0 else i
  {
  }

  lemma FirstIsUnique(h: int, p: Point, q: Point)
    requires NoLater(h, p, q) && NoLater(h, q, p)
    ensures p == q
  {
  }

  /** The owner of a partition is the broker of the first point clockwise, among the points of all brokers. */
  lemma OwnerIsFirst(digest: string -> int, r: Ring, topic: string, partition: nat)
    requires Valid(r) && r.Hashed?
    ensures BrokerFor(r, digest, topic, partition).Ok?
    ensures var owner := BrokerFor(r, digest, topic, partition).value;
            var h := digest(PartitionName(topic, partition));
            && 0 <= owner < r.brokers
            && (exists p: Point :: p.broker == owner && IsFirst(digest, r.brokers, r.vnodes, h, p))
  {
    hide Circle, PointsOf, NoLater, Clockwise, Decimal;
    var circle := Circle(digest, r.brokers, r.vnodes);
    CircleNotEmpty(digest, r.brokers, r.vnodes);
    CircleInOrder(digest, r.brokers, r.vnodes);
    var h := digest(PartitionName(topic, partition));
    ClockwiseIsFirst(circle, h);
    var p := Clockwise(circle, h);
    OnCircle(digest, r.brokers, r.vnodes, p);
    forall q | IsPoint(digest, r.brokers, r.vnodes, q)
      ensures NoLater(h, p, q)
    {
      OnCircle(digest, r.brokers, r.vnodes, q);
    }
    assert IsFirst(digest, r.brokers, r.vnodes, h, p);
  }

  /**
   The circle keeps partitions and virtual nodes apart: give each partition of
   each topic any key at all, and each virtual node of each broker; for topics
   without a colon there is a digest under which the owner of every partition is
   the broker of the first of those points clockwise from the partition's key.
   */
  lemma AnyAssignment(r: Ring, partitionKey: (string, nat) -> int, vnodeKey: (nat, nat) -> int)
    returns (digest: string -> int)
    requires Valid(r) && r.Hashed?
    ensures forall topic, partition: nat {:trigger BrokerFor(r, digest, topic, partition)} :: ':' !in topic ==>
              && BrokerFor(r, digest, topic, partition).Ok?
              && FirstBroker(r, partitionKey(topic, partition), vnodeKey, BrokerFor(r, digest, topic, partition).value)
  {
    hide ReadPartition, ReadVnode, PartitionName, VnodeName, BrokerFor;
    digest := (name: string) =>
      if ':' in name then partitionKey(ReadPartition(name).0, ReadPartition(name).1)
      else vnodeKey(ReadVnode(name).0, ReadVnode(name).1);
    forall topic, partition: nat | ':' !in topic
      ensures BrokerFor(r, digest, topic, partition).Ok?
      ensures FirstBroker(r, partitionKey(topic, partition), vnodeKey, BrokerFor(r, digest, topic, partition).value)
    {
      PartitionReads(topic, partition);
      HasColon(topic, partition);
      forall b: nat, v: nat
        ensures digest(VnodeName(b, v)) == vnodeKey(b, v)
      {
        VnodeReads(b, v);
        NoColon(b, v);
      }
      OwnerIsFirst(digest, r, topic, partition);
      var owner := BrokerFor(r, digest, topic, partition).value;
      var p: Point :| p.broker == owner && IsFirst(digest, r.brokers, r.vnodes, partitionKey(topic, partition), p);
      FirstByKeys(digest, r, partitionKey(topic, partition), vnodeKey, p);
    }
  }

  lemma HasColon(topic: string, partition: nat)
    ensures ':' in PartitionName(topic, partition)
  {
    assert PartitionName(topic, partition)[|topic|] == ':';
  }

  /** Of all virtual nodes with these keys, the first clockwise from h is one of this broker. */
  ghost predicate FirstBroker(r: Ring, h: int, vnodeKey: (nat, nat) -> int, owner: int)
    requires Valid(r) && r.Hashed?
  {
    exists v: nat {:trigger Mine(r, vnodeKey, owner, v)} :: v < r.vnodes && 0 <= owner < r.brokers &&
      forall c: nat, u: nat {:trigger vnodeKey(c, u)} :: c < r.brokers && u < r.vnodes ==>
        NoLater(h, Mine(r, vnodeKey, owner, v), Point(vnodeKey(c, u), c))
  }

  function Mine(r: Ring, vnodeKey: (nat, nat) -> int, owner: int, v: nat): Point {
    Point(if owner < 0 then 0 else vnodeKey(owner, v), owner)
  }

  lemma FirstByKeys(digest: string -> int, r: Ring, h: int, vnodeKey: (nat, nat) -> int, p: Point)
    requires Valid(r) && r.Hashed? && IsFirst(digest, r.brokers, r.vnodes, h, p)
    requires forall b: nat, v: nat :: digest(VnodeName(b, v)) == vnodeKey(b, v)
    ensures FirstBroker(r, h, vnodeKey, p.broker)
  {
    hide NoLater, VnodeName;
    var points := PointsOf(digest, p.broker, r.vnodes);
    var v: nat :| v < |points| && points[v] == p;
    assert Mine(r, vnodeKey, p.broker, v) == p;
    forall c: nat, u: nat | c < r.brokers && u < r.vnodes
      ensures NoLater(h, p, Point(vnodeKey(c, u), c))
    {
      assert PointsOf(digest, c, r.vnodes)[u] == Point(vnodeKey(c, u), c);
      assert IsPoint(digest, r.brokers, r.vnodes, Point(vnodeKey(c, u), c));
    }
  }

  /** Where points collide, the lowest ordinal owns: under a constant digest broker 0 owns everything. */
  lemma TiesGoLowest(digest: string -> int, r: Ring, topic: string, partition: nat)
    requires Valid(r) && r.Hashed? && forall s, t :: digest(s) == digest(t)
    ensures BrokerFor(r, digest, topic, partition) == Ok(0)
  {
    hide BrokerFor, PartitionName, VnodeName;
    OwnerIsFirst(digest, r, topic, partition);
    var h, owner := digest(PartitionName(topic, partition)), BrokerFor(r, digest, topic, partition).value;
    var p: Point :| p.broker == owner && IsFirst(digest, r.brokers, r.vnodes, h, p);
    var q := Point(digest(VnodeName(0, 0)), 0);
    FirstPoint(digest, r.vnodes);
    assert q == PointsOf(digest, 0, r.vnodes)[0];
    assert IsPoint(digest, r.brokers, r.vnodes, q) && NoLater(h, p, q);
    var points := PointsOf(digest, p.broker, r.vnodes);
    var v: nat :| v < |points| && points[v] == p;
    assert p.key == digest(VnodeName(p.broker, v)) == digest(VnodeName(0, 0)) == h;
  }

  lemma CircleInOrder(digest: string -> int, brokers: nat, vnodes: nat)
    ensures InOrder(Circle(digest, brokers, vnodes))
  {
    SortPointsSorts(AllPoints(digest, brokers, vnodes));
  }

  /**
   Monotonicity. Growing a cluster from n to m brokers leaves the owner of a
   partition as it was, or moves it to one of the new brokers; for any digest,
   collisions included, and any number of points per broker.
   */
  lemma GrowthMovesToNew(digest: string -> int, small: Ring, large: Ring, topic: string, partition: int)
    requires Valid(small) && Valid(large) && small.Hashed? && large.Hashed?
    requires small.vnodes == large.vnodes && small.brokers < large.brokers
    ensures match (BrokerFor(small, digest, topic, partition), BrokerFor(large, digest, topic, partition))
            case (Ok(before), Ok(after)) =>
              0 <= before < small.brokers && (after == before || small.brokers <= after < large.brokers)
            case (Err(e), Err(f)) => partition < 0 && e == f
            case _ => false
  {
    if partition >= 0 {
      hide BrokerFor, PointsOf, NoLater, Decimal;
      OwnerIsFirst(digest, small, topic, partition);
      OwnerIsFirst(digest, large, topic, partition);
      var h := digest(PartitionName(topic, partition));
      var before := BrokerFor(small, digest, topic, partition).value;
      var after := BrokerFor(large, digest, topic, partition).value;
      var p: Point :| p.broker == before && IsFirst(digest, small.brokers, small.vnodes, h, p);
      var q: Point :| q.broker == after && IsFirst(digest, large.brokers, large.vnodes, h, q);
      if after < small.brokers {
        FirstIsUnique(h, p, q);
      }
    }
  }

  /**
   Under modulo the owner is the one broker whose ordinal differs from the
   partition by a multiple of their number, whatever the topic; a negative
   partition has no owner under either rule.
   */
  lemma ModuloOwner(r: Ring, digest: string -> int, topic: string, partition: int)
    requires Valid(r)
    ensures partition < 0 ==> BrokerFor(r, digest, topic, partition) == Err(ValueError)
    ensures r.Modulo? && partition >= 0 ==>
              && BrokerFor(r, digest, topic, partition).Ok?
              && var owner := BrokerFor(r, digest, topic, partition).value;
                 0 <= owner < r.brokers && exists q :: Multiple(q, r.brokers) == partition - owner
  {
    hide Circle, Clockwise, Decimal;
    if r.Modulo? && partition >= 0 {
      assert Multiple(partition / r.brokers, r.brokers) == partition - partition % r.brokers;
    }
  }

  function Multiple(q: int, n: int): int {
    q * n
  }

  /** A broker is configured only with an ordinal within the cluster, at least one broker and at least one virtual node. */
  lemma ConfiguredExactly(r: Ring)
    ensures Valid(r) <==> 0 <= r.me < r.brokers && (r.Hashed? ==> r.vnodes >= 1)
    ensures MakeRing(r) == if Valid(r) then Ok(r) else Err(ValueError)
  {
  }

  /** Modulo has no such property: from 4 to 5 brokers, partition 7 moves between two old brokers. */
  lemma ModuloMovesOld(digest: string -> int, topic: string)
    ensures BrokerFor(Modulo(4, 0), digest, topic, 7) == Ok(3)
    ensures BrokerFor(Modulo(5, 0), digest, topic, 7) == Ok(2)
  {
  }

  // ------------------------------------------------------------- agreement

  /** The answer does not depend on who asks. */
  predicate SameRule(a: Ring, b: Ring) {
    match (a, b)
    case (Modulo(n, _), Modulo(m, _)) => n == m
    case (Hashed(n, _, v), Hashed(m, _, u)) => n == m && v == u
    case _ => false
  }

  lemma OwnerInRange(r: Ring, digest: string -> int, topic: string, partition: nat)
    requires Valid(r)
    ensures BrokerFor(r, digest, topic, partition).Ok?
    ensures 0 <= BrokerFor(r, digest, topic, partition).value < r.brokers
  {
    if r.Hashed? {
      hide BrokerFor, NoLater, PointsOf;
      OwnerIsFirst(digest, r, topic, partition);
    }
  }

  /** Every partition has exactly one owner among brokers that share a rule, and they all name the same one. */
  lemma ExactlyOneOwner(a: Ring, b: Ring, digest: string -> int, topic: string, partition: nat)
    requires Valid(a) && Valid(b) && SameRule(a, b)
    ensures BrokerFor(a, digest, topic, partition) == BrokerFor(b, digest, topic, partition)
    ensures Owns(a, digest, topic, partition).Ok?
    ensures Owns(a, digest, topic, partition) == Ok(true) && Owns(b, digest, topic, partition) == Ok(true) ==> a.me == b.me
    ensures exists me :: 0 <= me < a.brokers && Valid(a.(me := me)) && Owns(a.(me := me), digest, topic, partition) == Ok(true)
  {
    hide Circle, Clockwise, PartitionName;
    OwnerInRange(a, digest, topic, partition);
    var owner := BrokerFor(a, digest, topic, partition).value;
    assert Valid(a.(me := owner));
    assert BrokerFor(a.(me := owner), digest, topic, partition) == Ok(owner);
  }

  /** The share of one broker: in order, and exactly the partitions it owns. */
  lemma {:induction false} MyPartitionsAre(r: Ring, digest: string -> int, topic: string, partitions: nat)
    requires Valid(r)
    ensures var mine := MyPartitions(r, digest, topic, partitions);
            && (forall p: nat :: p in mine <==> p < partitions && Owns(r, digest, topic, p) == Ok(true))
            && (forall i, j :: 0 <= i < j < |mine| ==> mine[i] < mine[j])
  {
    hide Owns;
    if partitions == 0 {
    } else {
      MyPartitionsAre(r, digest, topic, partitions - 1);
      var front := MyPartitions(r, digest, topic, partitions - 1);
      assert forall i :: 0 <= i < |front| ==> front[i] in front;
    }
  }
}
