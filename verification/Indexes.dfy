/** The sparse index: relative offset -> byte position. Derived from the log, rebuildable. */
module Indexes {
  import opened Bytes
  import opened Records
  import opened Frames
  import opened Bisect

  /** An entry occupies eight bytes of the index file. */
  datatype Entry = Entry(relative: nat, position: nat)

  const MAX_U32 := 0xFFFF_FFFF
  const INTERVAL_BYTES := 4096

  predicate Packable(e: Entry) {
    e.relative <= MAX_U32 && e.position <= MAX_U32
  }

  predicate AllPackable(entries: seq<Entry>) {
    forall e :: e in entries ==> Packable(e)
  }

  function PackEntry(e: Entry): (s: seq<byte>)
    requires Packable(e)
    ensures |s| == 8
  {
    PackUnsigned(e.relative, 4) + PackUnsigned(e.position, 4)
  }

  function UnpackEntry(s: seq<byte>): Entry
    requires |s| == 8
  {
    Entry(UnpackUnsigned(s[..4]), UnpackUnsigned(s[4..]))
  }

  function PackEntries(entries: seq<Entry>): (s: seq<byte>)
    requires AllPackable(entries)
    ensures |s| == 8 * |entries|
  {
    if entries == [] then [] else
      PackEntries(entries[..|entries| - 1]) + PackEntry(entries[|entries| - 1])
  }

  function WholeLength(n: nat): (m: nat)
    ensures m <= n < m + 8
    ensures m % 8 == 0
  {
    n - n % 8
  }

  /** An entry is two big-endian words: the relative offset, then the position. */
  lemma EntryBytes(e: Entry)
    requires Packable(e)
    ensures var s := PackEntry(e);
            && e.relative == 0x100_0000 * (s[0] as int) + 0x1_0000 * (s[1] as int) + 0x100 * (s[2] as int) + s[3] as int
            && e.position == 0x100_0000 * (s[4] as int) + 0x1_0000 * (s[5] as int) + 0x100 * (s[6] as int) + s[7] as int
  {
    hide PackUnsigned, UnpackUnsigned, Pow256;
    Widths();
    var a, b := PackUnsigned(e.relative, 4), PackUnsigned(e.position, 4);
    UnpackPackUnsigned(e.relative, 4);
    UnpackPackUnsigned(e.position, 4);
    UnpackFour(a);
    UnpackFour(b);
  }

  /** The entries an index file holds, a ragged tail dropped. */
  function LoadEntries(file: seq<byte>): (entries: seq<Entry>)
    ensures |entries| == |file| / 8
  {
    if |file| < 8 then [] else
      [UnpackEntry(file[..8])] + LoadEntries(file[8..])
  }

  function LastPosition(entries: seq<Entry>): nat {
    if entries == [] then 0 else entries[|entries| - 1].position
  }

  /** What `maybe_append` makes of the entries, or the guard it trips. */
  function Extend(entries: seq<Entry>, base: int, interval: int, offset: int, position: int): Result<seq<Entry>> {
    if position - LastPosition(entries) < interval then
      Ok(entries)
    else
      var relative := offset - base;
      if !(0 <= relative <= MAX_U32) then
        Err(ValueError)
      else if !(0 <= position <= MAX_U32) then
        Err(ValueError)
      else if entries != [] && relative <= entries[|entries| - 1].relative then
        Err(ValueError)
      else
        Ok(entries + [Entry(relative, position)])
  }

  function Relatives(entries: seq<Entry>): (keys: seq<int>)
    ensures |keys| == |entries|
    ensures forall i :: 0 <= i < |entries| ==> keys[i] == entries[i].relative
  {
    seq(|entries|, i requires 0 <= i < |entries| => entries[i].relative)
  }

  /** The hint for an offset: where to start, and the offset promised there. */
  function Lookup(entries: seq<Entry>, base: int, offset: int): (int, nat) {
    var i := BisectRight(Relatives(entries), offset - base);
    if i == 0 then (base, 0) else (base + entries[i - 1].relative, entries[i - 1].position)
  }

  class Index {
    const base: int
    const interval: int
    var entries: seq<Entry>
    var disk: seq<byte>      // what the operating system holds of the index file
    var buffer: seq<byte>    // written to the file object, not flushed yet
    var open: bool

    /** The file, once flushed, is exactly the entries in memory. */
    ghost predicate Valid()
      reads this
    {
      && AllPackable(entries)
      && disk + buffer == PackEntries(entries)
      && (!open ==> buffer == [])
    }

    constructor (file: seq<byte>, base: int, interval: int)
      ensures Valid() && open
      ensures this.base == base && this.interval == interval
      ensures entries == LoadEntries(file)
      ensures disk == file[..WholeLength(|file|)] && buffer == []
    {
      hide WholeLength, LoadEntries, PackEntries;
      var end := WholeLength(|file|);
      this.base := base;
      this.interval := interval;
      this.entries := LoadEntries(file[..end]);
      this.disk := file[..end];
      this.buffer := [];
      this.open := true;
      new;
      assert file[..end] + [] == file[..end];
      LoadIgnoresRaggedTail(file);
      LoadedPack(file[..end]);
    }

    method MaybeAppend(offset: int, position: int) returns (r: Result<()>)
      requires Valid()
      modifies this
      ensures Valid() && open == old(open) && disk == old(disk)
      ensures match Extend(old(entries), base, interval, offset, position)
              case Ok(es) =>
                if |es| == |old(entries)| || open then r == Ok(()) && entries == es
                else r == Err(ValueError) && entries == old(entries)
              case Err(e) => r == Err(e) && entries == old(entries)
    {
      hide Valid;
      var lastPosition := if entries != [] then entries[|entries| - 1].position else 0;
      if position - lastPosition < interval {
        return Ok(());
      }
      var relative := offset - base;
      if !(0 <= relative <= MAX_U32) {
        return Err(ValueError);
      }
      if !(0 <= position <= MAX_U32) {
        return Err(ValueError);
      }
      if entries != [] && relative <= entries[|entries| - 1].relative {
        return Err(ValueError);
      }
      if !open {
        assert |entries + [Entry(relative, position)]| == |entries| + 1;
        return Err(ValueError);          // write to a closed file
      }
      Write(Entry(relative, position));
      return Ok(());
    }

    method Write(e: Entry)
      requires Valid() && open && Packable(e)
      modifies this
      ensures Valid() && open && disk == old(disk)
      ensures entries == old(entries) + [e]
    {
      hide PackEntry, PackEntries, AllPackable;
      PackSnoc(entries, e);
      assert disk + (buffer + PackEntry(e)) == (disk + buffer) + PackEntry(e);
      buffer := buffer + PackEntry(e);
      entries := entries + [e];
    }

    function LookupHint(offset: int): (int, nat)
      reads this
    {
      Lookup(entries, base, offset)
    }

    // Called once, while the segment that owns the index is being recovered.
    method Clear()
      requires Valid() && open
      modifies this
      ensures Valid() && open && entries == [] && disk == [] && buffer == []
    {
      entries := [];
      disk := disk + buffer;
      buffer := [];
      disk := [];
    }

    method Sync() returns (r: Result<()>)
      requires Valid()
      modifies this
      ensures Valid() && open == old(open) && entries == old(entries)
      ensures r == if open then Ok(()) else Err(ValueError)
      ensures open ==> disk == PackEntries(entries) && buffer == []
      ensures !open ==> disk == old(disk) && buffer == old(buffer)
    {
      if !open {
        return Err(ValueError);
      }
      disk := disk + buffer;
      buffer := [];
      assert disk + [] == disk;
      return Ok(());
    }

    method Close()
      requires Valid()
      modifies this
      ensures Valid() && !open && entries == old(entries)
      ensures disk == PackEntries(entries)
    {
      assert buffer == [] ==> disk + buffer == disk;
      if open {
        var _ := Sync();
        open := false;
      }
    }
  }

  lemma PackSnoc(entries: seq<Entry>, e: Entry)
    requires Packable(e) && AllPackable(entries)
    ensures AllPackable(entries + [e])
    ensures PackEntries(entries + [e]) == PackEntries(entries) + PackEntry(e)
  {
    hide PackEntry;
    assert (entries + [e])[..|entries|] == entries;
  }

  lemma UnpackPackEntry(e: Entry)
    requires Packable(e)
    ensures UnpackEntry(PackEntry(e)) == e
  {
    hide PackUnsigned, UnpackUnsigned;
    Widths();
    UnpackPackUnsigned(e.relative, 4);
    UnpackPackUnsigned(e.position, 4);
    assert PackEntry(e)[..4] == PackUnsigned(e.relative, 4);
    assert PackEntry(e)[4..] == PackUnsigned(e.position, 4);
  }

  lemma PackUnpackEntry(s: seq<byte>)
    requires |s| == 8
    ensures Packable(UnpackEntry(s))
    ensures PackEntry(UnpackEntry(s)) == s
  {
    hide PackUnsigned, UnpackUnsigned;
    Widths();
    UnpackedFits(s[..4]);
    UnpackedFits(s[4..]);
    PackUnpackUnsigned(s[..4]);
    PackUnpackUnsigned(s[4..]);
    assert s == s[..4] + s[4..];
  }

  lemma {:induction false} LoadConcat(a: seq<byte>, b: seq<byte>)
    requires |a| % 8 == 0
    ensures LoadEntries(a + b) == LoadEntries(a) + LoadEntries(b)
  {
    hide UnpackEntry;
    if a == [] {
      assert a + b == b;
    } else {
      assert (a + b)[..8] == a[..8];
      assert (a + b)[8..] == a[8..] + b;
      LoadConcat(a[8..], b);
    }
  }

  lemma LoadIgnoresRaggedTail(file: seq<byte>)
    ensures LoadEntries(file[..WholeLength(|file|)]) == LoadEntries(file)
  {
    hide WholeLength, UnpackEntry;
    var end := WholeLength(|file|);
    assert |file[end..]| < 8;
    assert LoadEntries(file[end..]) == [];
    LoadConcat(file[..end], file[end..]);
    assert file == file[..end] + file[end..];
  }

  /** A flushed index file loads back the very entries it was written from. */
  lemma {:induction false} LoadPacked(entries: seq<Entry>)
    requires AllPackable(entries)
    ensures LoadEntries(PackEntries(entries)) == entries
  {
    hide PackEntry, UnpackEntry;
    if entries == [] {
    } else {
      var front, last := entries[..|entries| - 1], entries[|entries| - 1];
      LoadPacked(front);
      UnpackPackEntry(last);
      LoadConcat(PackEntries(front), PackEntry(last));
      assert PackEntry(last)[..8] == PackEntry(last);
      assert LoadEntries(PackEntry(last)) == [last];
    }
  }

  /** Any index file of whole entries is what those entries pack to. */
  lemma {:induction false} LoadedPack(file: seq<byte>)
    requires |file| % 8 == 0
    ensures AllPackable(LoadEntries(file))
    ensures PackEntries(LoadEntries(file)) == file
  {
    hide PackEntry, UnpackEntry, Packable;
    if file == [] {
    } else {
      var cut := |file| - 8;
      var front, last := file[..cut], file[cut..];
      LoadedPack(front);
      PackUnpackEntry(last);
      LoadConcat(front, last);
      assert file == front + last;
      assert last[..8] == last;
      assert LoadEntries(last) == [UnpackEntry(last)];
      var es := LoadEntries(file);
      assert es[..|es| - 1] == LoadEntries(front);
    }
  }

  // ------------------------------------------- what feeding a segment's records builds

  /** The entries left by feeding every record, in order, at the byte where it starts. */
  function IndexOf(rs: seq<Record>, base: int, interval: int): seq<Entry> {
    if rs == [] then [] else
      var front, last := rs[..|rs| - 1], rs[|rs| - 1];
      var es := IndexOf(front, base, interval);
      match Extend(es, base, interval, last.offset, Total(front))
      case Ok(grown) => grown
      case Err(_) => es
  }

  /** The last record starts where an entry can still hold its position. */
  predicate Addressable(rs: seq<Record>) {
    rs == [] || Total(rs[..|rs| - 1]) <= MAX_U32
  }

  /** The last entry at or before record j, found the slow way. */
  function FloorEntry(entries: seq<Entry>, j: int): Entry {
    if entries == [] then Entry(0, 0)
    else if entries[|entries| - 1].relative <= j then entries[|entries| - 1]
    else FloorEntry(entries[..|entries| - 1], j)
  }

  lemma {:induction false} FloorEntrySplit(entries: seq<Entry>, i: nat, j: int)
    requires i <= |entries|
    requires forall k :: 0 <= k < i ==> entries[k].relative <= j
    requires forall k :: i <= k < |entries| ==> j < entries[k].relative
    ensures FloorEntry(entries, j) == if i == 0 then Entry(0, 0) else entries[i - 1]
  {
    if i == |entries| {
    } else {
      FloorEntrySplit(entries[..|entries| - 1], i, j);
    }
  }

  /** Over increasing entries the bisected lookup is the slow one. */
  lemma LookupIsFloor(entries: seq<Entry>, base: int, offset: int)
    requires Sorted(Relatives(entries))
    ensures var e := FloorEntry(entries, offset - base);
            Lookup(entries, base, offset) == (base + e.relative, e.position)
  {
    hide BisectRight, FloorEntry;
    Floor(Relatives(entries), offset - base);
    FloorEntrySplit(entries, BisectRight(Relatives(entries), offset - base), offset - base);
  }

  /** Every entry a segment's records leave behind names the record that starts at its position. */
  lemma {:induction false} EntriesAtStarts(rs: seq<Record>, base: int, interval: int)
    requires Numbered(rs, base)
    ensures forall e :: e in IndexOf(rs, base, interval) ==> e.relative < |rs| && e.position == Start(rs, e.relative)
  {
    hide Total;
    if rs == [] {
    } else {
      var front, last := rs[..|rs| - 1], rs[|rs| - 1];
      EntriesAtStarts(front, base, interval);
      StartsOfPrefix(front, last);
      assert rs == front + [last];
      var es := IndexOf(front, base, interval);
      forall e | e in IndexOf(rs, base, interval)
        ensures e.relative < |rs| && e.position == Start(rs, e.relative)
      {
        if e in es {
          assert Start(rs, e.relative) == Start(front, e.relative);
        } else {
          assert e == Entry(|front|, Total(front));
        }
      }
    }
  }

  /** Every entry names the record that starts at its position; entries are in order and spread out. */
  ghost predicate Faithful(es: seq<Entry>, rs: seq<Record>, interval: int) {
    && (forall i :: 0 <= i < |es| ==> es[i].relative < |rs| && es[i].position == Start(rs, es[i].relative))
    && (forall i, j :: 0 <= i < j < |es| ==> es[i].relative < es[j].relative)
    && Spread(es, interval)
  }

  function PositionBefore(es: seq<Entry>, i: nat): nat
    requires i <= |es|
  {
    if i == 0 then 0 else es[i - 1].position
  }

  ghost predicate Spread(es: seq<Entry>, interval: int) {
    forall i :: 0 <= i < |es| ==> es[i].position >= PositionBefore(es, i) + interval
  }

  /** Every record starts less than one interval after the entry that finds it. */
  ghost predicate Covering(es: seq<Entry>, rs: seq<Record>, interval: int) {
    forall j :: 0 <= j < |rs| ==> 0 <= Start(rs, j) - FloorEntry(es, j).position < interval
  }

  lemma StartsOfPrefix(front: seq<Record>, last: Record)
    ensures forall i | 0 <= i <= |front| :: Start(front + [last], i) == Start(front, i)
    ensures Start(front, |front|) == Total(front)
  {
    assert front[..|front|] == front;
    forall i | 0 <= i <= |front|
      ensures Start(front + [last], i) == Start(front, i)
    {
      assert (front + [last])[..i] == front[..i];
    }
  }

  lemma SameFaithful(es: seq<Entry>, front: seq<Record>, last: Record, interval: int)
    requires Faithful(es, front, interval)
    ensures Faithful(es, front + [last], interval)
  {
    hide Total, Start, LastPosition;
    StartsOfPrefix(front, last);
  }

  lemma SnocFaithful(es: seq<Entry>, front: seq<Record>, last: Record, interval: int)
    requires Faithful(es, front, interval)
    requires Total(front) >= LastPosition(es) + interval
    ensures Faithful(es + [Entry(|front|, Total(front))], front + [last], interval)
  {
    hide Total, Start, Spread, LastPosition;
    StartsOfPrefix(front, last);
    SnocSpread(es, interval, Entry(|front|, Total(front)));
  }

  lemma SnocSpread(es: seq<Entry>, interval: int, e: Entry)
    requires Spread(es, interval) && e.position >= LastPosition(es) + interval
    ensures Spread(es + [e], interval)
  {
    forall i | 0 <= i <= |es|
      ensures (es + [e])[i].position >= PositionBefore(es + [e], i) + interval
    {
      assert PositionBefore(es + [e], i) == PositionBefore(es, i);
    }
  }

  lemma CountFits(rs: seq<Record>)
    ensures 32 * |rs| <= Total(rs)
  {
    hide Total;
    StartGap(rs, 0, |rs|);
    assert rs[..|rs|] == rs;
  }

  lemma ExtendFaithful(es: seq<Entry>, front: seq<Record>, last: Record, base: int, interval: int)
    requires interval >= 1
    requires last.offset == base + |front| && Total(front) <= MAX_U32
    requires Faithful(es, front, interval)
    ensures Extend(es, base, interval, last.offset, Total(front)) ==
            Ok(if Total(front) - LastPosition(es) < interval then es else es + [Entry(|front|, Total(front))])
    ensures Faithful(Extend(es, base, interval, last.offset, Total(front)).value, front + [last], interval)
  {
    hide Total, Start, Spread;
    CountFits(front);
    assert es != [] ==> es[|es| - 1].relative < |front|;
    hide Faithful;
    if Total(front) - LastPosition(es) < interval {
      SameFaithful(es, front, last, interval);
    } else {
      SnocFaithful(es, front, last, interval);
    }
  }

  // The last record is covered by the last entry, be it old or new.
  lemma CoversLast(es: seq<Entry>, front: seq<Record>, last: Record, interval: int)
    requires interval >= 1 && Faithful(es, front, interval)
    ensures var grown := if Total(front) - LastPosition(es) < interval then es else es + [Entry(|front|, Total(front))];
            0 <= Start(front + [last], |front|) - FloorEntry(grown, |front|).position < interval
  {
    hide Total, Start, Spread;
    StartsOfPrefix(front, last);
    if es != [] {
      StartGap(front, es[|es| - 1].relative, |front|);
    }
  }

  // A new entry lies past every earlier record, so it does not change their floor.
  lemma CoversEarlier(es: seq<Entry>, front: seq<Record>, last: Record, interval: int, j: nat)
    requires j < |front| && Covering(es, front, interval)
    ensures var grown := if Total(front) - LastPosition(es) < interval then es else es + [Entry(|front|, Total(front))];
            0 <= Start(front + [last], j) - FloorEntry(grown, j).position < interval
  {
    hide Total, Start;
    StartsOfPrefix(front, last);
    assert Start(front + [last], j) == Start(front, j);
    assert (es + [Entry(|front|, Total(front))])[..|es|] == es;
  }

  lemma ExtendCovering(es: seq<Entry>, front: seq<Record>, last: Record, base: int, interval: int)
    requires interval >= 1
    requires last.offset == base + |front| && Total(front) <= MAX_U32
    requires Faithful(es, front, interval) && Covering(es, front, interval)
    ensures var r := Extend(es, base, interval, last.offset, Total(front));
            r.Ok? && Covering(r.value, front + [last], interval)
  {
    hide Total, Start, Extend, Faithful, FloorEntry, LastPosition;
    ExtendFaithful(es, front, last, base, interval);
    forall j | 0 <= j < |front| {
      CoversEarlier(es, front, last, interval, j);
    }
    CoversLast(es, front, last, interval);
  }

  lemma {:induction false} IndexFaithful(rs: seq<Record>, base: int, interval: int)
    requires interval >= 1
    requires Numbered(rs, base) && Addressable(rs)
    ensures Faithful(IndexOf(rs, base, interval), rs, interval)
    ensures Covering(IndexOf(rs, base, interval), rs, interval)
    ensures rs != [] ==>
              var front := rs[..|rs| - 1];
              Extend(IndexOf(front, base, interval), base, interval, rs[|rs| - 1].offset, Total(front)).Ok?
  {
    hide Extend, Faithful, Covering, Start, Total;
    if rs == [] {
      EmptyFaithful(interval);
    } else {
      var front, last := rs[..|rs| - 1], rs[|rs| - 1];
      assert rs == front + [last];
      AddressableFront(rs);
      IndexFaithful(front, base, interval);
      var es := IndexOf(front, base, interval);
      ExtendFaithful(es, front, last, base, interval);
      ExtendCovering(es, front, last, base, interval);
    }
  }

  lemma EmptyFaithful(interval: int)
    ensures Faithful([], [], interval) && Covering([], [], interval)
  {
  }

  lemma AddressableFront(rs: seq<Record>)
    requires rs != [] && Addressable(rs)
    ensures Addressable(rs[..|rs| - 1]) && Total(rs[..|rs| - 1]) <= MAX_U32
  {
  }

  lemma {:induction false} SpreadPositions(es: seq<Entry>, interval: int, i: nat)
    requires Spread(es, interval) && i <= |es|
    ensures interval * i <= PositionBefore(es, i)
  {
    if i == 0 {
    } else {
      SpreadPositions(es, interval, i - 1);
      Successor(interval, i - 1);
      assert es[i - 1].position >= PositionBefore(es, i - 1) + interval;
    }
  }

  lemma Successor(x: int, n: int)
    ensures x * (n + 1) == x * n + x
  {
  }

  lemma {:induction false} FloorWithin(es: seq<Entry>, j: int)
    ensures FloorEntry(es, j) == Entry(0, 0) || (FloorEntry(es, j) in es && FloorEntry(es, j).relative <= j)
  {
    if es == [] || es[|es| - 1].relative <= j {
    } else {
      FloorWithin(es[..|es| - 1], j);
    }
  }

  lemma FaithfulSorted(es: seq<Entry>, rs: seq<Record>, interval: int)
    requires Faithful(es, rs, interval)
    ensures Sorted(Relatives(es))
  {
    hide Start, Spread;
  }

  /** Every hint of a faithful index is the start of a record at or before the one sought. */
  lemma HintIsRecordStart(es: seq<Entry>, rs: seq<Record>, base: int, interval: int, j: nat)
    requires Faithful(es, rs, interval) && j < |rs|
    ensures var (promised, position) := Lookup(es, base, base + j);
            var e := FloorEntry(es, j);
            && (promised, position) == (base + e.relative, e.position)
            && e.relative <= j && position == Start(rs, e.relative)
  {
    hide Lookup, FloorEntry, Start, Spread, Sorted;
    FaithfulSorted(es, rs, interval);
    LookupIsFloor(es, base, base + j);
    FloorWithin(es, j);
    StartOfFirst(rs);
  }

  lemma StartOfFirst(rs: seq<Record>)
    ensures Start(rs, 0) == 0
  {
  }

  /**
   The seek cost. For every stored record, the hint is the start of a record at
   or before it, fewer than `interval` bytes away, so fewer than interval / 32
   records are decoded before it.
   */
  lemma SeekCost(rs: seq<Record>, base: int, interval: int, j: nat)
    requires interval >= 1
    requires Numbered(rs, base) && Addressable(rs) && j < |rs|
    ensures var (promised, position) := Lookup(IndexOf(rs, base, interval), base, base + j);
            var i := promised - base;
            && 0 <= i <= j
            && position == Start(rs, i)
            && 0 <= Start(rs, j) - position < interval
            && 32 * (j - i) < interval
  {
    hide Lookup, Start, IndexOf, FloorEntry, Faithful;
    var es := IndexOf(rs, base, interval);
    IndexFaithful(rs, base, interval);
    HintIsRecordStart(es, rs, base, interval, j);
    StartGap(rs, FloorEntry(es, j).relative, j);
  }

  /** And the index stays small: entries are at least one interval apart. */
  lemma {:induction false} EntriesAreFew(rs: seq<Record>, base: int, interval: int)
    requires interval >= 1
    requires Numbered(rs, base) && Addressable(rs)
    ensures var es := IndexOf(rs, base, interval); interval * |es| <= LastPosition(es)
  {
    hide Start, IndexOf, Spread;
    var es := IndexOf(rs, base, interval);
    IndexFaithful(rs, base, interval);
    SpreadPositions(es, interval, |es|);
  }
}
