/** Reading a partition a batch at a time, as a consumer that does not follow. */
module Paging {
  import opened Bytes
  import opened Records
  import opened Frames
  import opened Reading
  import opened Segments
  import opened Chains
  import opened Crashes
  import opened Logs

  const BATCH := 500

  /** The records from the n-th on, cut after `limit` of them if there is a limit. */
  function Cut<T>(rs: seq<T>, n: int, limit: Option<int>): seq<T> {
    var all := Suffix(rs, n);
    if limit.Some? && 0 <= limit.value < |all| then all[..limit.value] else all
  }

  /** One trip to the log: at most `limit` records from `offset` on; all of them if `limit` is not positive. */
  method ReadBatch(log: Log, offset: int, limit: int) returns (r: Result<seq<Record>>)
    requires log.Valid()
    ensures log.Valid()
    ensures r == if offset < FirstOffset(log.state) then Err(OffsetOutOfRange)
                 else Ok(Cut(AllRecords(log.state.segs), offset - FirstOffset(log.state),
                             if limit <= 0 then None else Some(limit)))
  {
    hide LogInv, AllRecords, StandFor;
    var stream := log.ReadFrom(offset);
    if stream.Err? {
      return Err(stream.error);
    }
    var records := stream.value.records;
    if limit <= 0 {
      return Ok(records);
    }
    assert records[..|records|] == records;
    var out := [];
    for i := 0 to |records|
      invariant out == records[..i] && i < limit
    {
      out := out + [records[i]];
      if |out| >= limit {
        assert out == records[..limit];
        return Ok(out);
      }
    }
    return Ok(out);
  }

  /**
   Sends batch after batch until one comes back short, or `maxRecords` have been
   sent if that is positive; what was sent, or the error that ends the call.
   */
  method Consume(log: Log, from: int, maxRecords: int) returns (r: Result<seq<seq<Record>>>)
    requires log.Valid()
    ensures var first := FirstOffset(log.state);
            var limit := if maxRecords > 0 then Some(maxRecords) else None;
            if from < first then r == Err(OffsetOutOfRange)
            else
              && r.Ok?
              && Flatten(r.value) == Cut(AllRecords(log.state.segs), from - first, limit)
              && (forall b :: b in r.value ==> |b| <= 500)
              && (forall i :: 0 <= i < |r.value| - 1 ==> |r.value[i]| == 500)
  {
    hide LogInv, AllRecords, StandFor, Stored, Cut, Log.Valid, Numbered, Flatten, FirstOffset;
    KnownLog(log);
    ghost var first, records := FirstOffset(log.state), AllRecords(log.state.segs);
    var offset := from;
    var remaining := if maxRecords > 0 then Some(maxRecords) else None;
    ghost var wanted := Cut(records, from - first, remaining);
    var sent := [];
    NothingSent(wanted);
    while true
      invariant log.Valid() && from <= offset
      invariant from < first ==> offset == from
      invariant remaining.Some? ==> remaining.value > 0
      invariant from >= first ==> Flatten(sent) + Cut(records, offset - first, remaining) == wanted
      invariant forall b :: b in sent ==> |b| == BATCH
      decreases first + |records| - offset
    {
      var limit := if remaining.None? then BATCH else Min(BATCH, remaining.value);
      var batch := ReadBatch(log, offset, limit);
      if batch.Err? {
        return Err(batch.error);
      }
      var got := batch.value;
      CutStep(records, offset - first, limit, remaining);
      FlattenSnoc(sent, got);
      Regrouped(Flatten(sent), got, Cut(records, offset - first + |got|, Less(remaining, |got|)));
      sent := sent + [got];
      if got != [] {
        LastOffset(records, first, offset, limit);
        offset := got[|got| - 1].offset + 1;
      }
      if remaining.Some? {
        remaining := Some(remaining.value - |got|);
        if remaining.value <= 0 {
          CutNothing(records, offset - first);
          assert Flatten(sent) + [] == Flatten(sent);
          return Ok(sent);
        }
      }
      if |got| == limit {
        continue;
      }
      assert Flatten(sent) + [] == Flatten(sent);
      return Ok(sent);
    }
  }

  function Less(remaining: Option<int>, n: nat): Option<int> {
    if remaining.Some? then Some(remaining.value - n) else None
  }

  function Flatten<T>(batches: seq<seq<T>>): seq<T> {
    if batches == [] then [] else Flatten(batches[..|batches| - 1]) + batches[|batches| - 1]
  }

  lemma FlattenSnoc<T>(batches: seq<seq<T>>, b: seq<T>)
    ensures Flatten(batches + [b]) == Flatten(batches) + b
  {
    assert (batches + [b])[..|batches|] == batches;
  }

  lemma NothingSent<T>(wanted: seq<T>)
    ensures Flatten([]) + wanted == wanted
  {
    assert [] + wanted == wanted;
  }

  lemma Regrouped<T>(a: seq<T>, b: seq<T>, c: seq<T>)
    ensures a + (b + c) == (a + b) + c
  {
  }

  /** Taking a batch and then the rest is taking it all; a short batch leaves nothing. */
  lemma CutStep<T>(rs: seq<T>, n: int, limit: int, remaining: Option<int>)
    requires 0 <= n && 1 <= limit && (remaining.Some? ==> limit <= remaining.value)
    ensures var got := Cut(rs, n, Some(limit));
            && |got| <= limit
            && Cut(rs, n, remaining) == got + Cut(rs, n + |got|, Less(remaining, |got|))
            && (|got| < limit ==> Cut(rs, n + |got|, Less(remaining, |got|)) == [])
            && (|got| < limit ==> n + |got| >= |rs|)
            && (got != [] ==> n + |got| <= |rs|)
  {
  }

  lemma CutNothing<T>(rs: seq<T>, n: int)
    ensures Cut(rs, n, Some(0)) == []
  {
  }

  /** The last record of a batch names the offset to go on from. */
  lemma LastOffset(rs: seq<Record>, first: int, offset: int, limit: int)
    requires Numbered(rs, first) && first <= offset
    ensures var got := Cut(rs, offset - first, Some(limit));
            got != [] ==> got[|got| - 1].offset + 1 == offset + |got|
  {
  }

  lemma KnownLog(log: Log)
    requires log.Valid()
    ensures log.state.segs != []
    ensures Numbered(AllRecords(log.state.segs), FirstOffset(log.state))
  {
    hide StandFor, AllInv, AllIndexable, Linked, Sealed, AllRecords;
    ChainNext(log.state);
    StoredNumbered(AllRecords(log.state.segs), FirstOffset(log.state));
  }

  lemma StoredNumbered(rs: seq<Record>, base: int)
    requires Stored(rs, base)
    ensures Numbered(rs, base)
  {
    hide Encodable;
  }

  // ------------------------------------------------------ slices of a log

  /** What a log holds: records numbered from a first offset. */
  datatype Content = Content(first: int, records: seq<Record>)

  /** These records are those of the log from this offset on, without gap or repeat. */
  ghost predicate SliceAt(c: Content, offset: int, rs: seq<Record>) {
    rs != [] ==>
      0 <= offset - c.first <= offset - c.first + |rs| <= |c.records|
      && c.records[offset - c.first..offset - c.first + |rs|] == rs
  }

  lemma SliceGrows(c: Content, d: Content, offset: int, rs: seq<Record>)
    requires d.first == c.first && c.records <= d.records && SliceAt(c, offset, rs)
    ensures SliceAt(d, offset, rs)
  {
  }

  /** Two adjacent slices make one. */
  lemma SliceJoins(c: Content, offset: int, rs: seq<Record>, more: seq<Record>)
    requires SliceAt(c, offset, rs) && SliceAt(c, offset + |rs|, more)
    ensures SliceAt(c, offset, rs + more)
  {
    var i := offset - c.first;
    if rs != [] && more != [] {
      assert c.records[i..i + |rs| + |more|] == c.records[i..i + |rs|] + c.records[i + |rs|..i + |rs| + |more|];
    } else if more == [] {
      assert rs + more == rs;
    } else {
      assert rs + more == more;
    }
  }
}
