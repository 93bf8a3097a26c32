/** Sequences of records laid end to end in a file, and how such a file parses. */
module Frames {
  import opened Bytes
  import opened Records

  predicate AllEncodable(rs: seq<Record>) {
    forall i :: 0 <= i < |rs| ==> Encodable(rs[i])
  }

  /** Records a segment may hold: encodable, and numbered consecutively from base. */
  ghost predicate Stored(rs: seq<Record>, base: int) {
    AllEncodable(rs) && Numbered(rs, base)
  }

  ghost predicate Numbered(rs: seq<Record>, base: int) {
    forall i :: 0 <= i < |rs| ==> rs[i].offset == base + i
  }

  function Total(rs: seq<Record>): nat {
    if rs == [] then 0 else Total(rs[..|rs| - 1]) + Size(rs[|rs| - 1])
  }

  /** The byte position at which record i starts. */
  function Start(rs: seq<Record>, i: nat): nat
    requires i <= |rs|
  {
    Total(rs[..i])
  }

  function EncodeAll(rs: seq<Record>): seq<byte>
    requires AllEncodable(rs)
  {
    if rs == [] then [] else EncodeAll(rs[..|rs| - 1]) + Frame(rs[|rs| - 1])
  }

  lemma {:induction false} EncodeAllLength(rs: seq<Record>)
    requires AllEncodable(rs)
    ensures |EncodeAll(rs)| == Total(rs)
  {
    hide Frame, Encodable;
    if rs == [] {
    } else {
      EncodeAllLength(rs[..|rs| - 1]);
      FrameSize(rs[|rs| - 1]);
    }
  }

  lemma {:induction false} EncodeAllConcat(a: seq<Record>, b: seq<Record>)
    requires AllEncodable(a) && AllEncodable(b)
    ensures EncodeAll(a + b) == EncodeAll(a) + EncodeAll(b)
  {
    hide Frame, Encodable;
    if b == [] {
      assert a + b == a;
    } else {
      var front := b[..|b| - 1];
      EncodeAllConcat(a, front);
      assert (a + b)[..|a + b| - 1] == a + front;
      assert EncodeAll(a + front) + Frame(b[|b| - 1]) == EncodeAll(a) + EncodeAll(b);
    }
  }

  lemma EncodeOne(r: Record)
    requires Encodable(r)
    ensures EncodeAll([r]) == Frame(r)
  {
    hide Frame, Encodable;
    assert [r][..0] == [];
  }

  lemma EncodeSnoc(rs: seq<Record>, r: Record)
    requires AllEncodable(rs) && Encodable(r)
    ensures EncodeAll(rs + [r]) == EncodeAll(rs) + Frame(r)
    ensures Total(rs + [r]) == Total(rs) + Size(r)
  {
    hide Frame, Encodable;
    assert (rs + [r])[..|rs|] == rs;
  }

  /** Starts advance by record sizes: at least one header per record in between. */
  lemma {:induction false} StartGap(rs: seq<Record>, i: nat, j: nat)
    requires i <= j <= |rs|
    ensures Start(rs, i) + 32 * (j - i) <= Start(rs, j)
    ensures i < j ==> Start(rs, j) == Start(rs, j - 1) + Size(rs[j - 1])
  {
    if i == j {
    } else {
      StartGap(rs, i, j - 1);
      assert rs[..j][..j - 1] == rs[..j - 1];
    }
  }

  /** The bytes from a record's start on are the frames of the records from it on. */
  lemma EncodeFrom(rs: seq<Record>, i: nat)
    requires AllEncodable(rs) && i <= |rs|
    ensures Start(rs, i) <= |EncodeAll(rs)| == Total(rs)
    ensures EncodeAll(rs)[..Start(rs, i)] == EncodeAll(rs[..i])
    ensures EncodeAll(rs)[Start(rs, i)..] == EncodeAll(rs[i..])
  {
    hide Frame, Encodable;
    EncodeAllConcat(rs[..i], rs[i..]);
    assert rs == rs[..i] + rs[i..];
    EncodeAllLength(rs[..i]);
    EncodeAllLength(rs);
  }

  /** What a reader positioned at a record's start sees. */
  lemma EncodeHead(rs: seq<Record>)
    requires AllEncodable(rs) && rs != []
    ensures EncodeAll(rs) == Frame(rs[0]) + EncodeAll(rs[1..])
  {
    hide Frame, Encodable;
    EncodeAllConcat([rs[0]], rs[1..]);
    EncodeOne(rs[0]);
    assert rs == [rs[0]] + rs[1..];
  }

  lemma EncodeNone()
    ensures EncodeAll([]) == []
  {
  }

  /** The first read of a file of frames returns its first record, if it has one. */
  lemma ParseHead(rs: seq<Record>, tail: seq<byte>)
    requires AllEncodable(rs)
    ensures rs == [] ==> EncodeAll(rs) + tail == tail
    ensures rs != [] ==>
              var f := EncodeAll(rs) + tail;
              && ReadOne(f) == Found(rs[0], Size(rs[0]))
              && f[Size(rs[0])..] == EncodeAll(rs[1..]) + tail
  {
    hide Frame, Encodable, ReadOne, EncodeAll, Size;
    if rs == [] {
      EncodeNone();
    } else {
      var rest := EncodeAll(rs[1..]) + tail;
      EncodeHead(rs);
      FrameSize(rs[0]);
      assert EncodeAll(rs) + tail == Frame(rs[0]) + rest;
      ReadFrame(rs[0], rest);
    }
  }

  /** A file of frames and a torn tail parses in exactly one way. */
  lemma {:induction false} UniqueParse(a: seq<Record>, b: seq<Record>, s: seq<byte>, t: seq<byte>)
    requires AllEncodable(a) && AllEncodable(b)
    requires ReadOne(s) == End && ReadOne(t) == End
    requires EncodeAll(a) + s == EncodeAll(b) + t
    ensures a == b && s == t
  {
    hide Frame, Encodable, ReadOne, EncodeAll;
    ParseHead(a, s);
    ParseHead(b, t);
    if a == [] || b == [] {
    } else {
      assert a[0] == b[0];
      UniqueParse(a[1..], b[1..], s, t);
      assert a == [a[0]] + a[1..] && b == [b[0]] + b[1..];
    }
  }

  /** How many records lie wholly within the first `cut` bytes. */
  function Whole(rs: seq<Record>, cut: nat): (n: nat)
    ensures n <= |rs|
  {
    if rs == [] || Total(rs) <= cut then |rs| else Whole(rs[..|rs| - 1], cut)
  }

  lemma {:induction false} WholeBounds(rs: seq<Record>, cut: nat)
    ensures Start(rs, Whole(rs, cut)) <= cut
    ensures Whole(rs, cut) < |rs| ==> cut < Start(rs, Whole(rs, cut) + 1)
    ensures forall i :: 0 <= i <= |rs| && Start(rs, i) <= cut ==> i <= Whole(rs, cut)
  {
    if rs == [] {
    } else if Total(rs) <= cut {
      assert rs[..|rs|] == rs;
    } else {
      var front := rs[..|rs| - 1];
      WholeBounds(front, cut);
      assert rs[..|rs|] == rs;
      assert forall i | 0 <= i < |rs| :: front[..i] == rs[..i];
      forall i | 0 <= i <= |rs| && Start(rs, i) <= cut
        ensures i <= Whole(rs, cut)
      {
        assert i < |rs|;
        assert Start(front, i) == Start(rs, i);
      }
    }
  }

  lemma TornTail(rs: seq<Record>, n: nat, cut: nat)
    requires AllEncodable(rs) && n < |rs| && Start(rs, n) <= cut < Start(rs, n + 1)
    ensures cut <= |EncodeAll(rs)|
    ensures ReadOne(EncodeAll(rs)[Start(rs, n)..cut]) == End
  {
    hide Frame, Encodable, Total, ReadOne, EncodeAll;
    EncodeFrom(rs, n);
    StartGap(rs, n, n + 1);
    StartGap(rs, n + 1, |rs|);
    assert rs[..|rs|] == rs;
    EncodeHead(rs[n..]);
    FrameSize(rs[n]);
    var start, torn := Start(rs, n), cut - Start(rs, n);
    assert EncodeAll(rs)[start..cut] == EncodeAll(rs)[start..][..torn] == Frame(rs[n])[..torn];
    ReadTorn(rs[n], torn);
  }

  /** Cutting a file anywhere leaves whole frames and a torn tail. */
  lemma CutFile(rs: seq<Record>, cut: nat)
    requires AllEncodable(rs) && cut <= Total(rs)
    ensures |EncodeAll(rs)| == Total(rs)
    ensures var n := Whole(rs, cut);
            && Start(rs, n) <= cut
            && EncodeAll(rs)[..cut] == EncodeAll(rs[..n]) + EncodeAll(rs)[Start(rs, n)..cut]
            && ReadOne(EncodeAll(rs)[Start(rs, n)..cut]) == End
  {
    hide Frame, Encodable, Total, Whole, EncodeAll;
    EncodeAllLength(rs);
    var n := Whole(rs, cut);
    WholeBounds(rs, cut);
    EncodeFrom(rs, n);
    var f := EncodeAll(rs);
    assert f[..cut] == f[..Start(rs, n)] + f[Start(rs, n)..cut];
    if n < |rs| {
      TornTail(rs, n, cut);
    } else {
      assert rs[..n] == rs;
      assert f[Start(rs, n)..cut] == [];
    }
  }
}
