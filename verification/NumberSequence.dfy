/** The test pattern written by dada_numdb and checked by dada_dbnum: 64-bit big-endian numbers that
    skip one interleave every interleave. */
module NumberSequence {
  import opened Common

  const U64: nat := Pow256(8)

  /** The counter after one number; without an interleave it only counts. */
  function Step(index: nat, skip: nat): nat {
    var i := (index + 1) % U64;
    if skip > 0 && i % skip == 0 then (i + skip) % U64 else i
  }

  function Iterate(index: nat, skip: nat, n: nat): nat
    decreases n
  {
    if n == 0 then index else Iterate(Step(index, skip), skip, n - 1)
  }

  function Reversed<T>(s: seq<T>): (r: seq<T>)
    ensures |r| == |s| && forall i :: 0 <= i < |s| ==> r[i] == s[|s| - 1 - i]
  {
    seq(|s|, i requires 0 <= i < |s| => s[|s| - 1 - i])
  }

  function Encoded(v: nat): seq<byte> { Reversed(ToLe(v, 8)) }

  function DecodedValue(s: seq<byte>): nat { FromLe(Reversed(s)) }

  /** The bytes of a 64-bit number, the most significant one first. */
  predicate BigEndian(s: seq<byte>, v: nat) {
    && |s| == 8
    && s[0] == v / 0x100_0000_0000_0000 % 256 && s[1] == v / 0x1_0000_0000_0000 % 256
    && s[2] == v / 0x100_0000_0000 % 256 && s[3] == v / 0x1_0000_0000 % 256
    && s[4] == v / 0x100_0000 % 256 && s[5] == v / 0x1_0000 % 256
    && s[6] == v / 0x100 % 256 && s[7] == v % 256
  }

  /** The code is big-endian. */
  lemma EncodedBigEndian(v: nat)
    ensures BigEndian(Encoded(v), v)
  {
    Pow256Values();
    forall i | 0 <= i < 8 ensures Encoded(v)[i] == v / Pow256(7 - i) % 256 {
      LeDigit(v, 8, 7 - i);
    }
  }

  /** The number in eight bytes, the most significant one first. */
  function BigEndianValue(s: seq<int>): int
    requires |s| == 8
  {
    s[0] * 0x100_0000_0000_0000 + s[1] * 0x1_0000_0000_0000 + s[2] * 0x100_0000_0000 + s[3] * 0x1_0000_0000
    + s[4] * 0x100_0000 + s[5] * 0x1_0000 + s[6] * 0x100 + s[7]
  }

  function Four(s: seq<int>): int
    requires |s| == 4
  {
    s[0] + 0x100 * s[1] + 0x1_0000 * s[2] + 0x100_0000 * s[3]
  }

  lemma DecodedBigEndian(s: seq<byte>)
    requires |s| == 8
    ensures DecodedValue(s) == BigEndianValue(s)
  {
    var r := Reversed(s);
    FourFromLe(r[..4], r[4..]);
    assert r == r[..4] + r[4..];
  }

  lemma FourFromLe(a: seq<byte>, b: seq<byte>)
    requires |a| == 4 && |b| == 4
    ensures FromLe(b) == Four(b) && FromLe(a + b) == Four(a) + 0x1_0000_0000 * FromLe(b)
  {
    FromLeAt(b, 0); FromLeAt(b, 1); FromLeAt(b, 2); FromLeAt(b, 3);
    assert b[0..] == b && b[4..] == [];
    var s := a + b;
    FromLeAt(s, 0); FromLeAt(s, 1); FromLeAt(s, 2); FromLeAt(s, 3);
    assert s[0..] == s && s[4..] == b;
  }

  lemma CodeRoundTrip(v: nat)
    requires v < U64
    ensures DecodedValue(Encoded(v)) == v
  {
    LeRoundTrip(v, 8);
    assert Reversed(Encoded(v)) == ToLe(v, 8);
  }

  /** `n` numbers from `index` on, as bytes. */
  function Pattern(index: nat, skip: nat, n: nat): seq<byte>
    decreases n
  {
    if n == 0 then [] else Encoded(index) + Pattern(Step(index, skip), skip, n - 1)
  }

  lemma {:induction false} PatternLength(index: nat, skip: nat, n: nat)
    ensures |Pattern(index, skip, n)| == 8 * n
    decreases n
  {
    if n > 0 { PatternLength(Step(index, skip), skip, n - 1); }
  }

  lemma {:induction false} PatternSplit(index: nat, skip: nat, a: nat, b: nat)
    ensures Pattern(index, skip, a + b) == Pattern(index, skip, a) + Pattern(Iterate(index, skip, a), skip, b)
    ensures Iterate(index, skip, a + b) == Iterate(Iterate(index, skip, a), skip, b)
    decreases a
  {
    if a > 0 {
      var next := Step(index, skip);
      PatternSplit(next, skip, a - 1, b);
      assert Pattern(index, skip, a + b) == Encoded(index) + Pattern(next, skip, a - 1 + b);
      assert Pattern(index, skip, a) == Encoded(index) + Pattern(next, skip, a - 1);
    }
  }

  class NumDb {
    var index: nat
    const skip: nat

    constructor (start: nat, skip: nat)
      ensures index == start && this.skip == skip
    {
      index, this.skip := start, skip;
    }

    /** dada_numdb_io: fills whole numbers; a remainder of the buffer is left as it is. */
    method Write(data: array<byte>)
      requires skip > 0
      modifies this`index, data
      ensures index == Iterate(old(index), skip, data.Length / 8)
      ensures data[..] == Pattern(old(index), skip, data.Length / 8) + old(data[..])[data.Length / 8 * 8..]
    {
      var i, count := 0, data.Length / 8;
      assert old(data[..])[0..] == old(data[..]);
      while i < count
        invariant i <= count && index == Iterate(old(index), skip, i)
        invariant data[..] == Pattern(old(index), skip, i) + old(data[..])[8 * i..]
      {
        PatternMore(old(index), skip, i, data[..], old(data[..]));
        EncodeAt(data, 8 * i, index);
        Advance();
        i := i + 1;
      }
    }

    method Advance()
      requires skip > 0
      modifies this`index
      ensures index == Step(old(index), skip)
    {
      index := (index + 1) % U64;
      if index % skip == 0 { index := (index + skip) % U64; }
    }
  }

  /** The byte loop: the number's bytes, most significant first, at `at`. */
  method EncodeAt(data: array<byte>, at: nat, v: nat)
    requires at + 8 <= data.Length
    modifies data
    ensures data[..] == old(data[..at]) + Encoded(v) + old(data[at + 8..])
  {
    var j, rest := 0, v;
    while j < 8
      invariant j <= 8 && ToLe(v, 8)[j..] == ToLe(rest, 8 - j)
      invariant forall k :: 0 <= k < data.Length && !(at + 8 - j <= k < at + 8) ==> data[k] == old(data[k])
      invariant forall k :: at + 8 - j <= k < at + 8 ==> data[k] == Encoded(v)[k - at]
    {
      assert Encoded(v)[7 - j] == ToLe(v, 8)[j..][0];
      assert ToLe(v, 8)[j + 1..] == ToLe(v, 8)[j..][1..];
      data[at + (8 - j - 1)] := rest % 256;
      rest, j := rest / 256, j + 1;
    }
  }

  /** Writing the next number behind `i` numbers makes `i + 1`. */
  lemma PatternMore(start: nat, skip: nat, i: nat, now: seq<byte>, was: seq<byte>)
    requires skip > 0 && 8 * i + 8 <= |was| && now == Pattern(start, skip, i) + was[8 * i..]
    ensures var v := Iterate(start, skip, i);
      && Iterate(start, skip, i + 1) == Step(v, skip)
      && |now| == |was|
      && now[..8 * i] + Encoded(v) + now[8 * i + 8..] == Pattern(start, skip, i + 1) + was[8 * (i + 1)..]
  {
    var v := Iterate(start, skip, i);
    PatternLength(start, skip, i);
    PatternSplit(start, skip, i, 1);
    assert Pattern(v, skip, 1) == Encoded(v) + Pattern(Step(v, skip), skip, 0) == Encoded(v);
    assert Iterate(v, skip, 1) == Iterate(Step(v, skip), skip, 0) == Step(v, skip);
    assert now[..8 * i] == Pattern(start, skip, i) && now[8 * i + 8..] == was[8 * i + 8..];
  }

  /** The checker's verdict on some data: the next number expected, or none. */
  function Checked(index: nat, skip: nat, data: seq<byte>): Option<nat>
    decreases |data|
  {
    if |data| < 8 then Some(index)
    else if DecodedValue(data[..8]) != index then None
    else Checked(Step(index, skip), skip, data[8..])
  }

  lemma CheckStep(index: nat, skip: nat, data: seq<byte>, at: nat)
    requires at + 8 <= |data|
    ensures Checked(index, skip, data[at..]) ==
            if DecodedValue(data[at..at + 8]) != index then None else Checked(Step(index, skip), skip, data[at + 8..])
  {
    assert data[at..][..8] == data[at..at + 8] && data[at..][8..] == data[at + 8..];
  }

  class DbNum {
    var index: nat
    const skip: nat

    constructor (start: nat, skip: nat)
      ensures index == start && this.skip == skip
    {
      index, this.skip := start, skip;
    }

    /** dada_dbnum_io; a mismatch ends the program. */
    method Check(data: seq<byte>) returns (ok: bool)
      modifies this`index
      ensures ok == Checked(old(index), skip, data).Some?
      ensures ok ==> index == Checked(old(index), skip, data).value
    {
      var i, count := 0, |data| / 8;
      assert data[0..] == data;
      while i < count
        invariant i <= count
        invariant Checked(old(index), skip, data) == Checked(index, skip, data[8 * i..])
      {
        CheckStep(index, skip, data, 8 * i);
        var number := DecodeAt(data, 8 * i);
        if number != index {
          return false;
        }
        index := (index + 1) % U64;
        if skip > 0 && index % skip == 0 { index := (index + skip) % U64; }
        i := i + 1;
      }
      ok := true;
    }
  }

  /** The byte loop: each byte, from the last one, with its weight. */
  method DecodeAt(data: seq<byte>, at: nat) returns (number: nat)
    requires at + 8 <= |data|
    ensures number == DecodedValue(data[at..at + 8])
  {
    number := 0;
    var j, weight: nat := 0, 1;
    DecodeStart(data, at);
    while j < 8
      invariant j <= 8 && PartialValue(data, at, j, number, weight)
    {
      DecodeStep(data, at, j, number, weight);
      number := number + weight * data[at + (8 - j - 1)];
      weight, j := weight * 256, j + 1;
    }
    DecodeEnd(data, at, number, weight);
  }

  lemma FromLeAt(r: seq<byte>, j: nat)
    requires j < |r|
    ensures FromLe(r[j..]) == r[j] + 256 * FromLe(r[j + 1..])
  {
    assert r[j..][1..] == r[j + 1..];
  }

  /** `number` and what the bytes from the `j`th last one on add to it. */
  ghost predicate PartialValue(data: seq<byte>, at: nat, j: nat, number: nat, weight: nat)
    requires at + 8 <= |data| && j <= 8
  {
    number + weight * FromLe(Reversed(data[at..at + 8])[j..]) == DecodedValue(data[at..at + 8])
  }

  lemma DecodeStart(data: seq<byte>, at: nat)
    requires at + 8 <= |data|
    ensures PartialValue(data, at, 0, 0, 1)
  {
    var r := Reversed(data[at..at + 8]);
    assert r[0..] == r;
  }

  lemma DecodeStep(data: seq<byte>, at: nat, j: nat, number: nat, weight: nat)
    requires at + 8 <= |data| && j < 8 && PartialValue(data, at, j, number, weight)
    ensures PartialValue(data, at, j + 1, number + weight * data[at + (8 - j - 1)], weight * 256)
  {
    var r := Reversed(data[at..at + 8]);
    assert r[j] == data[at + (8 - j - 1)];
    FromLeAt(r, j);
    Weights(weight, r[j], FromLe(r[j + 1..]));
  }

  lemma DecodeEnd(data: seq<byte>, at: nat, number: nat, weight: nat)
    requires at + 8 <= |data| && PartialValue(data, at, 8, number, weight)
    ensures number == DecodedValue(data[at..at + 8])
  {
    assert Reversed(data[at..at + 8])[8..] == [];
  }

  lemma Weights(weight: nat, b: nat, rest: nat)
    ensures weight * (b + 256 * rest) == weight * b + weight * 256 * rest
  {
  }

  lemma {:induction false} IterateBelow(index: nat, skip: nat, n: nat)
    requires index < U64
    ensures Iterate(index, skip, n) < U64
    decreases n
  {
    if n > 0 { IterateBelow(Step(index, skip), skip, n - 1); }
  }

  lemma {:induction false} CheckAccepts(index: nat, skip: nat, n: nat)
    requires skip > 0 && index < U64
    ensures Checked(index, skip, Pattern(index, skip, n)) == Some(Iterate(index, skip, n))
    decreases n
  {
    if n > 0 {
      CodeRoundTrip(index);
      CheckAccepts(Step(index, skip), skip, n - 1);
      var p := Pattern(index, skip, n);
      assert p[..8] == Encoded(index) && p[8..] == Pattern(Step(index, skip), skip, n - 1);
    }
  }

  /** Number `i` of a pattern, in bytes. */
  lemma {:induction false} PatternNumber(index: nat, skip: nat, n: nat, i: nat)
    requires i < n
    ensures |Pattern(index, skip, n)| == 8 * n
    ensures BigEndian(Pattern(index, skip, n)[8 * i..8 * i + 8], Iterate(index, skip, i))
  {
    PatternLength(index, skip, n);
    PatternLength(index, skip, i);
    PatternSplit(index, skip, i, n - i);
    var v := Iterate(index, skip, i);
    EncodedBigEndian(v);
    assert Pattern(index, skip, n)[8 * i..8 * i + 8] == Pattern(v, skip, n - i)[..8] == Encoded(v);
  }

  lemma EncodedUnique(s: seq<byte>, v: nat)
    requires |s| == 8 && v < U64
    ensures DecodedValue(s) == v <==> s == Encoded(v)
  {
    CodeRoundTrip(v);
    FromLeBelow(Reversed(s));
    assert Reversed(Reversed(s)) == s;
  }

  /** The checker accepts the pattern and nothing else, for any start and with or without an interleave;
      bytes behind the last whole number are not looked at. */
  lemma {:induction false} CheckExact(index: nat, skip: nat, data: seq<byte>)
    requires index < U64
    ensures var n := |data| / 8;
      Checked(index, skip, data)
      == if data[..8 * n] == Pattern(index, skip, n) then Some(Iterate(index, skip, n)) else None
    decreases |data|
  {
    if |data| >= 8 {
      var n, head, rest := |data| / 8, data[..8], data[8..];
      EncodedUnique(head, index);
      CheckExact(Step(index, skip), skip, rest);
      assert |rest| / 8 == n - 1;
      assert data[..8 * n] == head + rest[..8 * (n - 1)];
      PatternHead(index, skip, n, head, rest[..8 * (n - 1)]);
    }
  }

  lemma PatternHead(index: nat, skip: nat, n: nat, head: seq<byte>, rest: seq<byte>)
    requires n > 0 && |head| == 8
    ensures head + rest == Pattern(index, skip, n) <==>
            head == Encoded(index) && rest == Pattern(Step(index, skip), skip, n - 1)
  {
    Apart(head, rest);
    Apart(Encoded(index), Pattern(Step(index, skip), skip, n - 1));
  }

  /** A buffer of each size, in turn. */
  function Buffers(index: nat, skip: nat, counts: seq<nat>): seq<byte>
    requires skip > 0
    decreases |counts|
  {
    if counts == [] then [] else
    Pattern(index, skip, counts[0]) + Buffers(Iterate(index, skip, counts[0]), skip, counts[1..])
  }

  function Total(counts: seq<nat>): nat { if counts == [] then 0 else counts[0] + Total(counts[1..]) }

  lemma {:induction false} BuffersArePattern(index: nat, skip: nat, counts: seq<nat>)
    requires skip > 0
    ensures Buffers(index, skip, counts) == Pattern(index, skip, Total(counts))
    decreases |counts|
  {
    if counts != [] {
      BuffersArePattern(Iterate(index, skip, counts[0]), skip, counts[1..]);
      PatternSplit(index, skip, counts[0], Total(counts[1..]));
    }
  }

  /** Checking a stream read in pieces of the given numbers of values. */
  function CheckedPieces(index: nat, skip: nat, data: seq<byte>, counts: seq<nat>): Option<nat>
    decreases |counts|
  {
    if counts == [] then Some(index)
    else if 8 * counts[0] > |data| then None
    else match Checked(index, skip, data[..8 * counts[0]])
      case None => None
      case Some(next) => CheckedPieces(next, skip, data[8 * counts[0]..], counts[1..])
  }

  /** The first `n` numbers of a pattern and the rest. */
  lemma PatternPieces(index: nat, skip: nat, n: nat, rest: nat)
    requires skip > 0
    ensures var p := Pattern(index, skip, n + rest);
      && 8 * n <= |p| && p[..8 * n] == Pattern(index, skip, n)
      && p[8 * n..] == Pattern(Iterate(index, skip, n), skip, rest)
  {
    PatternSplit(index, skip, n, rest);
    PatternLength(index, skip, n);
    Apart(Pattern(index, skip, n), Pattern(Iterate(index, skip, n), skip, rest));
  }

  lemma {:induction false} PiecesAccept(index: nat, skip: nat, counts: seq<nat>)
    requires skip > 0 && index < U64
    ensures CheckedPieces(index, skip, Pattern(index, skip, Total(counts)), counts)
            == Some(Iterate(index, skip, Total(counts)))
    decreases |counts|
  {
    if counts != [] {
      var n, rest := counts[0], Total(counts[1..]);
      PatternPieces(index, skip, n, rest);
      PatternSplit(index, skip, n, rest);
      CheckAccepts(index, skip, n);
      IterateBelow(index, skip, n);
      PiecesAccept(Iterate(index, skip, n), skip, counts[1..]);
    }
  }

  /** However the writer and the checker cut the stream into whole numbers, everything is accepted. */
  lemma WriterCheckerAgree(start: nat, skip: nat, written: seq<nat>, read: seq<nat>)
    requires skip > 0 && start < U64 && Total(written) == Total(read)
    ensures CheckedPieces(start, skip, Buffers(start, skip, written), read)
            == Some(Iterate(start, skip, Total(written)))
  {
    BuffersArePattern(start, skip, written);
    PiecesAccept(start, skip, read);
  }

  /** A value on the grid ends an interleave exactly when its ordinal does. */
  lemma GridNext(s: nat, skip: nat, n: nat, v: nat)
    requires skip > 0 && s % (2 * skip) == 0 && v == s + n + skip * (n / skip)
    ensures s + (n + 1) + skip * ((n + 1) / skip) == v + 1 + (if (v + 1) % skip == 0 then skip else 0)
  {
    var q, r, k := n / skip, n % skip, s / (2 * skip);
    assert s == (2 * skip) * k == skip * (2 * k);
    assert n == skip * q + r;
    var m := 2 * k + q + q;
    assert skip * m == skip * (2 * k) + skip * q + skip * q;
    assert v == skip * m + r;
    if r + 1 == skip {
      assert skip * (m + 1) == skip * m + skip && skip * (q + 1) == skip * q + skip;
      ModUnique(v + 1, skip, m + 1, 0);
      ModUnique(n + 1, skip, q + 1, 0);
    } else {
      ModUnique(v + 1, skip, m, r + 1);
      ModUnique(n + 1, skip, q, r + 1);
    }
  }

  lemma StepBelow(v: nat, skip: nat)
    requires skip > 0 && v + 1 + skip < U64
    ensures Step(v, skip) == v + 1 + (if (v + 1) % skip == 0 then skip else 0)
  {
    ModUnique(v + 1, U64, 0, v + 1);
    ModUnique(v + 1 + skip, U64, 0, v + 1 + skip);
  }

  lemma IterateSnoc(index: nat, skip: nat, n: nat)
    requires skip > 0
    ensures Iterate(index, skip, n + 1) == Step(Iterate(index, skip, n), skip)
  {
    PatternSplit(index, skip, n, 1);
    var v := Iterate(index, skip, n);
    assert Iterate(v, skip, 1) == Iterate(Step(v, skip), skip, 0);
  }

  /** From a start that is a multiple of twice the interleave, below the 64-bit limit, the n-th
      number is `start + n + skip * (n / skip)`. */
  lemma {:induction false} NthNumber(s: nat, skip: nat, n: nat)
    requires skip > 0 && s % (2 * skip) == 0 && s + n + skip * (n / skip) + skip + 1 < U64
    ensures Iterate(s, skip, n) == s + n + skip * (n / skip)
  {
    if n == 0 {
      ModUnique(0, skip, 0, 0);
    } else {
      Shorter(skip, n);
      NthNumber(s, skip, n - 1);
      IterateSnoc(s, skip, n - 1);
      GridNext(s, skip, n - 1, Iterate(s, skip, n - 1));
      StepBelow(Iterate(s, skip, n - 1), skip);
    }
  }

  lemma Shorter(skip: nat, n: nat)
    requires skip > 0 && n > 0
    ensures skip * ((n - 1) / skip) <= skip * (n / skip)
  {
    var d := n / skip - (n - 1) / skip;
    assert skip * d == skip * (n / skip) - skip * ((n - 1) / skip);
    assert skip * d == 1 + (n - 1) % skip - n % skip;
    MulBound(skip, d);
  }
}
