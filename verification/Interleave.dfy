/** dada_dbmergedb: two polarisations, each a stream of blocks, are merged chunk by chunk. */
module Interleave {
  import opened Common

  /** `n` chunks of each stream, alternately. */
  function Alternate(a: seq<byte>, b: seq<byte>, chunk: nat, n: nat): seq<byte>
    decreases n
  {
    if n == 0 || |a| < chunk || |b| < chunk then []
    else a[..chunk] + b[..chunk] + Alternate(a[chunk..], b[chunk..], chunk, n - 1)
  }

  /** The chunks of one polarisation taken back out of a merged stream. */
  function Pick(m: seq<byte>, chunk: nat, second: bool): seq<byte>
    requires chunk > 0
    decreases |m|
  {
    if |m| < 2 * chunk then []
    else (if second then m[chunk..2 * chunk] else m[..chunk]) + Pick(m[2 * chunk..], chunk, second)
  }

  /** Bytes in `n` chunks. */
  function Bytes(n: nat, chunk: nat): nat { if n == 0 then 0 else Bytes(n - 1, chunk) + chunk }

  lemma {:induction false} BytesIs(n: nat, chunk: nat)
    ensures Bytes(n, chunk) == n * chunk
  {
    if n > 0 {
      BytesIs(n - 1, chunk);
      assert n * chunk == (n - 1) * chunk + chunk;
    }
  }

  /** `n` is a multiple of `chunk`. */
  predicate Multiple(n: nat, chunk: nat)
    requires chunk > 0
  {
    n == 0 || (n >= chunk && Multiple(n - chunk, chunk))
  }

  lemma {:induction false} MultipleIs(n: nat, chunk: nat)
    requires chunk > 0
    ensures Multiple(n, chunk) <==> n % chunk == 0
  {
    if n < chunk {
      ModUnique(n, chunk, 0, n);
    } else {
      MultipleIs(n - chunk, chunk);
      SlotLap(n - chunk, chunk);
    }
  }

  lemma {:induction false} BytesAdd(m: nat, n: nat, chunk: nat)
    ensures Bytes(m + n, chunk) == Bytes(m, chunk) + Bytes(n, chunk)
  {
    if n > 0 { BytesAdd(m, n - 1, chunk); }
  }

  lemma DropTwice(s: seq<byte>, m: nat, n: nat)
    requires m + n <= |s|
    ensures s[m..][n..] == s[m + n..] && s[..m] + s[m..][..n] == s[..m + n]
  {
  }

  /** De-interleaving returns equal-length prefixes, of `p` bytes, of both streams. */
  lemma {:induction false} PickAlternate(a: seq<byte>, b: seq<byte>, chunk: nat, n: nat, p: nat)
    requires chunk > 0 && p == Bytes(n, chunk) && p <= |a| && p <= |b|
    ensures Pick(Alternate(a, b, chunk, n), chunk, false) == a[..p]
    ensures Pick(Alternate(a, b, chunk, n), chunk, true) == b[..p]
    decreases n
  {
    if n > 0 {
      PickAlternate(a[chunk..], b[chunk..], chunk, n - 1, p - chunk);
      Fields(a[..chunk], b[..chunk], Alternate(a[chunk..], b[chunk..], chunk, n - 1));
      DropTwice(a, chunk, p - chunk);
      DropTwice(b, chunk, p - chunk);
    }
  }

  lemma PairAt(x: seq<byte>, y: seq<byte>, rest: seq<byte>, j: nat, i: nat)
    requires |x| == |y|
    ensures var m := x + y + rest;
      && |m| == 2 * |x| + |rest|
      && (j < |x| ==> m[j] == x[j] && m[|x| + j] == y[j]) && (i < |rest| ==> m[2 * |x| + i] == rest[i])
  {
  }

  /** Byte `j` of chunk `i` of each stream, whose chunk `i` is at `p`. */
  predicate PutAt(a: seq<byte>, b: seq<byte>, m: seq<byte>, chunk: nat, p: nat, j: nat) {
    && p + j < |a| && p + j < |b| && 2 * p + chunk + j < |m|
    && m[2 * p + j] == a[p + j] && m[2 * p + chunk + j] == b[p + j]
  }

  lemma PutLater(a: seq<byte>, b: seq<byte>, m: seq<byte>, chunk: nat, p: nat, j: nat)
    requires chunk <= |a| && chunk <= |b| && j < chunk && PutAt(a[chunk..], b[chunk..], m, chunk, p, j)
    ensures PutAt(a, b, a[..chunk] + b[..chunk] + m, chunk, p + chunk, j)
  {
    PairAt(a[..chunk], b[..chunk], m, 0, 2 * p + j);
    PairAt(a[..chunk], b[..chunk], m, 0, 2 * p + chunk + j);
  }

  /** The first pair of chunks. */
  lemma FirstPair(a: seq<byte>, b: seq<byte>, chunk: nat, n: nat, j: nat)
    requires n > 0 && chunk <= |a| && chunk <= |b| && j < chunk
    ensures PutAt(a, b, Alternate(a, b, chunk, n), chunk, 0, j)
  {
    PairAt(a[..chunk], b[..chunk], Alternate(a[chunk..], b[chunk..], chunk, n - 1), j, 0);
  }

  lemma LaterPair(a: seq<byte>, b: seq<byte>, chunk: nat, n: nat, p: nat, j: nat)
    requires n > 0 && chunk <= |a| && chunk <= |b| && j < chunk
    requires PutAt(a[chunk..], b[chunk..], Alternate(a[chunk..], b[chunk..], chunk, n - 1), chunk, p, j)
    ensures PutAt(a, b, Alternate(a, b, chunk, n), chunk, p + chunk, j)
  {
    PutLater(a, b, Alternate(a[chunk..], b[chunk..], chunk, n - 1), chunk, p, j);
  }

  /** Where each byte goes: chunk `i` of the first polarisation, then chunk `i` of the second. */
  lemma {:induction false} AlternateAt(a: seq<byte>, b: seq<byte>, chunk: nat, n: nat, i: nat, j: nat)
    requires Bytes(n, chunk) <= |a| && Bytes(n, chunk) <= |b| && i < n && j < chunk
    ensures PutAt(a, b, Alternate(a, b, chunk, n), chunk, Bytes(i, chunk), j)
    decreases n
  {
    RoomForPair(0, n, chunk);
    if i > 0 {
      AlternateAt(a[chunk..], b[chunk..], chunk, n - 1, i - 1, j);
      LaterPair(a, b, chunk, n, Bytes(i - 1, chunk), j);
    } else {
      FirstPair(a, b, chunk, n, j);
    }
  }

  lemma {:induction false} AlternateLength(a: seq<byte>, b: seq<byte>, chunk: nat, n: nat)
    requires Bytes(n, chunk) <= |a| && Bytes(n, chunk) <= |b|
    ensures |Alternate(a, b, chunk, n)| == 2 * Bytes(n, chunk)
    decreases n
  {
    if n > 0 { AlternateLength(a[chunk..], b[chunk..], chunk, n - 1); }
  }

  /** Merging in two steps is merging in one; the first step takes `p` bytes of each stream. */
  lemma {:induction false} AlternateSplit(a: seq<byte>, b: seq<byte>, chunk: nat, m: nat, n: nat, p: nat)
    requires p == Bytes(m, chunk) && p <= |a| && p <= |b|
    ensures Alternate(a, b, chunk, m + n) == Alternate(a, b, chunk, m) + Alternate(a[p..], b[p..], chunk, n)
    decreases m
  {
    if m > 0 {
      var a', b', q := a[chunk..], b[chunk..], p - chunk;
      AlternateSplit(a', b', chunk, m - 1, n, q);
      SplitStep(a, b, chunk, m, n, q);
    } else {
      SplitNone(a, b, chunk, n);
    }
  }

  lemma SplitNone(a: seq<byte>, b: seq<byte>, chunk: nat, n: nat)
    ensures Alternate(a, b, chunk, n) == Alternate(a, b, chunk, 0) + Alternate(a[0..], b[0..], chunk, n)
  {
    assert a[0..] == a && b[0..] == b && Alternate(a, b, chunk, 0) == [];
  }

  lemma SplitStep(a: seq<byte>, b: seq<byte>, chunk: nat, m: nat, n: nat, q: nat)
    requires m > 0 && chunk + q <= |a| && chunk + q <= |b|
    requires var a', b' := a[chunk..], b[chunk..];
      Alternate(a', b', chunk, m - 1 + n) == Alternate(a', b', chunk, m - 1) + Alternate(a'[q..], b'[q..], chunk, n)
    ensures Alternate(a, b, chunk, m + n) == Alternate(a, b, chunk, m) + Alternate(a[chunk + q..], b[chunk + q..], chunk, n)
  {
    var a', b' := a[chunk..], b[chunk..];
    DropTwice(a, chunk, q);
    DropTwice(b, chunk, q);
    Assoc(a[..chunk] + b[..chunk], Alternate(a', b', chunk, m - 1), Alternate(a'[q..], b'[q..], chunk, n));
  }

  // ---------------------------------------------------------------- input blocks

  /** Bytes of the full blocks before the first short one: what can be merged. */
  function FullBytes(blocks: seq<seq<byte>>, bufsz: nat): seq<byte> {
    if blocks == [] || |blocks[0]| != bufsz then [] else blocks[0] + FullBytes(blocks[1..], bufsz)
  }

  /** Index of the first block that is not full, or the number of blocks. */
  function FirstShort(blocks: seq<seq<byte>>, bufsz: nat): (k: nat)
    ensures k <= |blocks| && (k < |blocks| ==> |blocks[k]| != bufsz)
    ensures forall i :: 0 <= i < k ==> |blocks[i]| == bufsz
  {
    if blocks == [] || |blocks[0]| != bufsz then 0 else 1 + FirstShort(blocks[1..], bufsz)
  }

  /** What can be merged is every full block before the first short one, the last block included. */
  lemma {:induction false} FullBytesAre(blocks: seq<seq<byte>>, bufsz: nat)
    ensures FullBytes(blocks, bufsz) == Flatten(blocks[..FirstShort(blocks, bufsz)])
  {
    var k := FirstShort(blocks, bufsz);
    if k > 0 {
      FullBytesAre(blocks[1..], bufsz);
      assert blocks[..k][1..] == blocks[1..][..k - 1];
    }
  }

  ghost predicate AllFull(blocks: seq<seq<byte>>, bufsz: nat) {
    forall i :: 0 <= i < |blocks| ==> |blocks[i]| == bufsz
  }

  lemma AllMerged(blocks: seq<seq<byte>>, bufsz: nat)
    requires AllFull(blocks, bufsz)
    ensures FullBytes(blocks, bufsz) == Flatten(blocks)
  {
    FullBytesAre(blocks, bufsz);
    assert blocks[..|blocks|] == blocks;
  }

  class Polarisation {
    const bufsz: nat
    var blocks: seq<seq<byte>>       // blocks not yet opened; end of data when there are none
    var open: bool
    var buf: seq<byte>
    var bytes: nat                   // read position in an open block

    constructor (bufsz: nat, blocks: seq<seq<byte>>)
      ensures this.bufsz == bufsz && this.blocks == blocks && !open
    {
      this.bufsz, this.blocks, open, buf, bytes := bufsz, blocks, false, [], 0;
    }

    /** On a chunk boundary of an open, full block that has data left. */
    ghost predicate Aligned(chunk: nat)
      reads this
    {
      && 0 < chunk <= bufsz && Multiple(bufsz, chunk)
      && (open ==> |buf| == bufsz && bytes < bufsz && Multiple(bytes, chunk))
    }

    function Left(): seq<byte>
      reads this
      requires open ==> bytes <= |buf|
    {
      (if open then buf[bytes..] else []) + FullBytes(blocks, bufsz)
    }

    /** Open the next block if none is open; false at the end of data or at a short block. */
    method NextBlock(chunk: nat) returns (ok: bool)
      requires Aligned(chunk)
      modifies this
      ensures ok <==> old(Left()) != []
      ensures ok <==> old(open) || (old(blocks) != [] && |old(blocks)[0]| == bufsz)
      ensures ok && !old(open) ==> [buf] + blocks == old(blocks) && bytes == 0
      ensures ok ==> Aligned(chunk) && open && Left() == old(Left())
    {
      if !open {
        if blocks == [] {
          return false;
        }
        buf, blocks := blocks[0], blocks[1..];
        open, bytes := true, |buf|;
        if bytes != bufsz {
          return false;
        }
        bytes := 0;
        assert buf[0..] == buf;
        assert [buf] + blocks == old(blocks);
      }
      ok := true;
    }

    method Drain()
      modifies this
      ensures !open && blocks == []
    {
      open, blocks := false, [];
    }

    /** Copy one chunk, and close the block when it is used up. */
    method TakeChunk(chunk: nat) returns (data: seq<byte>)
      requires Aligned(chunk) && open
      modifies this
      ensures Aligned(chunk) && |old(Left())| >= chunk
      ensures data == old(Left())[..chunk] && Left() == old(Left())[chunk..]
    {
      NextBoundary(bytes, bufsz, chunk);
      ghost var full := FullBytes(blocks, bufsz);
      assert buf[bytes..] == buf[bytes..bytes + chunk] + buf[bytes + chunk..];
      data := buf[bytes..bytes + chunk];
      bytes := bytes + chunk;
      if bytes >= bufsz { open := false; }
    }
  }

  lemma {:induction false} NextBoundary(p: nat, size: nat, chunk: nat)
    requires chunk > 0 && p < size && Multiple(p, chunk) && Multiple(size, chunk)
    ensures p + chunk <= size && Multiple(p + chunk, chunk)
  {
    if p > 0 { NextBoundary(p - chunk, size - chunk, chunk); }
  }

  /** `n` pairs of chunks, `p` bytes of each stream, are in `out`. */
  ghost predicate Merged(a: seq<byte>, b: seq<byte>, chunk: nat, n: nat, p: nat, out: seq<byte>) {
    p == Bytes(n, chunk) && p <= |a| && p <= |b| && out == Alternate(a, b, chunk, n)
  }

  /** The loop body: a chunk of each stream, the first polarisation first; at the end of either stream
      both are read to their end. */
  method TakePair(pola: Polarisation, polb: Polarisation, chunk: nat) returns (pair: seq<byte>, ok: bool)
    requires pola != polb && pola.Aligned(chunk) && polb.Aligned(chunk)
    modifies pola, polb
    ensures ok <==> old(pola.Left()) != [] && old(polb.Left()) != []
    ensures ok ==> pola.Aligned(chunk) && polb.Aligned(chunk)
    ensures ok ==> chunk <= |old(pola.Left())| && chunk <= |old(polb.Left())|
    ensures ok ==> pair == old(pola.Left())[..chunk] + old(polb.Left())[..chunk]
    ensures ok ==> pola.Left() == old(pola.Left())[chunk..] && polb.Left() == old(polb.Left())[chunk..]
    ensures !ok ==> pola.blocks == [] && polb.blocks == [] && !pola.open && !polb.open
  {
    var okA := pola.NextBlock(chunk);
    var okB := polb.NextBlock(chunk);
    ok := okA && okB;
    if !ok {
      pola.Drain();
      polb.Drain();
      return [], ok;
    }
    var x := pola.TakeChunk(chunk);
    var y := polb.TakeChunk(chunk);
    pair := x + y;
  }

  /** One more pair behind those in `out`. */
  method AddPair(pola: Polarisation, polb: Polarisation, chunk: nat, out: seq<byte>,
                 ghost a: seq<byte>, ghost b: seq<byte>, ghost i: nat, ghost p: nat)
    returns (longer: seq<byte>, ok: bool)
    requires pola != polb && Filling(pola, polb, chunk, a, b, i, p, out)
    modifies pola, polb
    ensures ok <==> p < |a| && p < |b|
    ensures ok ==> Filling(pola, polb, chunk, a, b, i + 1, p + chunk, longer)
    ensures !ok ==> pola.blocks == [] && polb.blocks == [] && !pola.open && !polb.open
  {
    var pair;
    pair, ok := TakePair(pola, polb, chunk);
    longer := out + pair;
    if ok { MergedChunk(a, b, chunk, i, p, out, pair); }
  }

  /** What is in `out`, and where the two inputs are. */
  ghost predicate Filling(pola: Polarisation, polb: Polarisation, chunk: nat, a: seq<byte>, b: seq<byte>, i: nat,
                          p: nat, out: seq<byte>)
    reads pola, polb
  {
    && Merged(a, b, chunk, i, p, out) && pola.Aligned(chunk) && polb.Aligned(chunk)
    && pola.Left() == a[p..] && polb.Left() == b[p..]
  }

  /** The loop over the chunks of an output block. */
  method FillBlock(pola: Polarisation, polb: Polarisation, chunk: nat, nchunk: nat,
                   ghost a: seq<byte>, ghost b: seq<byte>, ghost size: nat)
    returns (out: seq<byte>, ok: bool)
    requires size == Bytes(nchunk, chunk) && pola != polb && Filling(pola, polb, chunk, a, b, 0, 0, [])
    modifies pola, polb
    ensures ok <==> size <= |a| && size <= |b|
    ensures ok ==> Filling(pola, polb, chunk, a, b, nchunk, size, out)
    ensures !ok ==> out == [] && pola.blocks == [] && polb.blocks == [] && !pola.open && !polb.open
  {
    out, ok := [], true;
    var i := 0;
    ghost var p: nat := 0;
    while i < nchunk
      invariant i <= nchunk && ok && Filling(pola, polb, chunk, a, b, i, p, out)
    {
      RoomForPair(i, nchunk, chunk);
      var longer, more := AddPair(pola, polb, chunk, out, a, b, i, p);
      if !more {
        return [], false;
      }
      out, i, p := longer, i + 1, p + chunk;
    }
  }

  /** dbmergedb_write_block: fill an output block with `nchunk` pairs of chunks, `size` bytes of each
      stream, or report the end. */
  method WriteBlock(pola: Polarisation, polb: Polarisation, chunk: nat, nchunk: nat, ghost size: nat)
    returns (out: seq<byte>, ok: bool)
    requires size == Bytes(nchunk, chunk)
    requires pola != polb && pola.Aligned(chunk) && polb.Aligned(chunk)
    modifies pola, polb
    ensures ok <==> size <= |old(pola.Left())| && size <= |old(polb.Left())|
    ensures ok ==> pola.Aligned(chunk) && polb.Aligned(chunk)
    ensures ok ==> Merged(old(pola.Left()), old(polb.Left()), chunk, nchunk, size, out)
    ensures ok ==> pola.Left() == old(pola.Left())[size..] && polb.Left() == old(polb.Left())[size..]
    ensures !ok ==> out == [] && pola.blocks == [] && polb.blocks == [] && !pola.open && !polb.open
  {
    NothingMerged(pola.Left(), polb.Left(), chunk);
    out, ok := FillBlock(pola, polb, chunk, nchunk, pola.Left(), polb.Left(), size);
  }

  lemma RoomForPair(i: nat, n: nat, chunk: nat)
    requires i < n
    ensures Bytes(i, chunk) + chunk <= Bytes(n, chunk)
  {
    BytesAdd(i, 1, chunk);
    BytesAdd(i + 1, n - i - 1, chunk);
    assert Bytes(1, chunk) == Bytes(0, chunk) + chunk;
  }

  lemma OneChunk(p: seq<byte>, q: seq<byte>, chunk: nat)
    requires chunk <= |p| && chunk <= |q|
    ensures Alternate(p, q, chunk, 1) == p[..chunk] + q[..chunk]
  {
    assert Alternate(p[chunk..], q[chunk..], chunk, 0) == [];
  }

  lemma MergedBlock(a: seq<byte>, b: seq<byte>, chunk: nat, n: nat, p: nat, out: seq<byte>, nchunk: nat, q: nat,
                    block: seq<byte>)
    requires Merged(a, b, chunk, n, p, out) && Merged(a[p..], b[p..], chunk, nchunk, q, block)
    ensures Merged(a, b, chunk, n + nchunk, p + q, out + block)
    ensures a[p..][q..] == a[p + q..] && b[p..][q..] == b[p + q..]
  {
    DropTwice(a, p, q);
    DropTwice(b, p, q);
    BytesAdd(n, nchunk, chunk);
    AlternateSplit(a, b, chunk, n, nchunk, p);
  }

  lemma MergedChunk(a: seq<byte>, b: seq<byte>, chunk: nat, i: nat, p: nat, out: seq<byte>, pair: seq<byte>)
    requires Merged(a, b, chunk, i, p, out) && p + chunk <= |a| && p + chunk <= |b|
    requires pair == a[p..][..chunk] + b[p..][..chunk]
    ensures Merged(a, b, chunk, i + 1, p + chunk, out + pair)
    ensures a[p..][chunk..] == a[p + chunk..] && b[p..][chunk..] == b[p + chunk..]
  {
    OneChunk(a[p..], b[p..], chunk);
    MergedBlock(a, b, chunk, i, p, out, 1, chunk, pair);
  }

  lemma MergedRest(a: seq<byte>, b: seq<byte>, chunk: nat, n: nat, p: nat, out: seq<byte>, nchunk: nat, q: nat,
                   block: seq<byte>, l: seq<byte>, r: seq<byte>)
    requires Merged(a, b, chunk, n, p, out) && l == a[p..] && r == b[p..] && Merged(l, r, chunk, nchunk, q, block)
    ensures Merged(a, b, chunk, n + nchunk, p + q, out + block)
    ensures l[q..] == a[p + q..] && r[q..] == b[p + q..]
  {
    MergedBlock(a, b, chunk, n, p, out, nchunk, q, block);
  }

  lemma MoreBlocks(n: nat, nchunk: nat, chunk: nat)
    requires chunk > 0 && nchunk > 0
    ensures Bytes(n + nchunk, chunk) == Bytes(n, chunk) + Bytes(nchunk, chunk)
    ensures Bytes(nchunk, chunk) > 0
  {
    BytesAdd(n, nchunk, chunk);
  }

  lemma NothingMerged(a: seq<byte>, b: seq<byte>, chunk: nat)
    ensures Merged(a, b, chunk, 0, 0, []) && a[0..] == a && b[0..] == b
  {
  }

  /** One more output block behind those in `out`. */
  method AddBlock(pola: Polarisation, polb: Polarisation, chunk: nat, nchunk: nat, out: seq<byte>,
                  ghost a: seq<byte>, ghost b: seq<byte>, ghost n: nat, ghost p: nat, ghost q: nat)
    returns (longer: seq<byte>, ok: bool)
    requires pola != polb && q == Bytes(nchunk, chunk) && Filling(pola, polb, chunk, a, b, n, p, out)
    modifies pola, polb
    ensures ok <==> p + q <= |a| && p + q <= |b|
    ensures ok ==> Filling(pola, polb, chunk, a, b, n + nchunk, p + q, longer)
  {
    ghost var l, r := pola.Left(), polb.Left();
    var block;
    block, ok := WriteBlock(pola, polb, chunk, nchunk, q);
    longer := out + block;
    if ok { MergedRest(a, b, chunk, n, p, out, nchunk, q, block, l, r); }
  }

  /** Nothing read yet, and every block is full. */
  ghost predicate Untouched(pol: Polarisation)
    reads pol
  {
    !pol.open && AllFull(pol.blocks, pol.bufsz)
  }

  lemma UntouchedLeft(pol: Polarisation)
    requires Untouched(pol)
    ensures pol.Left() == Flatten(pol.blocks)
  {
    AllMerged(pol.blocks, pol.bufsz);
  }

  /** The calls that fill one output block after another. */
  method MergeBlocks(pola: Polarisation, polb: Polarisation, chunk: nat, nchunk: nat, ghost a: seq<byte>, ghost b: seq<byte>)
    returns (out: seq<byte>, blocks: nat, n: nat)
    requires pola != polb && nchunk > 0 && Filling(pola, polb, chunk, a, b, 0, 0, [])
    modifies pola, polb
    ensures n == Bytes(blocks, nchunk) && Merged(a, b, chunk, n, Bytes(n, chunk), out)
    ensures Bytes(n + nchunk, chunk) > |a| || Bytes(n + nchunk, chunk) > |b|
  {
    out, blocks, n := [], 0, 0;
    ghost var p: nat, q: nat := 0, Bytes(nchunk, chunk);
    while true
      invariant n == Bytes(blocks, nchunk) && Filling(pola, polb, chunk, a, b, n, p, out)
      decreases |a| - p
    {
      MoreBlocks(n, nchunk, chunk);
      var longer, ok := AddBlock(pola, polb, chunk, nchunk, out, a, b, n, p, q);
      if !ok { return; }
      out, blocks, n, p := longer, blocks + 1, n + nchunk, p + q;
    }
  }

  /** Any number of output blocks: as long as the calls succeed, their output is one alternation of
      the two streams, wherever input and output blocks begin and end. */
  method Merge(pola: Polarisation, polb: Polarisation, chunk: nat, nchunk: nat)
    returns (out: seq<byte>, blocks: nat, n: nat)
    requires pola != polb && pola.Aligned(chunk) && polb.Aligned(chunk) && nchunk > 0
    modifies pola, polb
    ensures n == Bytes(blocks, nchunk) && Merged(old(pola.Left()), old(polb.Left()), chunk, n, Bytes(n, chunk), out)
    ensures Bytes(n + nchunk, chunk) > |old(pola.Left())| || Bytes(n + nchunk, chunk) > |old(polb.Left())|
    ensures old(Untouched(pola)) && old(Untouched(polb)) ==>
              out == Alternate(Flatten(old(pola.blocks)), Flatten(old(polb.blocks)), chunk, n)
  {
    if Untouched(pola) && Untouched(polb) {
      UntouchedLeft(pola);
      UntouchedLeft(polb);
    }
    NothingMerged(pola.Left(), polb.Left(), chunk);
    out, blocks, n := MergeBlocks(pola, polb, chunk, nchunk, pola.Left(), polb.Left());
  }
}
