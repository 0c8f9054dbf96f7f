/** dada_diskdb: files that continue one another are found, and each run of them is copied to the
    data block as one stream, through buffers of any size. */
module DiskJoin {
  import opened Common

  /** UTC_START, OBS_OFFSET and the data that follows the header; FILE_SIZE is the data's length. */
  datatype DataFile = DataFile(utc: string, offset: nat, payload: seq<byte>)

  /** File `i` is continued by the next one. */
  predicate Continues(fs: seq<DataFile>, i: nat) {
    i + 1 < |fs| && fs[i].utc == fs[i + 1].utc && fs[i + 1].offset == fs[i].offset + |fs[i].payload|
  }

  /** Bytes from file `i` to the end of its run. */
  function RunSize(fs: seq<DataFile>, i: nat): nat
    requires i < |fs|
    decreases |fs| - i
  {
    |fs[i].payload| + if Continues(fs, i) then RunSize(fs, i + 1) else 0
  }

  /** Last file of the run of file `i`. */
  function RunEnd(fs: seq<DataFile>, i: nat): (e: nat)
    requires i < |fs|
    ensures i <= e < |fs| && !Continues(fs, e) && forall j :: i <= j < e ==> Continues(fs, j)
    decreases |fs| - i
  {
    if Continues(fs, i) then RunEnd(fs, i + 1) else i
  }

  function Payloads(fs: seq<DataFile>): seq<byte> {
    if fs == [] then [] else fs[0].payload + Payloads(fs[1..])
  }

  /** Files `i` to `e` are consecutive parts of one observation: the same start time, and each begins at
      the byte of the observation where those before it end. */
  ghost predicate OneObservation(fs: seq<DataFile>, i: nat, e: nat) {
    i <= e < |fs| && forall j :: i <= j <= e ==> Follows(fs, i, j)
  }

  ghost predicate Follows(fs: seq<DataFile>, i: nat, j: nat)
    requires i <= j < |fs|
  {
    fs[j].utc == fs[i].utc && fs[j].offset == fs[i].offset + |Payloads(fs[i..j])|
  }

  /** File `j` does not begin where file `j - 1` ends in the same observation. */
  predicate Breaks(fs: seq<DataFile>, j: nat) {
    0 < j < |fs| ==> fs[j].utc != fs[j - 1].utc || fs[j].offset != fs[j - 1].offset + |fs[j - 1].payload|
  }

  lemma PayloadsSnoc(fs: seq<DataFile>, i: nat, j: nat)
    requires i <= j < |fs|
    ensures |Payloads(fs[i..j + 1])| == |Payloads(fs[i..j])| + |fs[j].payload|
  {
    assert fs[i..j + 1] == fs[i..j] + [fs[j]];
    PayloadsAppend(fs[i..j], [fs[j]]);
    assert [fs[j]][1..] == [];
  }

  lemma {:induction false} RunPrefix(fs: seq<DataFile>, i: nat, j: nat)
    requires i < |fs| && i <= j <= RunEnd(fs, i)
    ensures Follows(fs, i, j)
    decreases j
  {
    if i < j {
      RunPrefix(fs, i, j - 1);
      PayloadsSnoc(fs, i, j - 1);
      assert Continues(fs, j - 1);
    } else {
      assert fs[i..j] == [];
    }
  }

  /** A run is one observation, and the longest one from its first file on: the next file has another
      start time or does not begin where the run ends. */
  lemma RunIsObservation(fs: seq<DataFile>, i: nat)
    requires i < |fs|
    ensures var e := RunEnd(fs, i);
      && OneObservation(fs, i, e) && Breaks(fs, e + 1)
      && (e + 1 < |fs| ==>
            fs[e + 1].utc != fs[i].utc || fs[e + 1].offset != fs[i].offset + |Payloads(fs[i..e + 1])|)
  {
    var e := RunEnd(fs, i);
    forall j | i <= j <= e ensures Follows(fs, i, j) {
      RunPrefix(fs, i, j);
    }
    PayloadsSnoc(fs, i, e);
    assert Follows(fs, i, e);
  }

  /** Byte `n` of a run is byte `offset + n` of the observation, in whichever file that lies. */
  lemma {:induction false} RunByte(fs: seq<DataFile>, i: nat, e: nat, n: nat) returns (j: nat)
    requires OneObservation(fs, i, e) && n < |Payloads(fs[i..e + 1])|
    ensures i <= j <= e && fs[j].offset <= fs[i].offset + n < fs[j].offset + |fs[j].payload|
    ensures Payloads(fs[i..e + 1])[n] == fs[j].payload[fs[i].offset + n - fs[j].offset]
    decreases e
  {
    assert Follows(fs, i, e);
    PayloadsSnoc(fs, i, e);
    assert fs[i..e + 1] == fs[i..e] + [fs[e]] && [fs[e]][1..] == [];
    PayloadsAppend(fs[i..e], [fs[e]]);
    if n >= |Payloads(fs[i..e])| {
      j := e;
    } else {
      assert e > i;
      j := RunByte(fs, i, e - 1, n);
    }
  }

  lemma {:induction false} RunSizeIsLength(fs: seq<DataFile>, i: nat)
    requires i < |fs|
    ensures RunSize(fs, i) == |Payloads(fs[i..RunEnd(fs, i) + 1])|
    decreases |fs| - i
  {
    var e := RunEnd(fs, i) + 1;
    var run := fs[i..e];
    assert run[0] == fs[i] && run[1..] == fs[i + 1..e];
    assert Payloads(run) == fs[i].payload + Payloads(fs[i + 1..e]);
    if Continues(fs, i) {
      RunSizeIsLength(fs, i + 1);
      assert e == RunEnd(fs, i + 1) + 1;
    } else {
      assert fs[i + 1..e] == [];
    }
  }

  /** Adding file `k` lengthens exactly the runs that reach it. */
  lemma {:induction false} RunGrows(fs: seq<DataFile>, k: nat, i: nat)
    requires i < k < |fs|
    ensures RunSize(fs[..k + 1], i) ==
            RunSize(fs[..k], i) + if forall j :: i <= j < k ==> Continues(fs, j) then |fs[k].payload| else 0
    decreases k - i
  {
    var a, b := fs[..k], fs[..k + 1];
    assert a[i] == b[i] && Continues(b, i) == Continues(fs, i);
    assert i + 1 < k ==> Continues(a, i) == Continues(fs, i);
    if i + 1 < k {
      RunGrows(fs, k, i + 1);
    } else {
      assert !Continues(b, i + 1);
    }
  }

  /** The same when `i` is the last file before `k` that is not continued. */
  lemma RunReaches(fs: seq<DataFile>, k: nat, i: int, j: nat)
    requires -1 <= i < k && j < k < |fs| && (i >= 0 ==> !Continues(fs, i))
    requires forall x :: i < x < k ==> Continues(fs, x)
    ensures RunSize(fs[..k + 1], j) == RunSize(fs[..k], j) + if j > i then |fs[k].payload| else 0
  {
    RunGrows(fs, k, j);
  }

  /** The inner loop: file `k` continues file `k - 1`, so every file linked to it grows. */
  method ExtendRun(fs: seq<DataFile>, k: nat, sizes: array<nat>, continues: array<bool>)
    requires 1 <= k < |fs| == sizes.Length == continues.Length && Continues(fs, k - 1)
    requires forall i :: 0 <= i < k ==> sizes[i] == RunSize(fs[..k], i) && continues[i] == Continues(fs, i)
    modifies sizes
    ensures forall i :: k <= i < |fs| ==> sizes[i] == old(sizes[i])
    ensures forall i :: 0 <= i < k ==> sizes[i] == RunSize(fs[..k + 1], i)
  {
    var i := k - 1;
    while i >= 0 && continues[i]
      invariant -1 <= i < k
      invariant forall j :: k <= j < |fs| ==> sizes[j] == old(sizes[j])
      invariant forall j :: i < j < k ==> Continues(fs, j) && sizes[j] == RunSize(fs[..k], j) + |fs[k].payload|
      invariant forall j :: 0 <= j <= i ==> sizes[j] == RunSize(fs[..k], j)
    {
      sizes[i] := sizes[i] + |fs[k].payload|;
      i := i - 1;
    }
    forall j | 0 <= j < k ensures sizes[j] == RunSize(fs[..k + 1], j) {
      RunReaches(fs, k, i, j);
    }
  }

  lemma RunStays(fs: seq<DataFile>, k: nat, i: nat)
    requires i < k < |fs| && !Continues(fs, k - 1)
    ensures RunSize(fs[..k + 1], i) == RunSize(fs[..k], i)
  {
    RunGrows(fs, k, i);
  }

  /** check_contiguity: for each new file, the sizes of the files of its run grow by its size. */
  method CheckContiguity(fs: seq<DataFile>) returns (sizes: array<nat>, continues: array<bool>)
    requires fs != []
    ensures fresh(sizes) && fresh(continues) && sizes.Length == continues.Length == |fs|
    ensures forall i :: 0 <= i < |fs| ==> sizes[i] == RunSize(fs, i) && continues[i] == Continues(fs, i)
    ensures forall i :: 0 <= i < |fs| ==>
              (continues[i] <==> i + 1 < |fs| && fs[i + 1].utc == fs[i].utc
                                 && fs[i + 1].offset == fs[i].offset + |fs[i].payload|)
  {
    sizes, continues := new nat[|fs|](_ => 0), new bool[|fs|](_ => false);
    sizes[0] := |fs[0].payload|;
    var k := 1;
    while k < |fs|
      invariant 1 <= k <= |fs|
      invariant forall i :: 0 <= i < k ==> sizes[i] == RunSize(fs[..k], i)
      invariant forall i :: 0 <= i < |fs| ==> continues[i] == (i + 1 < k && Continues(fs, i))
    {
      sizes[k] := |fs[k].payload|;
      if fs[k - 1].utc == fs[k].utc && fs[k].offset == fs[k - 1].offset + |fs[k - 1].payload| {
        continues[k - 1] := true;
        ExtendRun(fs, k, sizes, continues);
      } else {
        forall i | 0 <= i < k ensures sizes[i] == RunSize(fs[..k + 1], i) {
          RunStays(fs, k, i);
        }
      }
      k := k + 1;
    }
    assert fs[..|fs|] == fs;
  }

  // ---------------------------------------------------------------- copying

  /** A read of at most `n` bytes at `pos` of file `cur`; a short read of a file that continues is
      completed from the next file, once.  Result: the bytes, and the new file and position. */
  function ReadAt(fs: seq<DataFile>, cur: nat, pos: nat, n: nat): (seq<byte>, nat, nat)
    requires cur < |fs| && pos <= |fs[cur].payload|
  {
    var end := Min(pos + n, |fs[cur].payload|);
    var first := fs[cur].payload[pos..end];
    if |first| < n && Continues(fs, cur) then
      var next := fs[cur + 1].payload[..Min(n - |first|, |fs[cur + 1].payload|)];
      (first + next, cur + 1, |next|)
    else (first, cur, end)
  }

  /** What a read returns, whole: what is left of the file and, if the next file continues it, that file,
      cut to the bytes wanted; and where the next read starts. */
  lemma ReadExact(fs: seq<DataFile>, cur: nat, pos: nat, n: nat)
    requires cur < |fs| && pos <= |fs[cur].payload|
    ensures var (data, c, p) := ReadAt(fs, cur, pos, n);
      var rest, more := fs[cur].payload[pos..],
          cur + 1 < |fs| && fs[cur + 1].utc == fs[cur].utc && fs[cur + 1].offset == fs[cur].offset + |fs[cur].payload|;
      var stream := rest + if more then fs[cur + 1].payload else [];
      && data == stream[..Min(n, |stream|)]
      && (c, p) == if n > |rest| && more then (cur + 1, |data| - |rest|) else (cur, pos + |data|)
  {
    var rest := fs[cur].payload[pos..];
    if n > |rest| && Continues(fs, cur) {
      var next := fs[cur + 1].payload;
      var k := Min(n - |rest|, |next|);
      assert rest + next[..k] == (rest + next)[..|rest| + k];
    } else if n <= |rest| {
      assert fs[cur].payload[pos..pos + n] == rest[..n];
    } else {
      assert rest + [] == rest;
    }
  }

  /** The copying loop on a run: its output, and the file being read at the end. */
  function Copied(fs: seq<DataFile>, cur: nat, pos: nat, left: nat, bufsize: nat): (seq<byte>, nat)
    requires cur < |fs| && pos <= |fs[cur].payload| && bufsize > 0
    decreases left
  {
    if left == 0 then ([], cur)
    else
      var (data, c, p) := ReadAt(fs, cur, pos, Min(bufsize, left));
      if data == [] then ([], c)
      else var (rest, e) := Copied(fs, c, p, left - |data|, bufsize); (data + rest, e)
  }

  class DiskDb {
    const files: seq<DataFile>
    const sizes: seq<nat>
    const continues: seq<bool>
    var cur: nat
    var pos: nat

    ghost predicate Checked() {
      && |sizes| == |continues| == |files|
      && forall i :: 0 <= i < |files| ==> sizes[i] == RunSize(files, i) && continues[i] == Continues(files, i)
    }

    constructor (fs: seq<DataFile>)
      requires fs != []
      ensures files == fs && Checked() && cur == 0 && pos == 0
    {
      var s, c := CheckContiguity(fs);
      files, sizes, continues := fs, s[..], c[..];
      cur, pos := 0, 0;
    }

    /** file_read_function after the header, with open_next_contiguous_file and file_close_function. */
    method Read(n: nat) returns (data: seq<byte>)
      requires Checked() && cur < |files| && pos <= |files[cur].payload|
      modifies this`cur, this`pos
      ensures (data, cur, pos) == ReadAt(files, old(cur), old(pos), n)
      ensures cur < |files| && pos <= |files[cur].payload| && |data| <= n
    {
      var end := Min(pos + n, |files[cur].payload|);
      data, pos := files[cur].payload[pos..end], end;
      if |data| < n && continues[cur] {
        cur := cur + 1;
        var next := files[cur].payload[..Min(n - |data|, |files[cur].payload|)];
        data, pos := data + next, |next|;
      }
    }

    /** dada_client_io_loop, to copy `total` bytes. */
    method CopyBytes(total: nat, bufsize: nat) returns (out: seq<byte>)
      requires Checked() && cur < |files| && pos <= |files[cur].payload| && bufsize > 0
      modifies this`cur, this`pos
      ensures (out, cur) == Copied(files, old(cur), old(pos), total, bufsize) && cur < |files|
    {
      ghost var whole := Copied(files, cur, pos, total, bufsize);
      out := [];
      assert out + whole.0 == whole.0;
      while |out| < total
        invariant cur < |files| && pos <= |files[cur].payload| && |out| <= total
        invariant Pending(files, whole, out, cur, pos, total - |out|, bufsize)
        decreases total - |out|
      {
        PendingStep(files, whole, out, cur, pos, total - |out|, bufsize);
        var data := Read(Min(bufsize, total - |out|));
        if data == [] { return; }
        out := out + data;
      }
      PendingEnd(files, whole, out, cur, pos, bufsize);
    }

    /** The transfer of one run, then file_close_function. */
    method CopyRun(bufsize: nat) returns (out: seq<byte>)
      requires Checked() && cur < |files| && bufsize > 0 && RunSize(files, cur) > 0
      modifies this`cur, this`pos
      ensures (out, cur - 1) == Copied(files, old(cur), 0, RunSize(files, old(cur)), bufsize) && pos == 0
    {
      pos := 0;
      out := CopyBytes(sizes[cur], bufsize);
      cur, pos := cur + 1, 0;
    }
  }

  /** `whole` is `out` and what copying from here on gives. */
  ghost predicate Pending(fs: seq<DataFile>, whole: (seq<byte>, nat), out: seq<byte>, cur: nat, pos: nat, left: nat,
                          bufsize: nat)
    requires cur < |fs| && pos <= |fs[cur].payload| && bufsize > 0
  {
    var r := Copied(fs, cur, pos, left, bufsize);
    whole == (out + r.0, r.1)
  }

  lemma PendingEnd(fs: seq<DataFile>, whole: (seq<byte>, nat), out: seq<byte>, cur: nat, pos: nat, bufsize: nat)
    requires cur < |fs| && pos <= |fs[cur].payload| && bufsize > 0 && Pending(fs, whole, out, cur, pos, 0, bufsize)
    ensures whole == (out, cur)
  {
    assert out + [] == out;
  }

  lemma PendingStep(fs: seq<DataFile>, whole: (seq<byte>, nat), out: seq<byte>, cur: nat, pos: nat, left: nat,
                    bufsize: nat)
    requires cur < |fs| && pos <= |fs[cur].payload| && bufsize > 0 && left > 0
    requires Pending(fs, whole, out, cur, pos, left, bufsize)
    ensures var (data, c, p) := ReadAt(fs, cur, pos, Min(bufsize, left));
      if data == [] then whole == (out, c) else |data| <= left && Pending(fs, whole, out + data, c, p, left - |data|, bufsize)
  {
    var (data, c, p) := ReadAt(fs, cur, pos, Min(bufsize, left));
    CopiedStep(fs, cur, pos, left, bufsize);
    if data == [] {
      assert out + [] == out;
    } else {
      var r := Copied(fs, c, p, left - |data|, bufsize);
      assert out + (data + r.0) == out + data + r.0;
    }
  }

  lemma CopiedStep(fs: seq<DataFile>, cur: nat, pos: nat, left: nat, bufsize: nat)
    requires cur < |fs| && pos <= |fs[cur].payload| && bufsize > 0 && left > 0
    ensures var (data, c, p) := ReadAt(fs, cur, pos, Min(bufsize, left)); var r := Copied(fs, cur, pos, left, bufsize);
      && |data| <= left
      && (if data == [] then r == ([], c)
          else r.0 == data + Copied(fs, c, p, left - |data|, bufsize).0
               && r.1 == Copied(fs, c, p, left - |data|, bufsize).1)
  {
  }

  /** What is left of a run from a position in it. */
  function Left(fs: seq<DataFile>, cur: nat, pos: nat): seq<byte>
    requires cur < |fs| && pos <= |fs[cur].payload|
  {
    fs[cur].payload[pos..] + Payloads(fs[cur + 1..RunEnd(fs, cur) + 1])
  }

  /** No file of the run behind file `cur` is empty. */
  predicate NoEmptyBehind(fs: seq<DataFile>, cur: nat)
    requires cur < |fs|
  {
    forall j :: cur < j <= RunEnd(fs, cur) ==> fs[j].payload != []
  }

  lemma LeftNext(fs: seq<DataFile>, cur: nat)
    requires cur < |fs| && Continues(fs, cur)
    ensures Left(fs, cur, |fs[cur].payload|) == Left(fs, cur + 1, 0)
  {
    var run := fs[cur + 1..RunEnd(fs, cur) + 1];
    assert run[0] == fs[cur + 1] && run[1..] == fs[cur + 2..RunEnd(fs, cur) + 1];
  }

  lemma LeftLast(fs: seq<DataFile>, cur: nat, pos: nat)
    requires cur < |fs| && !Continues(fs, cur) && pos <= |fs[cur].payload|
    ensures Left(fs, cur, pos) == fs[cur].payload[pos..]
  {
    assert fs[cur + 1..RunEnd(fs, cur) + 1] == [];
  }

  lemma LeftMove(fs: seq<DataFile>, cur: nat, pos: nat, end: nat)
    requires cur < |fs| && pos <= end <= |fs[cur].payload|
    ensures Left(fs, cur, pos) == fs[cur].payload[pos..end] + Left(fs, cur, end)
  {
    assert fs[cur].payload[pos..] == fs[cur].payload[pos..end] + fs[cur].payload[end..];
  }

  /** A read that goes on in the next file. */
  lemma ReadAcross(fs: seq<DataFile>, cur: nat, pos: nat, m: nat)
    requires cur < |fs| && pos <= |fs[cur].payload| && Continues(fs, cur) && m <= |fs[cur + 1].payload|
    ensures fs[cur].payload[pos..] + fs[cur + 1].payload[..m] + Left(fs, cur + 1, m) == Left(fs, cur, pos)
  {
    LeftMove(fs, cur, pos, |fs[cur].payload|);
    LeftNext(fs, cur);
    LeftMove(fs, cur + 1, 0, m);
    Assoc(fs[cur].payload[pos..], fs[cur + 1].payload[..m], Left(fs, cur + 1, m));
  }

  /** What is promised of a read within a run. */
  ghost predicate StaysInRun(fs: seq<DataFile>, cur: nat, pos: nat, data: seq<byte>, c: nat, p: nat)
    requires cur < |fs| && pos <= |fs[cur].payload|
  {
    && data != [] && c < |fs| && p <= |fs[c].payload|
    && RunEnd(fs, c) == RunEnd(fs, cur) && cur <= c && data + Left(fs, c, p) == Left(fs, cur, pos)
  }

  lemma ReadGoesOn(fs: seq<DataFile>, cur: nat, pos: nat, m: nat)
    requires cur < |fs| && pos <= |fs[cur].payload| && Continues(fs, cur)
    requires fs[cur + 1].payload != [] && 0 < m <= |fs[cur + 1].payload|
    ensures StaysInRun(fs, cur, pos, fs[cur].payload[pos..] + fs[cur + 1].payload[..m], cur + 1, m)
  {
    ReadAcross(fs, cur, pos, m);
  }

  lemma ReadHere(fs: seq<DataFile>, cur: nat, pos: nat, n: nat)
    requires cur < |fs| && pos <= |fs[cur].payload| && 0 < n <= |Left(fs, cur, pos)|
    requires pos + n <= |fs[cur].payload| || !Continues(fs, cur)
    ensures pos + n <= |fs[cur].payload| && StaysInRun(fs, cur, pos, fs[cur].payload[pos..pos + n], cur, pos + n)
  {
    if !Continues(fs, cur) { LeftLast(fs, cur, pos); }
    LeftMove(fs, cur, pos, pos + n);
  }

  /** A read of what is wanted of such a run makes progress and stays in the run. */
  lemma ReadInRun(fs: seq<DataFile>, cur: nat, pos: nat, n: nat)
    requires cur < |fs| && pos <= |fs[cur].payload| && NoEmptyBehind(fs, cur)
    requires 0 < n <= |Left(fs, cur, pos)|
    ensures var (data, c, p) := ReadAt(fs, cur, pos, n);
      StaysInRun(fs, cur, pos, data, c, p) && NoEmptyBehind(fs, c)
  {
    if pos + n > |fs[cur].payload| && Continues(fs, cur) {
      ReadGoesOn(fs, cur, pos, Min(n - (|fs[cur].payload| - pos), |fs[cur + 1].payload|));
    } else {
      ReadHere(fs, cur, pos, n);
    }
  }

  lemma LeftNonEmpty(fs: seq<DataFile>, cur: nat, pos: nat)
    requires cur < |fs| && pos <= |fs[cur].payload| && Continues(fs, cur) && fs[cur + 1].payload != []
    ensures Left(fs, cur, pos) != []
  {
    LeftMove(fs, cur, pos, |fs[cur].payload|);
    LeftNext(fs, cur);
    LeftMove(fs, cur + 1, 0, |fs[cur + 1].payload|);
    assert fs[cur + 1].payload[0..] == fs[cur + 1].payload;
  }

  lemma {:induction false} CopiesRun(fs: seq<DataFile>, cur: nat, pos: nat, bufsize: nat)
    requires cur < |fs| && pos <= |fs[cur].payload| && NoEmptyBehind(fs, cur) && bufsize > 0
    ensures var left := Left(fs, cur, pos);
            Copied(fs, cur, pos, |left|, bufsize) == (left, RunEnd(fs, cur))
    decreases |Left(fs, cur, pos)|
  {
    var left := Left(fs, cur, pos);
    if left == [] {
      if Continues(fs, cur) { LeftNonEmpty(fs, cur, pos); }
    } else {
      ReadInRun(fs, cur, pos, Min(bufsize, |left|));
      var (data, c, p) := ReadAt(fs, cur, pos, Min(bufsize, |left|));
      CopiesRun(fs, c, p, bufsize);
      assert |left| - |data| == |Left(fs, c, p)|;
      CopiedStep(fs, cur, pos, |left|, bufsize);
    }
  }

  lemma WholeRun(fs: seq<DataFile>, i: nat)
    requires i < |fs|
    ensures Left(fs, i, 0) == Payloads(fs[i..RunEnd(fs, i) + 1])
    ensures RunSize(fs, i) == |Left(fs, i, 0)|
  {
    var run := fs[i..RunEnd(fs, i) + 1];
    assert run[1..] == fs[i + 1..RunEnd(fs, i) + 1] && run[0] == fs[i];
    assert fs[i].payload[0..] == fs[i].payload;
    RunSizeIsLength(fs, i);
  }

  /** Copying writes exactly the concatenation of the run's payloads and stops in its last file. */
  ghost predicate Joins(fs: seq<DataFile>, i: nat, bufsize: nat)
    requires i < |fs| && bufsize > 0
  {
    Copied(fs, i, 0, RunSize(fs, i), bufsize) == (Payloads(fs[i..RunEnd(fs, i) + 1]), RunEnd(fs, i))
  }

  lemma RunJoined(fs: seq<DataFile>, i: nat, bufsize: nat)
    requires i < |fs| && NoEmptyBehind(fs, i) && bufsize > 0
    ensures Joins(fs, i, bufsize)
  {
    WholeRun(fs, i);
    CopiesRun(fs, i, 0, bufsize);
  }

  /** A read of one byte leaves what the rest of the copy has to do. */
  lemma OneByte(fs: seq<DataFile>, cur: nat, pos: nat, c: nat, p: nat, e: nat)
    requires cur < |fs| && pos <= |fs[cur].payload| && c < |fs| && p <= |fs[c].payload|
    requires var (data, c', p') := ReadAt(fs, cur, pos, 1);
      |data| == 1 && c' == c && p' == p && data + Left(fs, c, p) == Left(fs, cur, pos)
    ensures var left, next := Left(fs, cur, pos), Left(fs, c, p);
      && |left| == |next| + 1
      && (Copied(fs, cur, pos, |left|, 1) == (left, e) ==> Copied(fs, c, p, |next|, 1) == (next, e))
  {
    var left, next := Left(fs, cur, pos), Left(fs, c, p);
    var data := ReadAt(fs, cur, pos, 1).0;
    CopiedStep(fs, cur, pos, |left|, 1);
    var x := Copied(fs, c, p, |next|, 1).0;
    assert |left| == |next| + 1;
    assert (data + x)[1..] == x && (data + next)[1..] == next;
  }

  /** With a buffer of one byte, an empty file further on is met at the very end of the one before:
      the read brings nothing and the copy stops there. */
  lemma {:induction false} EmptyFileStops(fs: seq<DataFile>, cur: nat, pos: nat, j: nat)
    requires cur < |fs| && pos <= |fs[cur].payload|
    requires cur < j <= RunEnd(fs, cur) && fs[j].payload == []
    ensures Copied(fs, cur, pos, |Left(fs, cur, pos)|, 1) != (Left(fs, cur, pos), RunEnd(fs, cur))
    decreases |Left(fs, cur, pos)|
  {
    var left := Left(fs, cur, pos);
    assert Continues(fs, cur);
    if left != [] {
      if pos < |fs[cur].payload| {
        LeftMove(fs, cur, pos, pos + 1);
        OneByte(fs, cur, pos, cur, pos + 1, RunEnd(fs, cur));
        EmptyFileStops(fs, cur, pos + 1, j);
      } else if fs[cur + 1].payload != [] {
        LeftNext(fs, cur);
        LeftMove(fs, cur + 1, 0, 1);
        FirstByteOfNext(fs, cur);
        OneByte(fs, cur, pos, cur + 1, 1, RunEnd(fs, cur));
        EmptyFileStops(fs, cur + 1, 1, j);
      } else {
        CopiedStep(fs, cur, pos, |left|, 1);
      }
    }
  }

  lemma FirstByteOfNext(fs: seq<DataFile>, cur: nat)
    requires cur < |fs| && Continues(fs, cur) && fs[cur + 1].payload != []
    ensures ReadAt(fs, cur, |fs[cur].payload|, 1) == (fs[cur + 1].payload[0..1], cur + 1, 1)
  {
    var none, next := fs[cur].payload[|fs[cur].payload|..], fs[cur + 1].payload[..1];
    assert none + next == next == fs[cur + 1].payload[0..1];
  }

  /** A run is joined with every buffer size exactly when none of its files after the first is empty. */
  lemma JoinedIff(fs: seq<DataFile>, i: nat)
    requires i < |fs|
    ensures (forall bufsize: nat :: bufsize > 0 ==> Joins(fs, i, bufsize)) <==> NoEmptyBehind(fs, i)
  {
    if NoEmptyBehind(fs, i) {
      forall bufsize: nat | bufsize > 0 ensures Joins(fs, i, bufsize) {
        RunJoined(fs, i, bufsize);
      }
    } else {
      var j :| i < j <= RunEnd(fs, i) && fs[j].payload == [];
      WholeRun(fs, i);
      EmptyFileStops(fs, i, 0, j);
      assert !Joins(fs, i, 1);
    }
  }

  lemma {:induction false} PayloadsAppend(a: seq<DataFile>, b: seq<DataFile>)
    ensures Payloads(a + b) == Payloads(a) + Payloads(b)
  {
    if a == [] {
      assert a + b == b;
    } else {
      PayloadsAppend(a[1..], b);
      Assoc(a[0].payload, Payloads(a[1..]), Payloads(b));
      assert (a + b)[1..] == a[1..] + b;
    }
  }

  /** `out` is the data of files `start` to before `next`, which are one observation and cannot be
      continued at either end. */
  ghost predicate IsTransfer(fs: seq<DataFile>, start: nat, next: nat, out: seq<byte>) {
    && start < next <= |fs| && OneObservation(fs, start, next - 1) && out == Payloads(fs[start..next])
    && Breaks(fs, start) && Breaks(fs, next)
  }

  /** The transfers in `runs`, each from its file in `starts` to where the following one starts, are
      those of the first `cur` files. */
  ghost predicate Transfers(fs: seq<DataFile>, runs: seq<seq<byte>>, starts: seq<nat>, cur: nat)
    decreases |runs|
  {
    && |runs| == |starts|
    && if runs == [] then cur == 0 else
         var last := |runs| - 1;
         IsTransfer(fs, starts[last], cur, runs[last]) && Transfers(fs, runs[..last], starts[..last], starts[last])
  }

  ghost predicate AllRuns(fs: seq<DataFile>, runs: seq<seq<byte>>, starts: seq<nat>, cur: nat) {
    cur <= |fs| && Breaks(fs, cur) && Transfers(fs, runs, starts, cur) && Flatten(runs) == Payloads(fs[..cur])
  }

  lemma NextData(fs: seq<DataFile>, runs: seq<seq<byte>>, start: nat, end: nat)
    requires start <= end <= |fs| && Flatten(runs) == Payloads(fs[..start])
    ensures Flatten(runs + [Payloads(fs[start..end])]) == Payloads(fs[..end])
  {
    assert fs[..end] == fs[..start] + fs[start..end];
    PayloadsAppend(fs[..start], fs[start..end]);
    FlattenSnoc(runs, Payloads(fs[start..end]));
  }

  lemma TransfersSnoc(fs: seq<DataFile>, runs: seq<seq<byte>>, starts: seq<nat>, start: nat, next: nat, out: seq<byte>)
    requires Transfers(fs, runs, starts, start) && IsTransfer(fs, start, next, out)
    ensures Transfers(fs, runs + [out], starts + [start], next)
  {
    Apart(runs, [out]);
    Apart(starts, [start]);
  }

  lemma RunIsTransfer(fs: seq<DataFile>, start: nat)
    requires start < |fs| && Breaks(fs, start)
    ensures var end := RunEnd(fs, start) + 1;
            Breaks(fs, end) && IsTransfer(fs, start, end, Payloads(fs[start..end]))
  {
    RunIsObservation(fs, start);
  }

  lemma NextRun(fs: seq<DataFile>, runs: seq<seq<byte>>, starts: seq<nat>, start: nat)
    requires start < |fs| && AllRuns(fs, runs, starts, start)
    ensures var end := RunEnd(fs, start) + 1;
            AllRuns(fs, runs + [Payloads(fs[start..end])], starts + [start], end)
  {
    var end := RunEnd(fs, start) + 1;
    NextData(fs, runs, start, end);
    RunIsTransfer(fs, start);
    TransfersSnoc(fs, runs, starts, start, end, Payloads(fs[start..end]));
  }

  /** What the copy of the run that starts at file `start` adds. */
  lemma AfterRun(fs: seq<DataFile>, runs: seq<seq<byte>>, starts: seq<nat>, start: nat, bufsize: nat)
    requires start < |fs| && AllRuns(fs, runs, starts, start) && bufsize > 0
    requires forall i :: 0 <= i < |fs| ==> fs[i].payload != []
    ensures RunSize(fs, start) > 0
    ensures var (out, end) := Copied(fs, start, 0, RunSize(fs, start), bufsize);
            end >= start && AllRuns(fs, runs + [out], starts + [start], end + 1)
  {
    RunJoined(fs, start, bufsize);
    NextRun(fs, runs, starts, start);
  }

  lemma NoRuns(fs: seq<DataFile>)
    ensures AllRuns(fs, [], [], 0)
  {
    assert fs[..0] == [];
  }

  lemma AllDone(fs: seq<DataFile>, runs: seq<seq<byte>>, starts: seq<nat>)
    requires AllRuns(fs, runs, starts, |fs|)
    ensures Flatten(runs) == Payloads(fs) && Transfers(fs, runs, starts, |fs|)
  {
    assert fs[..|fs|] == fs;
  }

  /** The whole program: one transfer for each maximal run, each starting where the last one ended,
      and together all the data in order. */
  method CopyAll(fs: seq<DataFile>, bufsize: nat) returns (runs: seq<seq<byte>>, starts: seq<nat>)
    requires fs != [] && bufsize > 0 && forall i :: 0 <= i < |fs| ==> fs[i].payload != []
    ensures Flatten(runs) == Payloads(fs) && Transfers(fs, runs, starts, |fs|)
  {
    var db := new DiskDb(fs);
    runs, starts := [], [];
    NoRuns(fs);
    while db.cur < |fs|
      invariant db.files == fs && db.Checked() && AllRuns(fs, runs, starts, db.cur)
      decreases |fs| - db.cur
    {
      var start := db.cur;
      AfterRun(fs, runs, starts, start, bufsize);
      var out := db.CopyRun(bufsize);
      runs, starts := runs + [out], starts + [start];
    }
    AllDone(fs, runs, starts);
  }
}
