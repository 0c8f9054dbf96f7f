/** The length-prefixed file stream of vsib_send and vsib_recv: the sender's buffers, the receiver's
    network thread reading a stream cut at arbitrary points, and the thread that writes the files. */
module Framing {
  import opened Common
  import HandoverRing
  import ReceiverRing

  datatype File = File(name: seq<byte>, content: seq<byte>)

  // ---------------------------------------------------------------- sender

  /** strlen + 1, kept in an unsigned short. */
  function NameSize(f: File): nat { (|f.name| + 1) % 65536 }

  function Header(f: File): seq<byte> {
    ToLe(|f.content|, 8) + ToLe(NameSize(f), 2) + (f.name + [0])[..NameSize(f)]
  }

  function FrameOf(f: File): seq<byte> { Header(f) + f.content }

  /** Where each field of a header lies: the file size in 8 bytes and the name size, which counts the
      terminating zero, in 2, both with the low byte first; then the name and its zero. */
  lemma HeaderLayout(f: File)
    requires |f.content| < Pow256(8) && |f.name| + 1 < 65536
    ensures var h, n := Header(f), |f.name|;
      && |h| == n + 11
      && (forall i :: 0 <= i < 8 ==> h[i] == |f.content| / Pow256(i) % 256)
      && h[8] == (n + 1) % 256 && h[9] == (n + 1) / 256
      && h[10..10 + n] == f.name && h[10 + n] == 0
  {
    SizeBytes(|f.content|);
    TwoBytes(|f.name| + 1);
    assert (f.name + [0])[..NameSize(f)] == f.name + [0];
    HeaderParts(ToLe(|f.content|, 8), ToLe(|f.name| + 1, 2), f.name);
  }

  lemma SizeBytes(v: nat)
    ensures forall i :: 0 <= i < 8 ==> ToLe(v, 8)[i] == v / Pow256(i) % 256
  {
    forall i | 0 <= i < 8 ensures ToLe(v, 8)[i] == v / Pow256(i) % 256 {
      LeDigit(v, 8, i);
    }
  }

  lemma HeaderParts(size: seq<byte>, two: seq<byte>, name: seq<byte>)
    requires |size| == 8 && |two| == 2
    ensures var h, n := size + two + (name + [0]), |name|;
      && |h| == n + 11 && (forall i :: 0 <= i < 8 ==> h[i] == size[i]) && h[8] == two[0] && h[9] == two[1]
      && h[10..10 + n] == name && h[10 + n] == 0
  {
  }

  lemma TwoBytes(v: nat)
    requires v < 65536
    ensures ToLe(v, 2) == [v % 256, v / 256]
  {
    assert ToLe(v, 2) == [v % 256] + ToLe(v / 256, 1);
    assert ToLe(v / 256, 1) == [v / 256 % 256] + ToLe(v / 256 / 256, 0);
  }

  /** The byte stream that carries a list of files. */
  function Frame(files: seq<File>): seq<byte> {
    if files == [] then [] else FrameOf(files[0]) + Frame(files[1..])
  }

  /** The files main does not skip. */
  function Named(files: seq<File>): seq<File> {
    if files == [] then [] else
    var rest := Named(files[1..]);
    if files[0].name == [] then rest else [files[0]] + rest
  }

  lemma {:induction false} FrameAppend(a: seq<File>, b: seq<File>)
    ensures Frame(a + b) == Frame(a) + Frame(b)
  {
    if a == [] {
      assert a + b == b;
    } else {
      FrameAppend(a[1..], b);
      assert (a + b)[1..] == a[1..] + b && (a + b)[0] == a[0];
      Assoc(FrameOf(a[0]), Frame(a[1..]), Frame(b));
    }
  }

  lemma {:induction false} NamedSnoc(a: seq<File>, f: File)
    ensures Named(a + [f]) == Named(a) + (if f.name == [] then [] else [f])
  {
    if a == [] {
      assert a + [f] == [f] && [f][1..] == [];
    } else {
      NamedSnoc(a[1..], f);
      assert (a + [f])[1..] == a[1..] + [f];
    }
  }

  /** Files with no name are left out, wherever they stand, and no others. */
  lemma {:induction false} NamedParts(a: seq<File>, f: File, b: seq<File>)
    ensures Named(a + ([f] + b)) == Named(a) + ((if f.name == [] then [] else [f]) + Named(b))
    decreases a
  {
    if a == [] {
      assert a + ([f] + b) == [f] + b && ([f] + b)[1..] == b;
      assert [] + Named(b) == Named(b);
      assert [] + ((if f.name == [] then [] else [f]) + Named(b)) == (if f.name == [] then [] else [f]) + Named(b);
    } else {
      NamedParts(a[1..], f, b);
      assert (a + ([f] + b))[1..] == a[1..] + ([f] + b);
      Assoc([a[0]], Named(a[1..]), (if f.name == [] then [] else [f]) + Named(b));
    }
  }

  lemma FrameOne(f: File)
    ensures Frame([f]) == FrameOf(f)
  {
    assert [f][1..] == [];
  }

  /** The loop over reads of one file; `read` may return any positive part of a buffer. */
  method ReadFile(content: seq<byte>, bufsize: nat) returns (items: seq<seq<byte>>)
    requires bufsize > 0
    ensures Flatten(items) == content
    ensures forall i :: 0 <= i < |items| ==> 1 <= |items[i]| <= bufsize
  {
    items := [];
    var pos := 0;
    while pos < |content|
      invariant pos <= |content|
      invariant Flatten(items) == content[..pos]
      invariant forall i :: 0 <= i < |items| ==> 1 <= |items[i]| <= bufsize
    {
      var k :| 1 <= k <= bufsize && pos + k <= |content|;
      FlattenSnoc(items, content[pos..pos + k]);
      assert content[..pos] + content[pos..pos + k] == content[..pos + k];
      items, pos := items + [content[pos..pos + k]], pos + k;
    }
    assert content[..pos] == content;
  }

  lemma BuffersSnoc(items: seq<seq<byte>>, done: seq<File>, f: File, data: seq<seq<byte>>)
    requires Flatten(items) == Frame(done) && Flatten(data) == f.content
    ensures Flatten(items + [Header(f)] + data) == Frame(done + [f])
  {
    FlattenSnoc(items, Header(f));
    FlattenAppend(items + [Header(f)], data);
    FrameAppend(done, [f]);
    FrameOne(f);
    Assoc(Frame(done), Header(f), f.content);
  }

  /** Every header, with its size fields, fits a buffer. */
  predicate HeadersFit(files: seq<File>, bufsize: nat) {
    forall i :: 0 <= i < |files| && files[i].name != [] ==> |Header(files[i])| <= bufsize
  }

  predicate AllWithin(items: seq<seq<byte>>, bufsize: nat) { forall i :: 0 <= i < |items| ==> |items[i]| <= bufsize }

  lemma HeadersFitSnoc(files: seq<File>, f: File, bufsize: nat)
    ensures HeadersFit(files + [f], bufsize) <==>
            HeadersFit(files, bufsize) && (f.name != [] ==> |Header(f)| <= bufsize)
  {
    var all := files + [f];
    assert all[|files|] == f && forall i :: 0 <= i < |files| ==> all[i] == files[i];
  }

  /** What a file's turn adds to the buffers. */
  function Turn(f: File, data: seq<seq<byte>>): seq<seq<byte>> { if f.name == [] then [] else [Header(f)] + data }

  lemma TurnFrames(files: seq<File>, j: nat, items: seq<seq<byte>>, data: seq<seq<byte>>)
    requires j < |files| && Flatten(items) == Frame(Named(files[..j]))
    requires files[j].name != [] ==> Flatten(data) == files[j].content
    ensures Flatten(items + Turn(files[j], data)) == Frame(Named(files[..j + 1]))
  {
    assert files[..j + 1] == files[..j] + [files[j]];
    NamedSnoc(files[..j], files[j]);
    if files[j].name != [] {
      BuffersSnoc(items, Named(files[..j]), files[j], data);
      Assoc(items, [Header(files[j])], data);
    } else {
      assert Named(files[..j]) + [] == Named(files[..j]) && items + [] == items;
    }
  }

  lemma TurnFits(files: seq<File>, j: nat, items: seq<seq<byte>>, data: seq<seq<byte>>, bufsize: nat)
    requires j < |files| && (files[j].name != [] ==> AllWithin(data, bufsize))
    ensures HeadersFit(files[..j + 1], bufsize) <==>
            HeadersFit(files[..j], bufsize) && (files[j].name != [] ==> |Header(files[j])| <= bufsize)
    ensures AllWithin(items, bufsize) && HeadersFit(files[..j + 1], bufsize) ==>
              AllWithin(items + Turn(files[j], data), bufsize)
  {
    assert files[..j + 1] == files[..j] + [files[j]];
    HeadersFitSnoc(files[..j], files[j], bufsize);
  }

  /** main's loop over files: one buffer for each header, then one for each read.  The header is
      copied without a check: `fits` tells whether all of them stay inside their buffers. */
  method FillBuffers(files: seq<File>, bufsize: nat) returns (items: seq<seq<byte>>, fits: bool)
    requires bufsize > 0
    ensures Flatten(items) == Frame(Named(files))
    ensures fits <==> HeadersFit(files, bufsize)
    ensures fits ==> AllWithin(items, bufsize)
  {
    items, fits := [], true;
    var j := 0;
    while j < |files|
      invariant j <= |files|
      invariant Flatten(items) == Frame(Named(files[..j]))
      invariant fits <==> HeadersFit(files[..j], bufsize)
      invariant fits ==> AllWithin(items, bufsize)
    {
      var f, data := files[j], [];
      if f.name != [] {
        data := ReadFile(f.content, bufsize);
        fits := fits && |Header(f)| <= bufsize;
      }
      TurnFrames(files, j, items, data);
      TurnFits(files, j, items, data, bufsize);
      items := items + Turn(f, data);
      j := j + 1;
    }
    assert files[..j] == files;
  }

  /** With buffers of one size on both sides, the receiver accepts names that are up to two bytes longer
      than a header in the sender's buffer allows. */
  lemma HeaderFits(f: File, bufsize: nat)
    requires Sendable(f, bufsize)
    ensures |Header(f)| <= bufsize <==> |f.name| + 1 <= bufsize - 10
  {
    assert NameSize(f) == |f.name| + 1;
  }

  // ---------------------------------------------------------------- receiver: network thread

  /** A filled ring buffer: its bytes and nbufsize. */
  datatype Slot = Slot(data: seq<byte>, size: nat)

  datatype Ending = SocketClosed | NameTooLong | BadNameSize

  datatype Parsed = Parsed(slots: seq<Slot>, ending: Ending)

  function Prepend(slots: seq<Slot>, p: Parsed): Parsed { p.(slots := slots + p.slots) }

  lemma PrependTwice(a: seq<Slot>, b: seq<Slot>, p: Parsed)
    ensures Prepend(a + b, p) == Prepend(a, Prepend(b, p))
  {
    assert a + b + p.slots == a + (b + p.slots);
  }

  /** Bytes `w` received into a buffer holding `b`, starting at offset `at`. */
  function Overlay(b: seq<byte>, at: nat, w: seq<byte>): seq<byte> {
    b[..Min(at, |b|)] + w + (if at + |w| < |b| then b[at + |w|..] else [])
  }

  lemma NothingBelow(w: seq<byte>)
    ensures Overlay([], 0, w) == w
  {
    assert [] + w + [] == w;
  }

  /** Two bytes read into a signed short. */
  function AsShort(v: nat): int {
    var w := v % 65536; if w < 32768 then w else w - 65536
  }

  /** The test on the name size; a negative size compares as a huge unsigned one. */
  function NameError(fn: int, bufsize: nat): Option<Ending>
    ensures NameError(fn, bufsize).None? <==> 1 <= fn <= bufsize - 8
  {
    if fn < 0 || fn > bufsize - 8 then Some(NameTooLong)
    else if fn == 0 then Some(BadNameSize) else None
  }

  /** What the network thread publishes for a whole stream, with no mention of how it was cut. */
  function ParseFile(bufsize: nat, st: seq<byte>): Parsed
    requires bufsize >= 10
    decreases |st|, 1
  {
    if |st| < 10 then Parsed(if st == [] then [] else [Slot(st, |st|)], SocketClosed)
    else
      var fn := AsShort(FromLe(st[8..10]));
      match NameError(fn, bufsize)
      case Some(e) => Parsed([], e)
      case None => ParseName(bufsize, st[..10], fn, st[10..])
  }

  function ParseName(bufsize: nat, hdr: seq<byte>, fn: nat, st: seq<byte>): Parsed
    requires bufsize >= 10 && |hdr| == 10 && 1 <= fn
    decreases |st|, 1
  {
    if |st| < fn then Parsed(if st == [] then [] else [Slot(Overlay(hdr, 8, st), |st|)], SocketClosed)
    else Prepend([Slot(Overlay(hdr, 8, st[..fn]), fn)], ParseData(bufsize, FromLe(hdr[..8]), st[fn..]))
  }

  function ParseData(bufsize: nat, rem: nat, st: seq<byte>): Parsed
    requires bufsize >= 10
    decreases |st|, 2
  {
    if rem == 0 then ParseFile(bufsize, st)
    else
      var want := Min(bufsize, rem);
      if |st| < want then Parsed(if st == [] then [] else [Slot(st, |st|)], SocketClosed)
      else Prepend([Slot(st[..want], want)], ParseData(bufsize, rem - want, st[want..]))
  }

  lemma ParseFileStep(bufsize: nat, st: seq<byte>)
    requires bufsize >= 10 && |st| >= 10
    ensures var fn := AsShort(FromLe(st[8..10])); var e := NameError(fn, bufsize);
            ParseFile(bufsize, st)
            == if e.Some? then Parsed([], e.value) else ParseName(bufsize, st[..10], fn, st[10..])
  {
  }

  lemma TwoBytesValue(s: seq<byte>)
    requires |s| == 2
    ensures FromLe(s) == s[0] as int + 256 * s[1] as int
  {
    assert FromLe(s[1..]) == s[1] as int + 256 * FromLe(s[1..][1..]);
  }

  function SizeOfName(st: seq<byte>): nat
    requires |st| >= 10
  {
    st[8] as int + 256 * st[9] as int
  }

  /** The name size in bytes 8 and 9 of a file's header: zero is an error, and so is one that is too long
      for a buffer or negative as a short. */
  lemma NameSizes(bufsize: nat, st: seq<byte>)
    requires bufsize >= 10 && |st| >= 10
    ensures SizeOfName(st) == 0 ==> ParseFile(bufsize, st) == Parsed([], BadNameSize)
    ensures SizeOfName(st) > bufsize - 8 || SizeOfName(st) >= 32768 ==> ParseFile(bufsize, st) == Parsed([], NameTooLong)
  {
    TwoBytesValue(st[8..10]);
    ParseFileStep(bufsize, st);
  }

  /** Any other is followed by the name. */
  lemma NameFollows(bufsize: nat, st: seq<byte>, n: nat)
    requires bufsize >= 10 && |st| >= 10 && n == 10 + SizeOfName(st) && 10 < n <= |st|
    requires n - 10 <= bufsize - 8 && n - 10 < 32768
    ensures var slots := ParseFile(bufsize, st).slots;
            slots != [] && slots[0].size == n - 10 && NameIn(slots[0].data, st, n)
  {
    TwoBytesValue(st[8..10]);
    ParseFileStep(bufsize, st);
    ParseNameStep(bufsize, st[..10], n - 10, st[10..]);
    NameInPlace(st, n);
  }

  /** `data` holds the file size and what follows the name size in the first `n` bytes. */
  predicate NameIn(data: seq<byte>, st: seq<byte>, n: nat)
    requires 10 < n <= |st|
  {
    |data| >= n - 2 && data[..8] == st[..8] && data[8..n - 2] == st[10..n]
  }

  lemma NameInPlace(st: seq<byte>, n: nat)
    requires 10 < n <= |st|
    ensures NameIn(Overlay(st[..10], 8, st[10..][..n - 10]), st, n)
  {
    var w := st[10..][..n - 10];
    assert w == st[10..n] && st[..10][..8] == st[..8];
    Apart(st[..8], w);
  }

  lemma ParseNameStep(bufsize: nat, hdr: seq<byte>, fn: nat, st: seq<byte>)
    requires bufsize >= 10 && |hdr| == 10 && 1 <= fn <= |st|
    ensures ParseName(bufsize, hdr, fn, st)
            == Prepend([Slot(Overlay(hdr, 8, st[..fn]), fn)], ParseData(bufsize, FromLe(hdr[..8]), st[fn..]))
  {
  }

  lemma ParseDataStep(bufsize: nat, rem: nat, st: seq<byte>)
    requires bufsize >= 10 && rem > 0 && |st| >= Min(bufsize, rem)
    ensures var want := Min(bufsize, rem);
            ParseData(bufsize, rem, st)
            == Prepend([Slot(st[..want], want)], ParseData(bufsize, rem - want, st[want..]))
  {
  }

  class Socket {
    var data: seq<byte>

    constructor (d: seq<byte>)
      ensures data == d
    {
      data := d;
    }

    /** recv: any positive part of what is left, and nothing only at the end of the stream. */
    method Recv(max: nat) returns (r: seq<byte>)
      requires max > 0
      modifies this
      ensures r + data == old(data) && |r| <= max
      ensures r == [] <==> old(data) == []
    {
      if data == [] {
        r := [];
      } else {
        var k :| 1 <= k <= max && k <= |data|;
        r, data := data[..k], data[k..];
      }
    }
  }

  ghost function Rest(bufsize: nat, newfile: bool, fn: nat, buf: seq<byte>, rem: nat, st: seq<byte>): Parsed
    requires bufsize >= 10 && (newfile && fn > 0 ==> |buf| == 10)
  {
    if newfile && fn == 0 then ParseFile(bufsize, st)
    else if newfile then ParseName(bufsize, buf, fn, st)
    else ParseData(bufsize, rem, st)
  }

  /** netread: the published buffers depend on the stream alone, not on how recv cuts it. */
  method NetRead(sock: Socket, bufsize: nat) returns (slots: seq<Slot>, ending: Ending)
    requires bufsize >= 10
    modifies sock
    ensures Parsed(slots, ending) == ParseFile(bufsize, old(sock.data))
  {
    ghost var whole := ParseFile(bufsize, sock.data);
    var newfile, fn: nat, rem: nat, buf: seq<byte> := true, 0, 0, [];
    slots := [];
    while true
      invariant !newfile ==> rem > 0
      invariant newfile && fn > 0 ==> |buf| == 10 && rem == FromLe(buf[..8]) && 1 <= fn <= bufsize - 8
      invariant Prepend(slots, Rest(bufsize, newfile, fn, buf, rem, sock.data)) == whole
      decreases |sock.data|
    {
      if !newfile || fn == 0 { buf := []; }      // the next ring buffer
      var at := if newfile && fn > 0 then 8 else 0;
      var ntoread := if newfile then (if fn == 0 then 10 else fn) else Min(bufsize, rem);
      ghost var st := sock.data;
      var got: seq<byte> := [];
      while |got| < ntoread
        invariant |got| <= ntoread && got + sock.data == st
      {
        var r := sock.Recv(ntoread - |got|);
        if r == [] {
          assert got == st;
          if |got| > 0 { slots := slots + [Slot(Overlay(buf, at, got), |got|)]; }
          ending := SocketClosed;
          return;
        }
        got := got + r;
      }
      assert got == st[..ntoread] && sock.data == st[ntoread..];
      ghost var hdr := buf;
      NothingBelow(got);
      buf := Overlay(buf, at, got);
      if newfile {
        if fn == 0 {
          rem := FromLe(buf[..8]);
          var short := AsShort(FromLe(buf[8..10]));
          assert buf == st[..10];
          assert st[..10][8..10] == st[8..10];
          ParseFileStep(bufsize, st);
          match NameError(short, bufsize) {
            case Some(e) =>
              ending := e;
              return;
            case None => fn := short;
          }
        } else {
          ParseNameStep(bufsize, hdr, fn, st);
          newfile := false;
        }
      } else {
        ParseDataStep(bufsize, rem, st);
        assert buf == got;
        rem := rem - |got|;
      }
      if !newfile {
        PrependTwice(slots, [Slot(buf, |got|)], ParseData(bufsize, rem, sock.data));
        slots := slots + [Slot(buf, |got|)];
        if rem == 0 { newfile, fn := true, 0; }
      }
    }
  }

  // ---------------------------------------------------------------- receiver: file writer

  datatype Writer = Writer(files: seq<File>, open: bool, name: seq<byte>, size: nat, body: seq<byte>)

  function Idle(files: seq<File>): Writer { Writer(files, false, [], 0, []) }

  function CString(s: seq<byte>): seq<byte> {
    if s == [] || s[0] == 0 then [] else [s[0]] + CString(s[1..])
  }

  function Take(s: seq<byte>, n: nat): seq<byte> { s[..Min(n, |s|)] }

  /** Effect of one buffer: a header opens a file, data extends it, and a complete file is closed. */
  function Feed(w: Writer, slot: Slot): Writer {
    if !w.open then
      var size, name := FromLe(Take(slot.data, 8)), CString(slot.data[Min(8, |slot.data|)..]);
      if size == 0 then Idle(w.files + [File(name, [])]) else Writer(w.files, true, name, size, [])
    else
      var body := w.body + Take(slot.data, slot.size);
      if |body| >= w.size then Idle(w.files + [File(w.name, body)]) else w.(body := body)
  }

  function Consume(w: Writer, slots: seq<Slot>): Writer
    decreases |slots|
  {
    if slots == [] then w else Consume(Feed(w, slots[0]), slots[1..])
  }

  function Finish(w: Writer): seq<File> {
    if w.open then w.files + [File(w.name, w.body)] else w.files
  }

  lemma {:induction false} ConsumeAppend(w: Writer, a: seq<Slot>, b: seq<Slot>)
    ensures Consume(w, a + b) == Consume(Consume(w, a), b)
    decreases |a|
  {
    if a == [] {
      assert a + b == b;
    } else {
      ConsumeAppend(Feed(w, a[0]), a[1..], b);
      assert (a + b)[1..] == a[1..] + b;
    }
  }

  /** vsib_recv's main: nested loops over files and buffers. */
  method WriteFiles(slots: seq<Slot>) returns (files: seq<File>)
    ensures files == Finish(Consume(Idle([]), slots))
  {
    files := [];
    var k, done := 0, false;
    while !done
      invariant k <= |slots| && (done ==> k == |slots|)
      invariant done ==> files == Finish(Consume(Idle([]), slots[..k]))
      invariant !done ==> Consume(Idle([]), slots[..k]) == Idle(files)
      decreases !done, |slots| - k
    {
      var newfile, completed, size: nat, name: seq<byte>, body: seq<byte> := true, 0, 0, [], [];
      ghost var first := k;
      while newfile || completed < size
        invariant first <= k <= |slots| && (!newfile ==> first < k)
        invariant completed == |body| && !done
        invariant newfile ==> completed == 0 && Consume(Idle([]), slots[..k]) == Idle(files)
        invariant !newfile && completed < size ==>
                    Consume(Idle([]), slots[..k]) == Writer(files, true, name, size, body)
        invariant !newfile && completed >= size ==>
                    Consume(Idle([]), slots[..k]) == Idle(files + [File(name, body)])
        decreases |slots| - k, newfile
      {
        if k == |slots| {                         // nfullbuf is zero
          done := true;
          break;
        }
        var slot := slots[k];
        assert slots[..k + 1] == slots[..k] + [slot];
        ConsumeAppend(Idle([]), slots[..k], [slot]);
        assert [slot][1..] == [];
        if newfile {
          newfile, size := false, FromLe(Take(slot.data, 8));
          name := CString(slot.data[Min(8, |slot.data|)..]);
        } else {
          var wrote := Take(slot.data, slot.size);
          body, completed := body + wrote, completed + |wrote|;
        }
        k := k + 1;
      }
      if !newfile { files := files + [File(name, body)]; }
    }
    assert slots[..k] == slots;
  }

  // ---------------------------------------------------------------- round trip

  /** Limits within which the two programs agree on the format. */
  predicate Sendable(f: File, bufsize: nat) {
    && f.name != [] && 0 !in f.name
    && |f.name| + 1 <= 32767 && |f.name| + 1 <= bufsize - 8
    && |f.content| < Pow256(8)
  }

  function DataSlots(content: seq<byte>, bufsize: nat): seq<Slot>
    requires bufsize > 0
  {
    if content == [] then [] else
    var want := Min(bufsize, |content|);
    [Slot(content[..want], want)] + DataSlots(content[want..], bufsize)
  }

  function FileSlots(f: File, bufsize: nat): seq<Slot>
    requires bufsize > 0
  {
    [HeaderSlot(f)] + DataSlots(f.content, bufsize)
  }

  function AllSlots(files: seq<File>, bufsize: nat): seq<Slot>
    requires bufsize > 0
  {
    if files == [] then [] else FileSlots(files[0], bufsize) + AllSlots(files[1..], bufsize)
  }

  lemma {:induction false} ParseContent(bufsize: nat, content: seq<byte>, rest: seq<byte>)
    requires bufsize >= 10
    ensures ParseData(bufsize, |content|, content + rest)
            == Prepend(DataSlots(content, bufsize), ParseFile(bufsize, rest))
    decreases |content|
  {
    if content == [] {
      assert content + rest == rest;
      assert DataSlots(content, bufsize) + ParseFile(bufsize, rest).slots == ParseFile(bufsize, rest).slots;
    } else {
      var want := Min(bufsize, |content|);
      ParseContent(bufsize, content[want..], rest);
      assert (content + rest)[..want] == content[..want];
      assert (content + rest)[want..] == content[want..] + rest;
      var s, d, p := [Slot(content[..want], want)], DataSlots(content[want..], bufsize), ParseFile(bufsize, rest).slots;
      assert s + (d + p) == s + d + p;
    }
  }

  lemma ParseOne(bufsize: nat, f: File, rest: seq<byte>)
    requires bufsize >= 10 && Sendable(f, bufsize)
    ensures ParseFile(bufsize, Header(f) + f.content + rest)
            == Prepend(FileSlots(f, bufsize), ParseFile(bufsize, rest))
  {
    Assoc(Header(f), f.content, rest);
    ParseHeader(bufsize, f, f.content + rest);
    ParseContent(bufsize, f.content, rest);
    PrependTwice([HeaderSlot(f)], DataSlots(f.content, bufsize), ParseFile(bufsize, rest));
  }

  function HeaderSlot(f: File): Slot { Slot(ToLe(|f.content|, 8) + f.name + [0], |f.name| + 1) }

  /** A header, whatever follows it. */
  lemma ParseHeader(bufsize: nat, f: File, rest: seq<byte>)
    requires bufsize >= 10 && Sendable(f, bufsize)
    ensures ParseFile(bufsize, Header(f) + rest) == Prepend([HeaderSlot(f)], ParseData(bufsize, |f.content|, rest))
  {
    var st, fn := Header(f) + rest, |f.name| + 1;
    HeaderBytes(f, bufsize, rest);
    TwoBytes(fn);
    TwoBytesValue(ToLe(fn, 2));
    LeRoundTrip(|f.content|, 8);
    ParseNameStep(bufsize, st[..10], fn, st[10..]);
  }

  /** Where the header's fields lie in the stream. */
  lemma HeaderBytes(f: File, bufsize: nat, rest: seq<byte>)
    requires Sendable(f, bufsize)
    ensures var st, fn, size := Header(f) + rest, |f.name| + 1, ToLe(|f.content|, 8);
      && |st| >= 10 + fn && st[8..10] == ToLe(fn, 2) && st[..10][..8] == size
      && st[10..][..fn] == f.name + [0] && st[10..][fn..] == rest
      && Overlay(st[..10], 8, f.name + [0]) == size + f.name + [0]
  {
    var fn, size, two, name := |f.name| + 1, ToLe(|f.content|, 8), ToLe(|f.name| + 1, 2), f.name + [0];
    assert name[..fn] == name && Header(f) == size + two + name;
    Assoc(size + two, name, rest);
    Fields(size, two, name + rest);
    Apart(name, rest);
    Apart(size, two);
    Assoc(size, f.name, [0]);
  }

  lemma {:induction false} ParseFrame(bufsize: nat, files: seq<File>)
    requires bufsize >= 10 && forall i :: 0 <= i < |files| ==> Sendable(files[i], bufsize)
    ensures ParseFile(bufsize, Frame(files)) == Parsed(AllSlots(files, bufsize), SocketClosed)
  {
    if files != [] {
      ParseFrame(bufsize, files[1..]);
      ParseOne(bufsize, files[0], Frame(files[1..]));
    }
  }

  lemma {:induction false} CStringOf(s: seq<byte>)
    requires 0 !in s
    ensures CString(s + [0]) == s
  {
    if s == [] {
      assert s + [0] == [0];
    } else {
      CStringOf(s[1..]);
      assert (s + [0])[1..] == s[1..] + [0];
    }
  }

  lemma {:induction false} ConsumeContent(w: Writer, content: seq<byte>, bufsize: nat)
    requires bufsize > 0 && w.open && content != [] && |w.body| + |content| == w.size
    ensures Consume(w, DataSlots(content, bufsize)) == Idle(w.files + [File(w.name, w.body + content)])
    decreases |content|
  {
    var want := Min(bufsize, |content|);
    var slots := DataSlots(content, bufsize);
    var head, rest := content[..want], content[want..];
    assert head + rest == content && slots[0] == Slot(head, want) && slots[1..] == DataSlots(rest, bufsize);
    assert Take(head, want) == head;
    if rest != [] {
      ConsumeContent(w.(body := w.body + head), rest, bufsize);
      assert w.body + head + rest == w.body + content;
    } else {
      assert head == content;
    }
  }

  lemma FeedHeader(done: seq<File>, f: File, size: seq<byte>, n: nat)
    requires 0 !in f.name && |size| == 8 && FromLe(size) == |f.content|
    ensures Feed(Idle(done), Slot(size + f.name + [0], n))
            == if f.content == [] then Idle(done + [f]) else Writer(done, true, f.name, |f.content|, [])
  {
    var hdr := size + f.name + [0];
    assert Take(hdr, 8) == size && hdr[8..] == f.name + [0];
    CStringOf(f.name);
  }

  lemma ConsumeOne(done: seq<File>, f: File, bufsize: nat)
    requires bufsize > 0 && Sendable(f, bufsize)
    ensures Consume(Idle(done), FileSlots(f, bufsize)) == Idle(done + [f])
  {
    var size := ToLe(|f.content|, 8);
    LeRoundTrip(|f.content|, 8);
    FeedHeader(done, f, size, |f.name| + 1);
    assert FileSlots(f, bufsize)[1..] == DataSlots(f.content, bufsize);
    if f.content != [] {
      ConsumeContent(Writer(done, true, f.name, |f.content|, []), f.content, bufsize);
      assert [] + f.content == f.content;
    }
  }

  lemma {:induction false} ConsumeAll(done: seq<File>, files: seq<File>, bufsize: nat)
    requires bufsize > 0 && forall i :: 0 <= i < |files| ==> Sendable(files[i], bufsize)
    ensures Consume(Idle(done), AllSlots(files, bufsize)) == Idle(done + files)
    decreases |files|
  {
    if files == [] {
      assert done + files == done;
    } else {
      var one, more := FileSlots(files[0], bufsize), AllSlots(files[1..], bufsize);
      ConsumeAppend(Idle(done), one, more);
      ConsumeOne(done, files[0], bufsize);
      ConsumeAll(done + [files[0]], files[1..], bufsize);
      MoveFirst(done, files);
    }
  }

  lemma MoveFirst<T>(done: seq<T>, s: seq<T>)
    requires s != []
    ensures done + [s[0]] + s[1..] == done + s
  {
  }

  /** Files written from a stream: the receiver's two threads composed. */
  function Received(bufsize: nat, st: seq<byte>): seq<File>
    requires bufsize >= 10
  {
    Finish(Consume(Idle([]), ParseFile(bufsize, st).slots))
  }

  /** The receiver reconstructs exactly the names and contents that were framed. */
  lemma RoundTrip(bufsize: nat, files: seq<File>)
    requires bufsize >= 10 && forall i :: 0 <= i < |files| ==> Sendable(files[i], bufsize)
    ensures Received(bufsize, Frame(files)) == files
    ensures ParseFile(bufsize, Frame(files)).ending == SocketClosed
  {
    ParseFrame(bufsize, files);
    ConsumeAll([], files, bufsize);
    assert [] + files == files;
  }

  lemma {:induction false} NamedAll(files: seq<File>)
    requires forall i :: 0 <= i < |files| ==> files[i].name != []
    ensures Named(files) == files
  {
    if files != [] { NamedAll(files[1..]); }
  }

  lemma {:induction false} ParseCut(bufsize: nat, part: seq<byte>, rem: nat)
    requires bufsize >= 10 && |part| < rem
    ensures ParseData(bufsize, rem, part) == Parsed(DataSlots(part, bufsize), SocketClosed)
    decreases |part|
  {
    if |part| >= bufsize {
      ParseCut(bufsize, part[bufsize..], rem - bufsize);
    } else if part != [] {
      assert part[..|part|] == part && part[|part|..] == [];
      assert DataSlots([], bufsize) == [];
    }
  }

  lemma {:induction false} ConsumeCut(w: Writer, part: seq<byte>, bufsize: nat)
    requires bufsize > 0 && w.open && |w.body| + |part| < w.size
    ensures Consume(w, DataSlots(part, bufsize)) == w.(body := w.body + part)
    decreases |part|
  {
    if part == [] {
      assert w.body + part == w.body;
    } else {
      var want, slots := Min(bufsize, |part|), DataSlots(part, bufsize);
      var head, rest := part[..want], part[want..];
      assert head + rest == part && slots[0] == Slot(head, want) && slots[1..] == DataSlots(rest, bufsize);
      assert Take(head, want) == head;
      ConsumeCut(w.(body := w.body + head), rest, bufsize);
      assert w.body + head + rest == w.body + part;
    }
  }

  lemma {:induction false} ParseFrameThen(bufsize: nat, files: seq<File>, rest: seq<byte>)
    requires bufsize >= 10 && forall i :: 0 <= i < |files| ==> Sendable(files[i], bufsize)
    ensures ParseFile(bufsize, Frame(files) + rest) == Prepend(AllSlots(files, bufsize), ParseFile(bufsize, rest))
  {
    var p := ParseFile(bufsize, rest);
    if files == [] {
      assert Frame(files) + rest == rest && [] + p.slots == p.slots;
    } else {
      ParseFrameThen(bufsize, files[1..], rest);
      ParseOne(bufsize, files[0], Frame(files[1..]) + rest);
      Assoc(FrameOf(files[0]), Frame(files[1..]), rest);
      PrependTwice(FileSlots(files[0], bufsize), AllSlots(files[1..], bufsize), p);
    }
  }

  /** A file whose content is cut off by the end of the stream. */
  lemma ParseCutFile(bufsize: nat, f: File, part: seq<byte>)
    requires bufsize >= 10 && Sendable(f, bufsize) && |part| < |f.content|
    ensures ParseFile(bufsize, Header(f) + part) == Parsed([HeaderSlot(f)] + DataSlots(part, bufsize), SocketClosed)
  {
    ParseHeader(bufsize, f, part);
    ParseCut(bufsize, part, |f.content|);
  }

  /** A stream that ends inside the content of a file gives the files before it and what came of it. */
  lemma TruncatedContent(bufsize: nat, files: seq<File>, f: File, part: seq<byte>)
    requires bufsize >= 10 && Sendable(f, bufsize) && |part| < |f.content|
    requires forall i :: 0 <= i < |files| ==> Sendable(files[i], bufsize)
    ensures Received(bufsize, Frame(files) + (Header(f) + part)) == files + [File(f.name, part)]
  {
    var head := HeaderSlot(f);
    var data := DataSlots(part, bufsize);
    ParseFrameThen(bufsize, files, Header(f) + part);
    ParseCutFile(bufsize, f, part);
    ConsumeAppend(Idle([]), AllSlots(files, bufsize), [head] + data);
    ConsumeAll([], files, bufsize);
    assert [] + files == files && ([head] + data)[1..] == data;
    LeRoundTrip(|f.content|, 8);
    FeedHeader(files, f, ToLe(|f.content|, 8), |f.name| + 1);
    ConsumeCut(Writer(files, true, f.name, |f.content|, []), part, bufsize);
    assert [] + part == part;
  }

  /** A stream that ends inside the header of a file gives the files before it and one more buffer with
      the part received, unless that is just the two sizes. */
  lemma TruncatedHeader(bufsize: nat, files: seq<File>, f: File, n: nat)
    requires bufsize >= 10 && Sendable(f, bufsize) && 0 < n < |Header(f)|
    requires forall i :: 0 <= i < |files| ==> Sendable(files[i], bufsize)
    ensures var part, all := Header(f)[..n], AllSlots(files, bufsize);
      var p := ParseFile(bufsize, Frame(files) + part);
      && p.ending == SocketClosed
      && (n < 10 ==> p.slots == all + [Slot(part, n)])
      && (n == 10 ==> p.slots == all)
      && (n > 10 ==> exists slot :: p.slots == all + [slot] && slot.size == n - 10 && NameIn(slot.data, part, n))
  {
    var part := Header(f)[..n];
    ParseFrameThen(bufsize, files, part);
    if n >= 10 {
      HeaderBytes(f, bufsize, []);
      assert Header(f) + [] == Header(f);
      CutHeader(bufsize, f, n);
      if n > 10 {
        assert part[10..] == part[10..][..n - 10];
        NameInPlace(part, n);
        var slot := Slot(Overlay(part[..10], 8, part[10..]), n - 10);
        assert ParseFile(bufsize, part).slots == [slot];
      }
    }
  }

  lemma CutHeader(bufsize: nat, f: File, n: nat)
    requires bufsize >= 10 && Sendable(f, bufsize) && 10 <= n < |Header(f)|
    ensures var part := Header(f)[..n]; var name := part[10..];
      ParseFile(bufsize, part) ==
      Parsed(if name == [] then [] else [Slot(Overlay(part[..10], 8, name), n - 10)], SocketClosed)
  {
    var part, fn := Header(f)[..n], |f.name| + 1;
    HeaderBytes(f, bufsize, []);
    assert Header(f) + [] == Header(f);
    assert (f.name + [0])[..NameSize(f)] == f.name + [0];
    assert part[8..10] == Header(f)[8..10];
    TwoBytes(fn);
    TwoBytesValue(ToLe(fn, 2));
    ParseFileStep(bufsize, part);
    CutName(bufsize, part[..10], fn, part[10..]);
  }

  lemma CutName(bufsize: nat, hdr: seq<byte>, fn: nat, name: seq<byte>)
    requires bufsize >= 10 && |hdr| == 10 && |name| < fn
    ensures ParseName(bufsize, hdr, fn, name) ==
            Parsed(if name == [] then [] else [Slot(Overlay(hdr, 8, name), |name|)], SocketClosed)
  {
  }

  /** Sender buffers, any read sizes, any cuts in the network stream, receiver: the files come back. */
  method Transfer(files: seq<File>, sendsize: nat, recvsize: nat) returns (out: seq<File>, fits: bool)
    requires sendsize > 0 && recvsize >= 10
    requires forall i :: 0 <= i < |files| ==> Sendable(files[i], recvsize)
    ensures out == files && (fits <==> HeadersFit(files, sendsize))
  {
    var items;
    items, fits := FillBuffers(files, sendsize);
    var sock := new Socket(Flatten(items));
    var slots, ending := NetRead(sock, recvsize);
    out := WriteFiles(slots);
    NamedAll(files);
    RoundTrip(recvsize, files);
  }

  /** The same through the sender's threads: every interleaving of main and netwrite on a ring of
      three or more buffers that runs to its end delivers the files. */
  lemma {:induction false} ThreadsDeliverFiles(c: HandoverRing.Config, tr: seq<HandoverRing.State>,
                            files: seq<File>, recvsize: nat)
    requires HandoverRing.Run(c, tr) && c.nbuf >= 3 && HandoverRing.Halted(c, tr[|tr| - 1])
    requires Flatten(c.items) == Frame(files)
    requires recvsize >= 10 && forall i :: 0 <= i < |files| ==> Sendable(files[i], recvsize)
    ensures Received(recvsize, tr[|tr| - 1].sent) == files
  {
    HandoverRing.EveryMaximalRunDelivers(c, tr);
    RoundTrip(recvsize, files);
  }

  // ---------------------------------------------------------------- the receiver's threads

  /** The buffers that main got, given those that the network thread published. */
  function Got(taken: seq<ReceiverRing.Taken>, slots: seq<Slot>): seq<Slot>
    requires forall k :: 0 <= k < |taken| ==> taken[k].item.Some? && taken[k].item.value < |slots|
  {
    seq(|taken|, k requires 0 <= k < |taken| => slots[taken[k].item.value])
  }

  /** Through the receiver's threads: every interleaving of netread and main that runs to its end, of a
      stream that does not come back to the first buffer or in which main is not overtaken, writes
      the files that were framed. */
  lemma ThreadsWriteFiles(c: ReceiverRing.Config, tr: seq<ReceiverRing.State>, files: seq<File>, bufsize: nat)
    requires ReceiverRing.Run(c, tr) && ReceiverRing.Halted(c, tr[|tr| - 1])
    requires ReceiverRing.Short(c) || ReceiverRing.NeverOvertaken(c, tr)
    requires bufsize >= 10 && forall i :: 0 <= i < |files| ==> Sendable(files[i], bufsize)
    requires ReceiverRing.Fillings(c) == |ParseFile(bufsize, Frame(files)).slots|
    ensures var slots, taken := ParseFile(bufsize, Frame(files)).slots, tr[|tr| - 1].taken;
      && (forall k :: 0 <= k < |taken| ==> taken[k].item.Some? && taken[k].item.value < |slots| && taken[k].whole)
      && Finish(Consume(Idle([]), Got(taken, slots))) == files
  {
    var slots, taken := ParseFile(bufsize, Frame(files)).slots, tr[|tr| - 1].taken;
    ReceiverRing.EveryMaximalRunDelivers(c, tr);
    assert ReceiverRing.InOrder(taken);
    assert Got(taken, slots) == slots;
    RoundTrip(bufsize, files);
  }
}
