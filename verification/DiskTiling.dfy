/** dada_dbdisk: an observation is cut into files.  File sizes are rounded so that files end on a
    multiple of the resolution; the rounded size is written to the header and read back. */
module DiskTiling {
  import opened Common

  /** `multiple` divides the end of the file: round to the nearer multiple, down on a tie. */
  function Gap(offset: nat, size: nat, multiple: nat): nat
    requires multiple > 0
  {
    (offset + size) % multiple
  }

  function Rounded(offset: nat, size: nat, multiple: nat): int
    requires multiple > 0
  {
    size - Gap(offset, size, multiple) + (if Gap(offset, size, multiple) > multiple / 2 then multiple else 0)
  }

  /** The rounded size is usable, that is neither zero (taken for "no limit") nor negative (wrapped
      around), exactly when the size is larger than the gap or the gap is rounded up.  For a file that
      starts on a multiple this says that the size is more than half of one. */
  lemma RoundedUsable(offset: nat, size: nat, multiple: nat)
    requires multiple > 0
    ensures Rounded(offset, size, multiple) > 0 <==>
            size > Gap(offset, size, multiple) || Gap(offset, size, multiple) > multiple / 2
    ensures offset % multiple == 0 ==> (Rounded(offset, size, multiple) > 0 <==> size > multiple / 2)
  {
    if offset % multiple == 0 {
      GapOnGrid(offset, size, multiple);
      var q := size / multiple;
      assert size == multiple * q + size % multiple;
      MulBound(multiple, q);
    }
  }

  lemma GapOnGrid(offset: nat, size: nat, multiple: nat)
    requires multiple > 0 && offset % multiple == 0
    ensures Gap(offset, size, multiple) == size % multiple
  {
    var k, q := offset / multiple, size / multiple;
    assert offset == multiple * k && size == multiple * q + size % multiple;
    assert multiple * (k + q) == multiple * k + multiple * q;
    ModUnique(offset + size, multiple, k + q, size % multiple);
  }

  /** The file ends on a nearest multiple, the lower one on a tie. */
  lemma RoundedEnds(offset: nat, size: nat, multiple: nat)
    requires multiple > 0
    ensures (offset + Rounded(offset, size, multiple)) % multiple == 0
    ensures size - multiple / 2 <= Rounded(offset, size, multiple) <= size + multiple / 2
    ensures 2 * Gap(offset, size, multiple) == multiple ==> Rounded(offset, size, multiple) <= size
  {
    var end := offset + size;
    var q := end / multiple;
    assert end == multiple * q + end % multiple;
    assert multiple * (q + 1) == multiple * q + multiple;
    ModUnique(multiple * q, multiple, q, 0);
    ModUnique(multiple * (q + 1), multiple, q + 1, 0);
  }

  lemma MultiplesApart(x: nat, y: nat, multiple: nat)
    requires multiple > 0 && x % multiple == 0 && y % multiple == 0 && x < y
    ensures (y - x) % multiple == 0 && y - x >= multiple
  {
    var j, k := x / multiple, y / multiple;
    assert x == multiple * j && y == multiple * k && multiple * (k - j) == multiple * k - multiple * j;
    ModUnique(y - x, multiple, k - j, 0);
    MulBound(multiple, k - j);
  }

  /** A size that is already a multiple is kept from a multiple on. */
  lemma SameSize(offset: nat, size: nat, multiple: nat)
    requires multiple > 0 && offset % multiple == 0 && size % multiple == 0
    ensures Rounded(offset, size, multiple) == size
  {
    var k, e := offset / multiple, size / multiple;
    assert offset == multiple * k && size == multiple * e && multiple * (k + e) == multiple * k + multiple * e;
    ModUnique(offset + size, multiple, k + e, 0);
  }

  /** From a multiple, a size is rounded to a multiple, which is then kept. */
  lemma RoundedStable(offset: nat, size: nat, multiple: nat)
    requires multiple > 0 && offset % multiple == 0 && size >= multiple
    ensures var r := Rounded(offset, size, multiple);
      r >= multiple && r % multiple == 0 && Rounded(offset + r, r, multiple) == r
  {
    var r := Rounded(offset, size, multiple);
    RoundedEnds(offset, size, multiple);
    MultiplesApart(offset, offset + r, multiple);
    SameSize(offset + r, r, multiple);
  }

  // ---------------------------------------------------------------- file names

  function Digit(d: nat): char
    requires d < 10
  {
    "0123456789"[d]
  }

  function DigitValue(c: char): nat {
    if '0' <= c <= '9' then (c - '0') as nat else 0
  }

  function Decimal(n: nat): (s: string)
    ensures s != [] && forall i :: 0 <= i < |s| ==> '0' <= s[i] <= '9'
  {
    if n < 10 then [Digit(n)] else Decimal(n / 10) + [Digit(n % 10)]
  }

  function FromDecimal(s: string): nat {
    if s == [] then 0 else 10 * FromDecimal(s[..|s| - 1]) + DigitValue(s[|s| - 1])
  }

  function Zeros(n: int): (s: string)
    ensures forall i :: 0 <= i < |s| ==> s[i] == '0'
  {
    if n <= 0 then "" else Zeros(n - 1) + "0"
  }

  /** "%0<width>" */
  function Padded(n: nat, width: nat): string { Zeros(width - |Decimal(n)|) + Decimal(n) }

  /** "%s_%016lu.%06u.dada" */
  function FileName(utc: string, offset: nat, number: nat): string {
    utc + "_" + Padded(offset, 16) + "." + Padded(number, 6) + ".dada"
  }

  lemma DigitRoundTrip(d: nat)
    requires d < 10
    ensures DigitValue(Digit(d)) == d
  {
    assert d == 0 || d == 1 || d == 2 || d == 3 || d == 4 || d == 5 || d == 6 || d == 7 || d == 8 || d == 9;
  }

  lemma {:induction false} ZerosValue(n: int)
    ensures FromDecimal(Zeros(n)) == 0
  {
    if n > 0 {
      ZerosValue(n - 1);
      assert Zeros(n)[..|Zeros(n)| - 1] == Zeros(n - 1);
    }
  }

  lemma {:induction false} DecimalRoundTrip(z: int, n: nat)
    ensures FromDecimal(Zeros(z) + Decimal(n)) == n
    decreases n
  {
    var s := Zeros(z) + Decimal(n);
    DigitRoundTrip(n % 10);
    if n < 10 {
      ZerosValue(z);
      assert s[..|s| - 1] == Zeros(z) && s[|s| - 1] == Digit(n);
    } else {
      DecimalRoundTrip(z, n / 10);
      assert s[..|s| - 1] == Zeros(z) + Decimal(n / 10) && s[|s| - 1] == Digit(n % 10);
    }
  }

  lemma UpToDot(a: string, b: string, x: string, y: string)
    requires '.' !in a && '.' !in b && a + "." + x == b + "." + y
    ensures a == b
  {
    var s, t := a + "." + x, b + "." + y;
    assert s[|a|] == '.' && t[|b|] == '.';
    assert forall i :: 0 <= i < |a| ==> s[i] == a[i];
    assert forall i :: 0 <= i < |b| ==> t[i] == b[i];
    assert |a| == |b|;
    assert s[..|a|] == a && t[..|b|] == b;
  }

  /** Files of one observation that start at different offsets have different names, whatever their
      numbers. */
  lemma NamesDiffer(utc: string, a: nat, b: nat, m: nat, n: nat)
    requires a != b
    ensures FileName(utc, a, m) != FileName(utc, b, n)
  {
    if FileName(utc, a, m) == FileName(utc, b, n) {
      NameTail(utc, a, m);
      NameTail(utc, b, n);
      SameOffset(a, b, Padded(m, 6) + ".dada", Padded(n, 6) + ".dada");
    }
  }

  lemma NameTail(utc: string, offset: nat, number: nat)
    ensures |FileName(utc, offset, number)| > |utc|
    ensures FileName(utc, offset, number)[|utc| + 1..] == Padded(offset, 16) + "." + (Padded(number, 6) + ".dada")
  {
    var x, y, z := Padded(offset, 16), Padded(number, 6), ".dada";
    assert FileName(utc, offset, number) == utc + "_" + (x + "." + (y + z));
    Apart(utc + "_", x + "." + (y + z));
  }

  function Pow10(k: nat): (p: nat)
    ensures p > 0
  {
    if k == 0 then 1 else 10 * Pow10(k - 1)
  }

  /** The decimal digit of weight `10^i`, as a character. */
  function DigitAt(n: nat, i: nat): char { '0' + (n / Pow10(i) % 10) as char }

  lemma DigitBelow(n: nat, i: nat)
    requires i > 0
    ensures DigitAt(n, i) == DigitAt(n / 10, i - 1)
  {
    DivTwice(n, 10, Pow10(i - 1));
  }

  lemma DigitIs(d: nat)
    requires d < 10
    ensures Digit(d) == '0' + d as char
  {
    assert d == 0 || d == 1 || d == 2 || d == 3 || d == 4 || d == 5 || d == 6 || d == 7 || d == 8 || d == 9;
  }

  lemma {:induction false} ZeroDigits(i: nat)
    ensures DigitAt(0, i) == '0'
  {
    if i > 0 {
      DigitBelow(0, i);
      ZeroDigits(i - 1);
    }
  }

  lemma {:induction false} ZerosLength(z: nat)
    ensures |Zeros(z)| == z
  {
    if z > 0 { ZerosLength(z - 1); }
  }

  /** Digits from the right, the padding included. */
  lemma {:induction false} DigitsFromRight(z: nat, n: nat, i: nat)
    requires i < z + |Decimal(n)|
    ensures |Zeros(z) + Decimal(n)| == z + |Decimal(n)|
    ensures (Zeros(z) + Decimal(n))[z + |Decimal(n)| - 1 - i] == DigitAt(n, i)
    decreases n
  {
    ZerosLength(z);
    DigitIs(n % 10);
    if i == 0 {
      assert Pow10(0) == 1;
    } else if n < 10 {
      DigitBelow(n, i);
      ZeroDigits(i - 1);
    } else {
      DigitBelow(n, i);
      DigitsFromRight(z, n / 10, i - 1);
    }
  }

  lemma {:induction false} DecimalFits(n: nat, width: nat)
    requires width > 0 && n < Pow10(width)
    ensures |Decimal(n)| <= width
  {
    if width > 1 && n >= 10 {
      DecimalFits(n / 10, width - 1);
    }
  }

  /** A number that fits its field fills it with its decimal digits. */
  lemma PaddedDigits(n: nat, width: nat)
    requires width > 0 && n < Pow10(width)
    ensures |Padded(n, width)| == width
    ensures forall i :: 0 <= i < width ==> Padded(n, width)[width - 1 - i] == DigitAt(n, i)
  {
    DecimalFits(n, width);
    forall i | 0 <= i < width ensures |Padded(n, width)| == width && Padded(n, width)[width - 1 - i] == DigitAt(n, i) {
      DigitsFromRight(width - |Decimal(n)|, n, i);
    }
    DigitsFromRight(width - |Decimal(n)|, n, 0);
  }

  /** Where everything lies in a file name: UTC_START, 16 digits of offset and 6 of the number. */
  lemma NameLayout(utc: string, offset: nat, number: nat)
    requires offset < Pow10(16) && number < Pow10(6)
    ensures var s, u := FileName(utc, offset, number), |utc|;
      && |s| == u + 29 && s[..u] == utc && s[u] == '_' && s[u + 17] == '.' && s[u + 24..] == ".dada"
      && (forall i :: 0 <= i < 16 ==> s[u + 16 - i] == DigitAt(offset, i))
      && (forall i :: 0 <= i < 6 ==> s[u + 23 - i] == DigitAt(number, i))
  {
    PaddedDigits(offset, 16);
    PaddedDigits(number, 6);
    NameParts(utc, Padded(offset, 16), Padded(number, 6));
    NameDigits(FileName(utc, offset, number), |utc| + 1, offset, 16);
    NameDigits(FileName(utc, offset, number), |utc| + 18, number, 6);
  }

  lemma NameDigits(s: string, from: nat, n: nat, width: nat)
    requires width > 0 && n < Pow10(width) && from + width <= |s| && s[from..from + width] == Padded(n, width)
    ensures forall i :: 0 <= i < width ==> s[from + width - 1 - i] == DigitAt(n, i)
  {
    PaddedDigits(n, width);
    var x := Padded(n, width);
    forall i | 0 <= i < width ensures s[from + width - 1 - i] == DigitAt(n, i) {
      assert x[width - 1 - i] == DigitAt(n, i);
    }
  }

  lemma NameParts(utc: string, x: string, y: string)
    requires |x| == 16 && |y| == 6
    ensures var s, u := utc + "_" + x + "." + y + ".dada", |utc|;
      && |s| == u + 29 && s[..u] == utc && s[u] == '_' && s[u + 17] == '.' && s[u + 24..] == ".dada"
      && s[u + 1..u + 17] == x && s[u + 18..u + 24] == y
  {
  }

  lemma PaddedValue(n: nat, width: nat)
    ensures '.' !in Padded(n, width) && FromDecimal(Padded(n, width)) == n
  {
    DecimalRoundTrip(width - |Decimal(n)|, n);
  }

  lemma SameOffset(a: nat, b: nat, x: string, y: string)
    requires Padded(a, 16) + "." + x == Padded(b, 16) + "." + y
    ensures a == b
  {
    PaddedValue(a, 16);
    PaddedValue(b, 16);
    UpToDot(Padded(a, 16), Padded(b, 16), x, y);
  }

  // ---------------------------------------------------------------- an observation

  /** A file on disk: where it starts, its advertised size, its number and its bytes. */
  datatype OutFile = OutFile(name: string, offset: nat, size: nat, number: nat, bytes: seq<byte>)

  class DbDisk {
    var utc: string            // remembered from the last file
    var obsOffset: nat
    var fileNumber: nat
    var fileSize: nat          // FILE_SIZE of the client's header, 0 when absent
    const rate: nat            // BYTES_PER_SECOND
    const multiple: nat        // resolution, times 512 for O_DIRECT

    constructor (fileSize: nat, rate: nat, multiple: nat)
      ensures this.fileSize == fileSize && this.rate == rate && this.multiple == multiple
      ensures utc == "" && obsOffset == 0 && fileNumber == 0
    {
      utc, obsOffset, fileNumber := "", 0, 0;
      this.fileSize, this.rate, this.multiple := fileSize, rate, multiple;
    }

    function Wanted(): nat
      reads this
    {
      if fileSize == 0 then rate * 10 else fileSize
    }

    /** file_open_function; a size below zero wraps around. */
    method Open(utcStart: string, offset: nat) returns (name: string)
      requires multiple > 0
      modifies this
      ensures utc == utcStart && obsOffset == offset
      ensures fileNumber == if utcStart == old(utc) && offset == old(obsOffset) then old(fileNumber) + 1 else 0
      ensures var r := Rounded(offset, if old(fileSize) > 0 then old(fileSize) else 10 * rate, multiple);
              fileSize == if r >= 0 then r else r % 0x1_0000_0000_0000_0000
      ensures name == FileName(utcStart, offset, fileNumber)
    {
      if utcStart != utc || offset != obsOffset { fileNumber := 0; } else { fileNumber := fileNumber + 1; }
      utc, obsOffset := utcStart, offset;
      name := FileName(utcStart, offset, fileNumber);
      var size := if fileSize == 0 then rate * 10 else fileSize;
      var gap := (offset + size) % multiple;
      Wraps();
      fileSize := Stored(size - gap + (if gap > multiple / 2 then multiple else 0));
    }

    /** One file of the observation: opened, then filled up to its size or the end of the data; a size of
        zero is no limit. */
    method NextFile(utcStart: string, at: nat, rest: seq<byte>) returns (file: OutFile)
      requires multiple > 0
      modifies this
      ensures fileSize == Stored(Rounded(at, old(Wanted()), multiple)) && obsOffset == at
      ensures file.name == FileName(utcStart, at, file.number) && file.offset == at && file.size == fileSize
      ensures file.bytes == rest[..Room(file.size, |rest|)]
      ensures at != old(obsOffset) ==> file.number == 0
    {
      var name := Open(utcStart, at);
      file := OutFile(name, at, fileSize, fileNumber, rest[..Room(fileSize, |rest|)]);
    }

    /** The next file behind `files`; not `ok` when its size was rounded to zero or below. */
    method AddFile(utcStart: string, offset: nat, data: seq<byte>, done: nat, ghost files: seq<OutFile>, ghost first: int)
      returns (file: OutFile, ok: bool)
      requires multiple > 0 && done < |data| && Going(files, utcStart, offset, data, done, multiple, Wanted(), first)
      requires files != [] ==> obsOffset < offset + done
      modifies this
      ensures !ok ==> !Usable(first, |data|, multiple) && (|data| + multiple <= U64 ==> Contents(files + [file]) == data)
      ensures ok ==> file.bytes != [] && obsOffset == offset + done
      ensures ok ==> Going(files + [file], utcStart, offset, data, done + |file.bytes|, multiple, Wanted(), first)
    {
      SizeDecides(files, utcStart, offset, data, done, Wanted(), multiple, first);
      ghost var wanted := Wanted();
      ok := Rounded(offset + done, Wanted(), multiple) > 0;
      file := NextFile(utcStart, offset + done, data[done..]);
      if ok {
        NextTile(files, utcStart, offset, data, done, multiple, wanted, first, file);
      } else {
        Unlimited(files, utcStart, offset, data, done, multiple, wanted, first, file);
      }
    }

    /** dada_client_read with these functions, over the data of an observation from `offset` on.  When
        a file's size is rounded to zero or below, which is no limit or wraps around, that file gets
        all the data that are left, and `ok` is false. */
    method Observe(utcStart: string, offset: nat, data: seq<byte>) returns (files: seq<OutFile>, ok: bool)
      requires multiple > 0
      modifies this
      ensures ok <==> Usable(Rounded(offset, old(Wanted()), multiple), |data|, multiple)
      ensures ok ==> Tiles(files, utcStart, offset, data, multiple)
      ensures |data| + multiple <= U64 ==> Contents(files) == data
    {
      files, ok := [], true;
      var done := 0;
      ghost var first := Rounded(offset, Wanted(), multiple);
      Begins(utcStart, offset, data, multiple, Wanted());
      while done < |data|
        invariant done <= |data| && (files != [] ==> obsOffset < offset + done)
        invariant Going(files, utcStart, offset, data, done, multiple, Wanted(), first)
        decreases |data| - done
      {
        var file;
        file, ok := AddFile(utcStart, offset, data, done, files, first);
        if !ok { return files + [file], false; }
        files, done := files + [file], done + |file.bytes|;
      }
      Finished(files, utcStart, offset, data, multiple, Wanted(), first);
      ok := true;
    }
  }

  const U64: nat := Pow256(8)

  lemma Wraps()
    ensures U64 == 0x1_0000_0000_0000_0000
  {
    Pow256Values();
  }

  /** A size in 64 bits. */
  function Stored(r: int): nat { if r >= 0 then r else r % U64 }

  /** How much of the data a file takes. */
  function Room(size: nat, left: nat): nat { if size == 0 then left else Min(size, left) }

  /** A file of no usable size takes all the rest. */
  lemma Unlimited(files: seq<OutFile>, utc: string, offset: nat, data: seq<byte>, done: nat, multiple: nat,
                  wanted: nat, first: int, f: OutFile)
    requires multiple > 0 && done < |data| && Going(files, utc, offset, data, done, multiple, wanted, first)
    requires Rounded(offset + done, wanted, multiple) <= 0
    requires f.size == Stored(Rounded(offset + done, wanted, multiple))
    requires f.bytes == data[done..][..Room(f.size, |data| - done)]
    ensures |data| + multiple <= U64 ==> Contents(files + [f]) == data
  {
    var r := Rounded(offset + done, wanted, multiple);
    RoundedEnds(offset + done, wanted, multiple);
    if |data| + multiple <= U64 {
      if r < 0 { ModUnique(r, U64, -1, r + U64); }
      ContentsSnoc(files, f);
      assert f.bytes == data[done..];
      assert data[..done] + data[done..] == data;
    }
  }

  /** First sizes that never lead to an unusable one in an observation of `len` bytes: positive, and
      more than half a multiple when a second file follows. */
  predicate Usable(first: int, len: nat, multiple: nat) {
    len > 0 ==> first > 0 && (first < len ==> first > multiple / 2)
  }

  /** Nothing cut short, and the end on a multiple. */
  ghost predicate Full(f: OutFile, multiple: nat)
    requires multiple > 0
  {
    |f.bytes| == f.size && (f.offset + f.size) % multiple == 0
  }

  /** Between two files: `done` bytes are tiled; the next file is to have the size of the last, and
      `first` is the size of the first. */
  ghost predicate Going(files: seq<OutFile>, utc: string, offset: nat, data: seq<byte>, done: nat, multiple: nat,
                        wanted: nat, first: int)
    requires multiple > 0
  {
    && done <= |data| && Tiles(files, utc, offset, data[..done], multiple)
    && (files == [] ==> done == 0 && first == Rounded(offset, wanted, multiple))
    && (files != [] ==> wanted == files[|files| - 1].size && wanted > 0 && files[0].size == first)
    && (files != [] && done < |data| ==> Full(files[|files| - 1], multiple))
    && (|files| > 1 ==> multiple / 2 < first < |data|)
  }

  lemma Begins(utc: string, offset: nat, data: seq<byte>, multiple: nat, wanted: nat)
    requires multiple > 0
    ensures Going([], utc, offset, data, 0, multiple, wanted, Rounded(offset, wanted, multiple))
  {
  }

  lemma Finished(files: seq<OutFile>, utc: string, offset: nat, data: seq<byte>, multiple: nat, wanted: nat,
                 first: int)
    requires multiple > 0 && Going(files, utc, offset, data, |data|, multiple, wanted, first)
    ensures Tiles(files, utc, offset, data, multiple) && Usable(first, |data|, multiple)
  {
    assert data[..|data|] == data;
    if |files| == 1 { assert WellMade(files[0], true, utc, multiple); }
  }

  /** Whether the next size is positive. */
  lemma SizeDecides(files: seq<OutFile>, utc: string, offset: nat, data: seq<byte>, done: nat, wanted: nat,
                    multiple: nat, first: int)
    requires multiple > 0 && done < |data| && Going(files, utc, offset, data, done, multiple, wanted, first)
    ensures var r := Rounded(offset + done, wanted, multiple);
      && (r <= 0 ==> !Usable(first, |data|, multiple))
      && (r > 0 && files != [] ==> multiple / 2 < first < |data|)
  {
    if files != [] { RoundedUsable(offset + done, wanted, multiple); }
    if |files| > 1 { MultipleAtLeast(wanted, multiple); }
  }

  /** The size `r` of the file that starts at `at`, behind `files`. */
  lemma SizeFacts(files: seq<OutFile>, utc: string, offset: nat, data: seq<byte>, done: nat, wanted: nat,
                  multiple: nat, first: int, at: nat, r: int)
    requires multiple > 0 && done < |data| && Going(files, utc, offset, data, done, multiple, wanted, first)
    requires at == offset + done && r == Rounded(at, wanted, multiple) > 0
    ensures (at + r) % multiple == 0
    ensures files != [] ==> at % multiple == 0 && r % multiple == 0
    ensures |files| > 1 ==> r == wanted
  {
    RoundedEnds(at, wanted, multiple);
    if files != [] {
      assert at == files[|files| - 1].offset + files[|files| - 1].size;
      MultiplesApart(at, at + r, multiple);
      if |files| > 1 { SameSize(at, wanted, multiple); }
    }
  }

  /** The next file, of such a size, continues the observation. */
  lemma Extended(files: seq<OutFile>, utc: string, offset: nat, data: seq<byte>, done: nat, multiple: nat,
                 wanted: nat, first: int, f: OutFile)
    requires multiple > 0 && done < |data| && Going(files, utc, offset, data, done, multiple, wanted, first)
    requires f.size > 0 && (f.offset + f.size) % multiple == 0
    requires files == [] ==> f.size == first
    requires files != [] ==> f.offset % multiple == 0 && f.size % multiple == 0 && f.number == 0
    requires files != [] ==> multiple / 2 < first < |data|
    requires |files| > 1 ==> f.size == wanted
    requires f.offset == offset + done && f.name == FileName(utc, f.offset, f.number)
    requires f.bytes == data[done..][..Min(f.size, |data| - done)]
    ensures 0 < |f.bytes| <= |data| - done
    ensures Going(files + [f], utc, offset, data, done + |f.bytes|, multiple, f.size, first)
  {
    NextBytes(data, done, f);
    TilesSnoc(files, utc, offset, data, done, multiple, f);
    GoingOn(files + [f], utc, offset, data, done + |f.bytes|, multiple, f.size, first, f);
  }

  lemma GoingOn(files: seq<OutFile>, utc: string, offset: nat, data: seq<byte>, done: nat, multiple: nat,
                wanted: nat, first: int, last: OutFile)
    requires multiple > 0 && done <= |data| && Tiles(files, utc, offset, data[..done], multiple)
    requires files != [] && files[|files| - 1] == last && wanted == last.size > 0 && files[0].size == first
    requires done < |data| ==> Full(last, multiple)
    requires |files| > 1 ==> multiple / 2 < first < |data|
    ensures Going(files, utc, offset, data, done, multiple, wanted, first)
  {
  }

  lemma NextBytes(data: seq<byte>, done: nat, f: OutFile)
    requires done < |data| && f.size > 0 && f.bytes == data[done..][..Min(f.size, |data| - done)]
    ensures 0 < |f.bytes| <= f.size && done + |f.bytes| <= |data| && f.bytes == data[done..done + |f.bytes|]
    ensures done + |f.bytes| < |data| ==> |f.bytes| == f.size
  {
  }

  /** A file made by NextFile continues the observation. */
  lemma NextTile(files: seq<OutFile>, utc: string, offset: nat, data: seq<byte>, done: nat, multiple: nat,
                 wanted: nat, first: int, f: OutFile)
    requires multiple > 0 && done < |data| && Going(files, utc, offset, data, done, multiple, wanted, first)
    requires f.offset == offset + done && f.size == Rounded(f.offset, wanted, multiple) > 0
    requires f.name == FileName(utc, f.offset, f.number) && f.bytes == data[done..][..Min(f.size, |data| - done)]
    requires files != [] ==> f.number == 0
    ensures 0 < |f.bytes| <= |data| - done
    ensures Going(files + [f], utc, offset, data, done + |f.bytes|, multiple, f.size, first)
  {
    SizeDecides(files, utc, offset, data, done, wanted, multiple, first);
    SizeFacts(files, utc, offset, data, done, wanted, multiple, first, f.offset, f.size);
    Extended(files, utc, offset, data, done, multiple, wanted, first, f);
  }

  lemma MultipleAtLeast(x: nat, multiple: nat)
    requires multiple > 0 && x > 0 && x % multiple == 0
    ensures x >= multiple
  {
    if x < multiple { ModUnique(x, multiple, 0, x); }
  }

  function Contents(files: seq<OutFile>): seq<byte> {
    if files == [] then [] else files[0].bytes + Contents(files[1..])
  }

  lemma {:induction false} ContentsSnoc(files: seq<OutFile>, f: OutFile)
    ensures Contents(files + [f]) == Contents(files) + f.bytes
  {
    if files == [] {
      assert files + [f] == [f] && [f][1..] == [];
    } else {
      ContentsSnoc(files[1..], f);
      assert (files + [f])[1..] == files[1..] + [f];
    }
  }

  /** One file: aligned start unless it is the first, positive size, not over-full, named by offset. */
  ghost predicate WellMade(f: OutFile, first: bool, utc: string, multiple: nat)
    requires multiple > 0
  {
    && f.size > 0 && 0 < |f.bytes| <= f.size
    && f.name == FileName(utc, f.offset, f.number)
    && (!first ==> f.offset % multiple == 0 && f.number == 0)
  }

  /** `b` follows `a`, which is full. */
  predicate Follows(a: OutFile, b: OutFile) { b.offset == a.offset + a.size && |a.bytes| == a.size }

  /** An observation on disk: its data in order, files that start where the one before ended, and on
      a multiple from the second on, of one constant size from the second on. */
  ghost predicate Tiles(files: seq<OutFile>, utc: string, offset: nat, data: seq<byte>, multiple: nat)
    requires multiple > 0
  {
    && Contents(files) == data
    && (forall i :: 0 <= i < |files| ==> WellMade(files[i], i == 0, utc, multiple))
    && (files != [] ==> files[0].offset == offset
                        && offset + |data| == files[|files| - 1].offset + |files[|files| - 1].bytes|)
    && (forall i :: 0 <= i < |files| - 1 ==> Follows(files[i], files[i + 1]))
    && (forall i :: 1 <= i < |files| ==> files[i].size == files[1].size && files[i].size % multiple == 0)
  }

  lemma TilesSnoc(files: seq<OutFile>, utc: string, offset: nat, data: seq<byte>, done: nat, multiple: nat, f: OutFile)
    requires multiple > 0 && done < |data| && done + |f.bytes| <= |data|
    requires Tiles(files, utc, offset, data[..done], multiple)
    requires f.bytes == data[done..done + |f.bytes|] && f.offset == offset + done
    requires WellMade(f, files == [], utc, multiple)
    requires files == [] ==> done == 0
    requires files != [] ==> |files[|files| - 1].bytes| == files[|files| - 1].size && f.size % multiple == 0
    requires |files| > 1 ==> f.size == files[|files| - 1].size
    ensures Tiles(files + [f], utc, offset, data[..done + |f.bytes|], multiple)
  {
    var all := files + [f];
    ContentsSnoc(files, f);
    assert data[..done] + f.bytes == data[..done + |f.bytes|];
    assert all[|files|] == f && forall i :: 0 <= i < |files| ==> all[i] == files[i];
  }

  lemma {:induction false} OffsetsGrow(files: seq<OutFile>, utc: string, offset: nat, data: seq<byte>, multiple: nat, i: nat, j: nat)
    requires multiple > 0 && Tiles(files, utc, offset, data, multiple) && i < j < |files|
    ensures files[i].offset < files[j].offset
    decreases j - i
  {
    assert Follows(files[j - 1], files[j - 1 + 1]) && WellMade(files[j - 1], j - 1 == 0, utc, multiple);
    if i < j - 1 { OffsetsGrow(files, utc, offset, data, multiple, i, j - 1); }
  }

  /** No two files of an observation get the same name. */
  lemma DistinctNames(files: seq<OutFile>, utc: string, offset: nat, data: seq<byte>, multiple: nat)
    requires multiple > 0 && Tiles(files, utc, offset, data, multiple)
    ensures forall i, j :: 0 <= i < j < |files| ==> files[i].name != files[j].name
  {
    forall i, j | 0 <= i < j < |files| ensures files[i].name != files[j].name {
      OffsetsGrow(files, utc, offset, data, multiple, i, j);
      assert WellMade(files[i], i == 0, utc, multiple) && WellMade(files[j], j == 0, utc, multiple);
      NamesDiffer(utc, files[i].offset, files[j].offset, files[i].number, files[j].number);
    }
  }
}
