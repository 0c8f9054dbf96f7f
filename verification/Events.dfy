/** dada_dbevent: trigger times become byte ranges, overlapping ranges are fused in place, and the
    survivors are copied out of a stream that is only read forwards. */
module Events {
  import opened Common

  // ---------------------------------------------------------------- times to bytes

  /** Whole seconds and a decimal fraction `numer / denom`. */
  datatype Time = Time(secs: nat, numer: nat, denom: nat)

  predicate ValidTime(t: Time) { t.numer < t.denom }

  predicate NotAfter(a: Time, b: Time) {
    a.secs < b.secs || (a.secs == b.secs && a.numer * b.denom <= b.numer * a.denom)
  }

  /** Byte of a time, or -1 before the start of the observation. */
  function ByteOffset(utcStart: nat, rate: nat, t: Time): int
    requires ValidTime(t)
  {
    if utcStart > 0 && t.secs >= utcStart
    then (t.secs - utcStart) * rate + t.numer * rate / t.denom else -1
  }

  /** Byte `b` is the one that time `t` falls in, to the fraction of a second. */
  predicate FallsIn(utcStart: nat, rate: nat, t: Time, b: int) {
    t.secs >= utcStart &&
    var exact := ((t.secs - utcStart) * t.denom + t.numer) * rate;
    b * t.denom <= exact < (b + 1) * t.denom
  }

  /** The offset of a time in the observation is the byte it falls in; any other time has -1. */
  lemma OffsetExact(utcStart: nat, rate: nat, t: Time)
    requires ValidTime(t)
    ensures var b := ByteOffset(utcStart, rate, t);
      && (utcStart > 0 && t.secs >= utcStart ==> b >= 0 && FallsIn(utcStart, rate, t, b))
      && (utcStart == 0 || t.secs < utcStart ==> b == -1)
  {
    if utcStart > 0 && t.secs >= utcStart {
      var s, n, d := t.secs - utcStart, t.numer * rate, t.denom;
      var q := n / d;
      assert n == d * q + n % d;
      assert (s * d + t.numer) * rate == (s * rate) * d + n by { WholeAndFraction(s, d, t.numer, rate); }
      assert (s * rate + q) * d == (s * rate) * d + d * q by { Products(s * rate, q, d); }
      assert (s * rate + q + 1) * d == (s * rate + q) * d + d by { Products(s * rate + q, 1, d); }
      Scale(rate, 0, s);
      Scale(rate, 0, t.numer);
      AtMostQuotient(0, n, d);
    }
  }

  lemma WholeAndFraction(s: nat, d: nat, numer: nat, rate: nat)
    ensures (s * d + numer) * rate == (s * rate) * d + numer * rate
  {
    assert (s * d + numer) * rate == (s * d) * rate + numer * rate;
    assert (s * d) * rate == (s * rate) * d;
  }

  lemma Products(a: int, b: int, d: int)
    ensures (a + b) * d == a * d + d * b
  {
  }

  lemma AtMostQuotient(x: int, n: int, d: int)
    requires d > 0 && x * d <= n
    ensures x <= n / d
  {
    var q := n / d;
    assert n == d * q + n % d;
    assert d * (x - q) == x * d - d * q;
    MulBound(d, x - q);
  }

  lemma Cancel(d: nat, a: int, b: int)
    requires d > 0 && d * a <= d * b
    ensures a <= b
  {
    assert d * (a - b) == d * a - d * b;
    MulBound(d, a - b);
  }

  lemma FractionMonotone(a: Time, b: Time, rate: nat)
    requires ValidTime(a) && ValidTime(b) && a.numer * b.denom <= b.numer * a.denom
    ensures a.numer * rate / a.denom <= b.numer * rate / b.denom
  {
    var x, n := a.numer * rate / a.denom, a.numer * rate;
    assert a.denom * x <= n;
    calc {
      a.denom * (x * b.denom);
      == (a.denom * x) * b.denom;
      <= { Scale(b.denom, a.denom * x, n); } n * b.denom;
      == (a.numer * b.denom) * rate;
      <= { Scale(rate, a.numer * b.denom, b.numer * a.denom); } (b.numer * a.denom) * rate;
      == a.denom * (b.numer * rate);
    }
    Cancel(a.denom, x * b.denom, b.numer * rate);
    AtMostQuotient(x, b.numer * rate, b.denom);
  }

  lemma Scale(k: nat, a: int, b: int)
    requires a <= b
    ensures a * k <= b * k
  {
    assert (b - a) * k == b * k - a * k;
  }

  lemma BelowWholeSecond(t: Time, rate: nat)
    requires ValidTime(t)
    ensures 0 <= t.numer * rate / t.denom <= rate
  {
    var n := t.numer * rate;
    Scale(rate, t.numer, t.denom);
    assert t.denom * (n / t.denom) == n - n % t.denom;
    Cancel(t.denom, n / t.denom, rate);
    Scale(rate, 0, t.numer);
    AtMostQuotient(0, n, t.denom);
  }

  lemma SecondsApart(m: nat, n: nat, rate: nat)
    requires m < n
    ensures m * rate + rate <= n * rate
  {
    Scale(rate, m + 1, n);
    assert (m + 1) * rate == m * rate + rate;
  }

  /** Later times are never at earlier bytes. */
  lemma OffsetMonotone(utcStart: nat, rate: nat, a: Time, b: Time)
    requires ValidTime(a) && ValidTime(b) && NotAfter(a, b)
    ensures ByteOffset(utcStart, rate, a) <= ByteOffset(utcStart, rate, b)
  {
    BelowWholeSecond(a, rate);
    BelowWholeSecond(b, rate);
    if utcStart > 0 && a.secs >= utcStart {
      if a.secs == b.secs {
        FractionMonotone(a, b, rate);
      } else {
        SecondsApart(a.secs - utcStart, b.secs - utcStart, rate);
      }
    } else if utcStart > 0 && b.secs >= utcStart {
      Scale(rate, 0, b.secs - utcStart);
    }
  }

  /** Rounded down to a multiple of the resolution, except that nothing between byte 0 and the first
      multiple is rounded to 0. */
  function AlignStart(offset: int, res: nat): nat
    requires res > 0
  {
    if offset < 0 then 0
    else
      var r := offset % res;
      if r == 0 then offset else if offset > res then offset - r else res
  }

  function AlignEnd(offset: int, res: nat): nat
    requires res > 0
  {
    if offset < 0 then 0
    else
      var r := offset % res;
      if r == 0 then offset else offset + (res - r)
  }

  lemma Multiples(o: nat, res: nat)
    requires res > 0
    ensures (o - o % res) % res == 0 && (o + (res - o % res)) % res == 0
    ensures o >= res ==> o - o % res >= res
    ensures 0 < o < res ==> o % res == o
  {
    var q, r := o / res, o % res;
    assert o == res * q + r;
    assert res * (q + 1) == res * q + res;
    ModUnique(o - r, res, q, 0);
    ModUnique(o + (res - r), res, q + 1, 0);
    MulBound(res, q);
    if o < res { ModUnique(o, res, 0, o); }
  }

  /** A start on a multiple: the last one not behind the offset, or the first one inside the first unit
      (where it loses data), or 0 before the observation. */
  predicate StartNear(offset: int, res: nat, s: nat)
    requires res > 0
  {
    && s % res == 0
    && (if offset < 0 then s == 0 else if 0 < offset < res then s == res else offset - res < s <= offset)
  }

  /** An end on a multiple: the first one not before the offset, or 0 before the observation. */
  predicate EndNear(offset: int, res: nat, e: nat)
    requires res > 0
  {
    e % res == 0 && (if offset < 0 then e == 0 else offset <= e < offset + res)
  }

  /** Aligned bounds are the nearest multiples of the resolution that keep all data, in order; only a
      start strictly inside the first unit is moved up. */
  lemma Aligned(first: int, last: int, res: nat)
    requires res > 0 && first <= last
    ensures StartNear(first, res, AlignStart(first, res)) && EndNear(last, res, AlignEnd(last, res))
    ensures AlignStart(first, res) <= AlignEnd(last, res)
  {
    ModUnique(0, res, 0, 0);
    ModUnique(res, res, 1, 0);
    if first >= 0 { Multiples(first, res); }
    if last >= 0 { Multiples(last, res); }
    if first == res { ModUnique(first, res, 1, 0); }
  }

  // ---------------------------------------------------------------- fusion

  datatype Event = Event(start: nat, end: nat)

  predicate Dead(e: Event) { e.start == 0 && e.end == 0 }

  ghost predicate Ordered(es: seq<Event>) {
    && (forall i :: 0 <= i < |es| ==> es[i].start <= es[i].end)
    && (forall i, j :: 0 <= i < j < |es| ==> es[i].start <= es[j].start)
  }

  /** One pass of the loop: event `i - 1` is merged into event `i` when they overlap. */
  function FuseAt(es: seq<Event>, i: nat): seq<Event>
    requires 1 <= i < |es|
  {
    var p, e := es[i - 1], es[i];
    if e.start < p.end
    then es[i - 1 := Event(0, 0)][i := Event(p.start, if p.end > e.end then p.end else e.end)]
    else es
  }

  /** The array after the events before `n` have been visited. */
  function FuseTo(es: seq<Event>, n: nat): (fs: seq<Event>)
    requires n <= |es|
    ensures |fs| == |es|
  {
    if n <= 1 then es else FuseAt(FuseTo(es, n - 1), n - 1)
  }

  /** The in-place loop over the sorted event array. */
  method Fuse(a: array<Event>)
    modifies a
    ensures a[..] == FuseTo(old(a[..]), a.Length)
  {
    var i := 1;
    while i < a.Length
      invariant 1 <= i && (i <= a.Length || a.Length == 0)
      invariant a[..] == FuseTo(old(a[..]), Min(i, a.Length))
    {
      ghost var before := a[..];
      if a[i].start < a[i - 1].end {
        var p := a[i - 1];
        a[i] := Event(p.start, a[i].end);
        a[i - 1] := Event(0, p.end);
        if p.end > a[i].end { a[i] := Event(a[i].start, p.end); }
        a[i - 1] := Event(0, 0);
      }
      assert a[..] == FuseAt(before, i);
      i := i + 1;
    }
  }

  /** Among the first `n` events: the rest is untouched, each live event starts after all earlier
      ones have ended, and so does the last one. */
  ghost predicate Separated(es: seq<Event>, fs: seq<Event>, n: nat)
    requires n <= |fs| == |es|
  {
    && (forall k :: n <= k < |fs| ==> fs[k] == es[k])
    && (forall k :: 0 <= k < n ==> fs[k].start <= fs[k].end && fs[k].start <= es[k].start)
    && (forall i, j :: 0 <= i < j < n && (j == n - 1 || !Dead(fs[j])) ==> fs[i].end <= fs[j].start)
  }

  /** Merging one event into the next, or leaving both, keeps the events apart. */
  lemma SeparatedNext(es: seq<Event>, fs: seq<Event>, n: nat)
    requires Ordered(es) && 2 <= n <= |es| == |fs| && Separated(es, fs, n - 1)
    ensures Separated(es, FuseAt(fs, n - 1), n)
  {
    var gs := FuseAt(fs, n - 1);
    assert fs[n - 1] == es[n - 1] && fs[n - 2].start <= es[n - 2].start <= es[n - 1].start;
    forall i, j | 0 <= i < j < n && (j == n - 1 || !Dead(gs[j])) ensures gs[i].end <= gs[j].start {
      if i < n - 2 { assert fs[i].end <= fs[n - 2].start; }
    }
  }

  lemma {:induction false} FuseSeparates(es: seq<Event>, n: nat)
    requires Ordered(es) && 1 <= n <= |es|
    ensures Separated(es, FuseTo(es, n), n)
  {
    if n > 1 {
      FuseSeparates(es, n - 1);
      SeparatedNext(es, FuseTo(es, n - 1), n);
      assert FuseTo(es, n) == FuseAt(FuseTo(es, n - 1), n - 1);
    }
  }

  predicate In(e: Event, x: nat) { e.start <= x < e.end }

  ghost predicate Covered(es: seq<Event>, x: nat) { exists i :: 0 <= i < |es| && In(es[i], x) }

  lemma FuseAtCovers(es: seq<Event>, i: nat, x: nat)
    requires 1 <= i < |es| && es[i - 1].start <= es[i].start <= es[i].end
    ensures Covered(FuseAt(es, i), x) <==> Covered(es, x)
  {
    var fs := FuseAt(es, i);
    forall k | 0 <= k < |es| && In(es[k], x) ensures Covered(fs, x) {
      assert In(fs[if k == i - 1 && fs != es then i else k], x);
    }
    forall k | 0 <= k < |fs| && In(fs[k], x) ensures Covered(es, x) {
      if !In(es[k], x) { assert In(es[i - 1], x); }
    }
  }

  lemma {:induction false} FuseCovers(es: seq<Event>, n: nat, x: nat)
    requires Ordered(es) && n <= |es|
    ensures Covered(FuseTo(es, n), x) <==> Covered(es, x)
  {
    if n > 1 {
      FuseCovers(es, n - 1, x);
      FuseSeparates(es, n - 1);
      var fs := FuseTo(es, n - 1);
      assert fs[n - 2].start <= es[n - 2].start <= es[n - 1].start == fs[n - 1].start;
      FuseAtCovers(fs, n - 1, x);
    }
  }

  /** Live events start after all earlier ones have ended. */
  ghost predicate Disjoint(fs: seq<Event>) {
    && (forall i :: 0 <= i < |fs| ==> fs[i].start <= fs[i].end)
    && (forall i, j :: 0 <= i < j < |fs| && !Dead(fs[j]) ==> fs[i].end <= fs[j].start)
  }

  /** For any sorted events: the survivors are in order, pairwise disjoint, and cover exactly the
      bytes of the input. */
  lemma FusionCorrect(es: seq<Event>)
    requires Ordered(es)
    ensures var fs := FuseTo(es, |es|);
      && Disjoint(fs)
      && (forall x: nat :: Covered(fs, x) <==> Covered(es, x))
  {
    if es != [] { FuseSeparates(es, |es|); }
    forall x: nat ensures Covered(FuseTo(es, |es|), x) <==> Covered(es, x) {
      FuseCovers(es, |es|, x);
    }
  }

  datatype Trigger = Trigger(first: Time, last: Time)

  /** The event of a trigger in terms of its times: both bounds are near the bytes the times fall in, or 0
      when the times are not in the observation. */
  ghost predicate Around(utcStart: nat, rate: nat, res: nat, t: Trigger, e: Event)
    requires res > 0
  {
    && (if utcStart > 0 && t.first.secs >= utcStart
        then exists b: nat :: FallsIn(utcStart, rate, t.first, b) && StartNear(b, res, e.start) else e.start == 0)
    && (if utcStart > 0 && t.last.secs >= utcStart
        then exists b: nat :: FallsIn(utcStart, rate, t.last, b) && EndNear(b, res, e.end) else e.end == 0)
  }

  lemma EventAround(utcStart: nat, rate: nat, res: nat, t: Trigger)
    requires res > 0 && ValidTime(t.first) && ValidTime(t.last) && NotAfter(t.first, t.last)
    ensures Around(utcStart, rate, res, t, EventOf(utcStart, rate, res, t))
    ensures var e := EventOf(utcStart, rate, res, t); e.start <= e.end && e.start % res == 0 && e.end % res == 0
  {
    OffsetExact(utcStart, rate, t.first);
    OffsetExact(utcStart, rate, t.last);
    OffsetMonotone(utcStart, rate, t.first, t.last);
    Aligned(ByteOffset(utcStart, rate, t.first), ByteOffset(utcStart, rate, t.last), res);
  }

  function EventOf(utcStart: nat, rate: nat, res: nat, t: Trigger): Event
    requires res > 0 && ValidTime(t.first) && ValidTime(t.last)
  {
    Event(AlignStart(ByteOffset(utcStart, rate, t.first), res), AlignEnd(ByteOffset(utcStart, rate, t.last), res))
  }

  ghost predicate OnGrid(es: seq<Event>, res: nat)
    requires res > 0
  {
    forall i :: 0 <= i < |es| ==> es[i].start % res == 0 && es[i].end % res == 0
  }

  lemma {:induction false} FuseKeepsGrid(es: seq<Event>, n: nat, res: nat)
    requires res > 0 && n <= |es| && OnGrid(es, res)
    ensures OnGrid(FuseTo(es, n), res)
  {
    ModUnique(0, res, 0, 0);
    if n > 1 { FuseKeepsGrid(es, n - 1, res); }
  }

  /** The same events in another order cover the same bytes. */
  lemma SortedCovers(xs: seq<Event>, es: seq<Event>, x: nat)
    requires multiset(xs) == multiset(es) && Covered(xs, x)
    ensures Covered(es, x)
  {
    var i :| 0 <= i < |xs| && In(xs[i], x);
    assert xs[i] in multiset(xs);
    var j :| 0 <= j < |es| && es[j] == xs[i];
    assert In(es[j], x);
  }

  /** However the sort arranges equal starts, fusing gives disjoint ranges, in order and on multiples,
      with the same bytes. */
  lemma SortedFused(xs: seq<Event>, es: seq<Event>, res: nat)
    requires res > 0 && multiset(xs) == multiset(es) && OnGrid(xs, res)
    requires forall i :: 0 <= i < |xs| ==> xs[i].start <= xs[i].end
    requires forall i, j :: 0 <= i < j < |es| ==> es[i].start <= es[j].start
    ensures var fs := FuseTo(es, |es|);
      && Ordered(es) && Disjoint(fs) && OnGrid(fs, res)
      && (forall x: nat :: Covered(fs, x) <==> Covered(xs, x))
  {
    forall k | 0 <= k < |es| ensures es[k].start <= es[k].end && es[k].start % res == 0 && es[k].end % res == 0 {
      assert es[k] in multiset(es) && es[k] in multiset(xs);
      var i :| 0 <= i < |xs| && xs[i] == es[k];
    }
    FusionCorrect(es);
    FuseKeepsGrid(es, |es|, res);
    forall x: nat ensures Covered(es, x) <==> Covered(xs, x) {
      if Covered(xs, x) { SortedCovers(xs, es, x); }
      if Covered(es, x) { SortedCovers(es, xs, x); }
    }
  }

  /** From trigger times to survivors: for any triggers whose start is not after their end, however
      the sort arranges equal starts, the survivors are disjoint, in order, bounded by multiples of
      the resolution, and cover exactly the bytes of the aligned triggers, whose bounds are near the
      bytes their times fall in. */
  lemma TriggersFused(utcStart: nat, rate: nat, res: nat, ts: seq<Trigger>, xs: seq<Event>, es: seq<Event>)
    requires res > 0 && |xs| == |ts|
    requires forall i :: 0 <= i < |ts| ==>
               && ValidTime(ts[i].first) && ValidTime(ts[i].last) && NotAfter(ts[i].first, ts[i].last)
               && xs[i] == EventOf(utcStart, rate, res, ts[i])
    requires multiset(xs) == multiset(es) && forall i, j :: 0 <= i < j < |es| ==> es[i].start <= es[j].start
    ensures var fs := FuseTo(es, |es|);
      && Ordered(es) && Disjoint(fs) && OnGrid(fs, res)
      && (forall x: nat :: Covered(fs, x) <==> Covered(xs, x))
    ensures forall i :: 0 <= i < |ts| ==> Around(utcStart, rate, res, ts[i], xs[i])
  {
    forall i | 0 <= i < |ts|
      ensures Around(utcStart, rate, res, ts[i], xs[i]) && xs[i].start <= xs[i].end
              && xs[i].start % res == 0 && xs[i].end % res == 0
    {
      EventAround(utcStart, rate, res, ts[i]);
    }
    SortedFused(xs, es, res);
  }

  /** Events `i` to `j` were fused into `j`: those before `j` are dead. */
  ghost predicate Group(fs: seq<Event>, i: nat, j: nat) {
    i <= j < |fs| && !Dead(fs[j]) && forall k :: i <= k < j ==> Dead(fs[k])
  }

  ghost predicate Contained(es: seq<Event>, fs: seq<Event>, i: nat, j: nat)
    requires i < |es| && j < |fs|
  {
    fs[j].start <= es[i].start && es[i].end <= fs[j].end
  }

  ghost predicate AllContained(es: seq<Event>, fs: seq<Event>, n: nat)
    requires n <= |es| && n <= |fs|
  {
    forall i, j :: 0 <= i <= j < n && Group(fs, i, j) ==> Contained(es, fs, i, j)
  }

  /** One pass of the fusion loop changes at most the last two events it has seen. */
  lemma ContainedNext(es: seq<Event>, fs: seq<Event>, gs: seq<Event>, n: nat)
    requires 1 <= n < |es| == |fs| == |gs|
    requires forall k :: 0 <= k < n - 1 ==> gs[k] == fs[k]
    requires !Dead(fs[n - 1]) && !Dead(gs[n]) && fs[n] == es[n]
    requires Dead(gs[n - 1]) ==> gs[n].start == fs[n - 1].start <= es[n].start && fs[n - 1].end <= gs[n].end && es[n].end <= gs[n].end
    requires !Dead(gs[n - 1]) ==> gs[n - 1] == fs[n - 1] && gs[n] == es[n]
    requires AllContained(es, fs, n)
    ensures AllContained(es, gs, n + 1)
  {
    forall i, j | 0 <= i <= j < n + 1 && Group(gs, i, j) ensures Contained(es, gs, i, j) {
      if j < n {
        assert forall k :: i <= k < j ==> fs[k] == gs[k];
        assert Group(fs, i, j);
      } else if i < n {
        assert Dead(gs[n - 1]);
        assert forall k :: i <= k < n - 1 ==> fs[k] == gs[k];
        assert Group(fs, i, n - 1);
      }
    }
  }

  /** When no event is empty at byte 0, a survivor contains all the events fused into it, and the
      last event visited survives. */
  lemma {:induction false} GroupsContain(es: seq<Event>, n: nat)
    requires Ordered(es) && 1 <= n <= |es| && forall i :: 0 <= i < |es| ==> !Dead(es[i])
    ensures var fs := FuseTo(es, n); !Dead(fs[n - 1]) && AllContained(es, fs, n)
  {
    if n > 1 {
      GroupsContain(es, n - 1);
      FuseSeparates(es, n - 1);
      var fs, gs := FuseTo(es, n - 1), FuseTo(es, n);
      assert fs[n - 1] == es[n - 1] && fs[n - 2].start <= es[n - 2].start <= es[n - 1].start;
      ContainedNext(es, fs, gs, n - 1);
    }
  }

  // ---------------------------------------------------------------- extraction

  /** A range copied out: its last event, bounds, N_EVENTS and data. */
  datatype Record = Record(last: nat, start: nat, end: nat, count: nat, bytes: seq<byte>)

  /** The input data block, read forwards. */
  class Stream {
    const data: seq<byte>
    var pos: nat

    constructor (d: seq<byte>)
      ensures data == d && pos == 0
    {
      data, pos := d, 0;
    }

    method Seek(b: nat)
      modifies this`pos
      ensures pos == b
    {
      pos := b;
    }

    method Read(n: nat) returns (r: seq<byte>)
      requires pos + n <= |data|
      modifies this`pos
      ensures r == data[old(pos)..old(pos) + n] && pos == old(pos) + n
    {
      r := data[pos..pos + n];
      pos := pos + n;
    }
  }

  ghost predicate Readable(fs: seq<Event>, data: seq<byte>) {
    forall i :: 0 <= i < |fs| ==> fs[i].start <= fs[i].end <= |data|
  }

  /** What the extraction loop records from event `i` on, with the stream at `pos` and `skipped` dead
      events not yet accounted for. */
  function Recorded(fs: seq<Event>, i: nat, pos: nat, skipped: nat, data: seq<byte>): seq<Record>
    requires i <= |fs| && Readable(fs, data)
    decreases |fs| - i
  {
    if i == |fs| then []
    else if Dead(fs[i]) then Recorded(fs, i + 1, pos, skipped + 1, data)
    else if fs[i].start < pos then Recorded(fs, i + 1, pos, skipped, data)
    else [Record(i, fs[i].start, fs[i].end, skipped + 1, data[fs[i].start..fs[i].end])]
         + Recorded(fs, i + 1, fs[i].end, 0, data)
  }

  /** How many of the events are not dead. */
  function Alive(fs: seq<Event>): nat {
    if fs == [] then 0 else Alive(fs[..|fs| - 1]) + (if fs[|fs| - 1] == Event(0, 0) then 0 else 1)
  }

  /** The extraction loop; every live event is either recorded or counted as missed. */
  method Extract(fs: seq<Event>, stream: Stream) returns (out: seq<Record>, missed: nat)
    requires Readable(fs, stream.data)
    modifies stream`pos
    ensures out == Recorded(fs, 0, old(stream.pos), 0, stream.data)
    ensures missed + |out| == Alive(fs)
  {
    out, missed := [], 0;
    var i, skipped := 0, 0;
    while i < |fs|
      invariant i <= |fs|
      invariant Recorded(fs, 0, old(stream.pos), 0, stream.data)
                == out + Recorded(fs, i, stream.pos, skipped, stream.data)
      invariant missed + |out| == Alive(fs[..i])
    {
      var e := fs[i];
      assert fs[..i + 1][..i] == fs[..i];
      if e.start == 0 && e.end == 0 {
        skipped := skipped + 1;
      } else if e.start < stream.pos {
        missed := missed + 1;
      } else {
        stream.Seek(e.start);
        var bytes := stream.Read(e.end - e.start);
        out := out + [Record(i, e.start, e.end, skipped + 1, bytes)];
        skipped := 0;
      }
      i := i + 1;
    }
    assert fs[..i] == fs;
  }

  ghost predicate IsRecord(r: Record, fs: seq<Event>, data: seq<byte>)
    requires Readable(fs, data)
  {
    && r.last < |fs| && !Dead(fs[r.last]) && r.start == fs[r.last].start && r.end == fs[r.last].end
    && r.bytes == data[r.start..r.end]
  }

  ghost predicate AreRecords(rs: seq<Record>, fs: seq<Event>, i: nat, pos: nat, data: seq<byte>)
    requires Readable(fs, data)
  {
    && (forall k :: 0 <= k < |rs| ==> IsRecord(rs[k], fs, data) && i <= rs[k].last && pos <= rs[k].start)
    && (forall k :: 0 <= k < |rs| - 1 ==> rs[k].last < rs[k + 1].last && rs[k].end <= rs[k + 1].start)
  }

  lemma {:induction false} RecordBounds(fs: seq<Event>, i: nat, pos: nat, skipped: nat, data: seq<byte>, k: nat)
    requires i <= |fs| && Readable(fs, data) && k < |Recorded(fs, i, pos, skipped, data)|
    ensures var r := Recorded(fs, i, pos, skipped, data)[k];
            IsRecord(r, fs, data) && i <= r.last && pos <= r.start
    decreases |fs| - i
  {
    if Dead(fs[i]) {
      RecordBounds(fs, i + 1, pos, skipped + 1, data, k);
    } else if fs[i].start < pos {
      RecordBounds(fs, i + 1, pos, skipped, data, k);
    } else if k > 0 {
      assert Recorded(fs, i, pos, skipped, data)[k] == Recorded(fs, i + 1, fs[i].end, 0, data)[k - 1];
      RecordBounds(fs, i + 1, fs[i].end, 0, data, k - 1);
    }
  }

  lemma {:induction false} RecordsForward(fs: seq<Event>, i: nat, pos: nat, skipped: nat, data: seq<byte>, k: nat)
    requires i <= |fs| && Readable(fs, data) && k + 1 < |Recorded(fs, i, pos, skipped, data)|
    ensures var rs := Recorded(fs, i, pos, skipped, data);
            rs[k].last < rs[k + 1].last && rs[k].end <= rs[k + 1].start
    decreases |fs| - i
  {
    if Dead(fs[i]) {
      RecordsForward(fs, i + 1, pos, skipped + 1, data, k);
    } else if fs[i].start < pos {
      RecordsForward(fs, i + 1, pos, skipped, data, k);
    } else {
      var rs, tail := Recorded(fs, i, pos, skipped, data), Recorded(fs, i + 1, fs[i].end, 0, data);
      assert rs[k + 1] == tail[k];
      if k > 0 {
        assert rs[k] == tail[k - 1];
        RecordsForward(fs, i + 1, fs[i].end, 0, data, k - 1);
      } else {
        RecordBounds(fs, i + 1, fs[i].end, 0, data, 0);
      }
    }
  }

  /** Records carry the right bytes, go forwards and do not overlap. */
  lemma RecordsInOrder(fs: seq<Event>, i: nat, pos: nat, skipped: nat, data: seq<byte>)
    requires i <= |fs| && Readable(fs, data)
    ensures AreRecords(Recorded(fs, i, pos, skipped, data), fs, i, pos, data)
  {
    var rs := Recorded(fs, i, pos, skipped, data);
    forall k | 0 <= k < |rs| ensures IsRecord(rs[k], fs, data) && i <= rs[k].last && pos <= rs[k].start {
      RecordBounds(fs, i, pos, skipped, data, k);
    }
    forall k | 0 <= k < |rs| - 1 ensures rs[k].last < rs[k + 1].last && rs[k].end <= rs[k + 1].start {
      RecordsForward(fs, i, pos, skipped, data, k);
    }
  }

  /** Recording a range never makes a later one unreachable: every survivor that the stream had not
      passed before the batch is recorded. */
  lemma {:induction false} NothingElseMissed(fs: seq<Event>, i: nat, pos: nat, skipped: nat, data: seq<byte>, j: nat)
    requires i <= j < |fs| && Readable(fs, data) && Disjoint(fs)
    requires !Dead(fs[j]) && fs[j].start >= pos
    ensures exists k :: 0 <= k < |Recorded(fs, i, pos, skipped, data)| && Recorded(fs, i, pos, skipped, data)[k].last == j
    decreases |fs| - i
  {
    var rs := Recorded(fs, i, pos, skipped, data);
    if Dead(fs[i]) {
      NothingElseMissed(fs, i + 1, pos, skipped + 1, data, j);
    } else if fs[i].start < pos {
      NothingElseMissed(fs, i + 1, pos, skipped, data, j);
    } else if i == j {
      assert rs[0].last == j;
    } else {
      NothingElseMissed(fs, i + 1, fs[i].end, 0, data, j);
      var tail := Recorded(fs, i + 1, fs[i].end, 0, data);
      var k :| 0 <= k < |tail| && tail[k].last == j;
      assert rs[k + 1] == tail[k];
    }
  }

  /** N_EVENTS counts the survivor and the dead events just before it. */
  ghost predicate CountsGroup(r: Record, fs: seq<Event>) {
    && r.last < |fs| && 1 <= r.count <= r.last + 1
    && Group(fs, r.last + 1 - r.count, r.last)
    && (r.count <= r.last ==> !Dead(fs[r.last - r.count]))
  }

  lemma {:induction false} CountsGroups(fs: seq<Event>, i: nat, pos: nat, skipped: nat, data: seq<byte>, k: nat)
    requires i <= |fs| && Readable(fs, data) && Disjoint(fs) && k < |Recorded(fs, i, pos, skipped, data)|
    requires forall j :: i <= j < |fs| && !Dead(fs[j]) ==> fs[j].start >= pos
    requires skipped <= i && (forall j :: i - skipped <= j < i ==> Dead(fs[j]))
    requires skipped < i ==> !Dead(fs[i - skipped - 1])
    ensures CountsGroup(Recorded(fs, i, pos, skipped, data)[k], fs)
    decreases |fs| - i
  {
    if Dead(fs[i]) {
      CountsGroups(fs, i + 1, pos, skipped + 1, data, k);
    } else if k > 0 {
      assert Recorded(fs, i, pos, skipped, data)[k] == Recorded(fs, i + 1, fs[i].end, 0, data)[k - 1];
      CountsGroups(fs, i + 1, fs[i].end, 0, data, k - 1);
    } else {
      assert Group(fs, i - skipped, i);
    }
  }

  /** Events `a` to `j` all lie inside survivor `j`, and no earlier event was fused into it. */
  ghost predicate Fused(es: seq<Event>, fs: seq<Event>, a: nat, j: nat) {
    && a <= j < |fs| && |fs| == |es| && Group(fs, a, j)
    && (forall i :: a <= i <= j ==> Contained(es, fs, i, j))
    && (a > 0 ==> !Dead(fs[a - 1]))
  }

  /** The whole batch, from sorted triggers to records: the ranges hold the stream's bytes and do
      not overlap, and a survivor is missed only if the stream had passed it before the batch. */
  lemma BatchRecords(es: seq<Event>, pos: nat, data: seq<byte>)
    requires Ordered(es) && Readable(FuseTo(es, |es|), data)
    ensures var fs := FuseTo(es, |es|); var rs := Recorded(fs, 0, pos, 0, data);
      && AreRecords(rs, fs, 0, pos, data)
      && (forall j :: 0 <= j < |fs| && !Dead(fs[j]) ==>
            (fs[j].start >= pos <==> exists k :: 0 <= k < |rs| && rs[k].last == j))
  {
    var fs := FuseTo(es, |es|);
    var rs := Recorded(fs, 0, pos, 0, data);
    FusionCorrect(es);
    RecordsInOrder(fs, 0, pos, 0, data);
    forall j | 0 <= j < |fs| && !Dead(fs[j])
      ensures fs[j].start >= pos <==> exists k :: 0 <= k < |rs| && rs[k].last == j
    {
      if fs[j].start >= pos { NothingElseMissed(fs, 0, pos, 0, data, j); }
    }
  }

  /** Byte `x` lies in one of the recorded ranges. */
  ghost predicate RecordedByte(rs: seq<Record>, x: nat) { exists k :: 0 <= k < |rs| && rs[k].start <= x < rs[k].end }

  /** The batch in terms of bytes: what is recorded was asked for by a trigger, and what was asked for
      is recorded, unless it belongs to a fused range that begins before the stream's position. */
  lemma BatchBytes(es: seq<Event>, pos: nat, data: seq<byte>, x: nat)
    requires Ordered(es) && Readable(FuseTo(es, |es|), data)
    ensures var fs := FuseTo(es, |es|); var rs := Recorded(fs, 0, pos, 0, data);
      && (RecordedByte(rs, x) ==> Covered(es, x))
      && (Covered(es, x) ==> RecordedByte(rs, x) || exists j :: 0 <= j < |fs| && fs[j].start < pos && In(fs[j], x))
      && (pos == 0 ==> (RecordedByte(rs, x) <==> Covered(es, x)))
  {
    var fs := FuseTo(es, |es|);
    var rs := Recorded(fs, 0, pos, 0, data);
    FusionCorrect(es);
    assert Covered(fs, x) <==> Covered(es, x);
    if RecordedByte(rs, x) { RecordedAsked(es, pos, data, x); }
    if Covered(es, x) { AskedRecorded(es, pos, data, x); }
  }

  lemma RecordedAsked(es: seq<Event>, pos: nat, data: seq<byte>, x: nat)
    requires Ordered(es) && Readable(FuseTo(es, |es|), data)
    requires RecordedByte(Recorded(FuseTo(es, |es|), 0, pos, 0, data), x)
    ensures Covered(FuseTo(es, |es|), x)
  {
    var fs := FuseTo(es, |es|);
    var rs := Recorded(fs, 0, pos, 0, data);
    BatchRecords(es, pos, data);
    var k :| 0 <= k < |rs| && rs[k].start <= x < rs[k].end;
    assert IsRecord(rs[k], fs, data) && In(fs[rs[k].last], x);
  }

  lemma AskedRecorded(es: seq<Event>, pos: nat, data: seq<byte>, x: nat)
    requires Ordered(es) && Readable(FuseTo(es, |es|), data) && Covered(FuseTo(es, |es|), x)
    ensures var fs := FuseTo(es, |es|);
      RecordedByte(Recorded(fs, 0, pos, 0, data), x) || exists j :: 0 <= j < |fs| && fs[j].start < pos && In(fs[j], x)
  {
    var fs := FuseTo(es, |es|);
    var rs := Recorded(fs, 0, pos, 0, data);
    BatchRecords(es, pos, data);
    var j :| 0 <= j < |fs| && In(fs[j], x);
    if fs[j].start >= pos {
      var k :| 0 <= k < |rs| && rs[k].last == j;
      assert IsRecord(rs[k], fs, data);
    }
  }

  /** If nothing is missed and no trigger is empty at byte 0, each N_EVENTS is the number of triggers
      fused into the range, and the range contains every one of them. */
  lemma BatchCounts(es: seq<Event>, pos: nat, data: seq<byte>)
    requires Ordered(es) && Readable(FuseTo(es, |es|), data) && forall i :: 0 <= i < |es| ==> !Dead(es[i])
    requires var fs := FuseTo(es, |es|); forall j :: 0 <= j < |fs| && !Dead(fs[j]) ==> fs[j].start >= pos
    ensures var fs := FuseTo(es, |es|); var rs := Recorded(fs, 0, pos, 0, data);
      forall k :: 0 <= k < |rs| ==>
        rs[k].count <= rs[k].last + 1 && Fused(es, fs, rs[k].last + 1 - rs[k].count, rs[k].last)
  {
    var fs := FuseTo(es, |es|);
    var rs := Recorded(fs, 0, pos, 0, data);
    FusionCorrect(es);
    if es != [] { GroupsContain(es, |es|); }
    forall k | 0 <= k < |rs|
      ensures rs[k].count <= rs[k].last + 1 && Fused(es, fs, rs[k].last + 1 - rs[k].count, rs[k].last)
    {
      CountsGroups(fs, 0, pos, 0, data, k);
      forall i | rs[k].last + 1 - rs[k].count <= i <= rs[k].last ensures Contained(es, fs, i, rs[k].last) {
        assert Group(fs, i, rs[k].last);
      }
    }
  }

  // ---------------------------------------------------------------- stale data

  /** check_read_offset: `eod` tells at which positions the end of data is seen. */
  method SkipStale(stream: Stream, bufsz: nat, elapsed: int, rate: nat, maxDelay: nat, eod: nat -> bool)
    returns (skipped: nat)
    requires bufsz > 0
    modifies stream`pos
    ensures var now, delay := elapsed * rate, maxDelay * rate;
      && skipped == stream.pos / bufsz - old(stream.pos) / bufsz
      && (skipped == 0 <==> stream.pos == old(stream.pos))
      && (elapsed > 0 ==> stream.pos + delay >= now || eod(stream.pos))
      && (skipped > 0 ==> stream.pos % bufsz == 0 && stream.pos + delay < now + bufsz)
      && (elapsed <= 0 ==> skipped == 0)
  {
    skipped := 0;
    var more := !eod(stream.pos);
    if elapsed <= 0 { return; }
    var now, delay := elapsed * rate, maxDelay * rate;
    while more
      invariant skipped == stream.pos / bufsz - old(stream.pos) / bufsz
      invariant stream.pos >= old(stream.pos) && (skipped == 0 <==> stream.pos == old(stream.pos))
      invariant skipped > 0 ==> stream.pos % bufsz == 0 && stream.pos + delay < now + bufsz
      invariant !more ==> stream.pos + delay >= now || eod(stream.pos)
      decreases more, now - delay - stream.pos
    {
      if stream.pos + delay < now {
        var remainder := stream.pos % bufsz;
        var seek := if remainder != 0 then bufsz - remainder else bufsz;
        NextBlock(stream.pos, bufsz);
        stream.Seek(stream.pos + seek);
        skipped := skipped + 1;
      } else {
        more := false;
      }
      if eod(stream.pos) { more := false; }
    }
  }

  lemma NextBlock(p: nat, b: nat)
    requires b > 0
    ensures var q := p + (if p % b != 0 then b - p % b else b);
            q % b == 0 && q / b == p / b + 1
  {
    var q := p + (if p % b != 0 then b - p % b else b);
    assert p == b * (p / b) + p % b;
    assert q == b * (p / b + 1);
    ModUnique(q, b, p / b + 1, 0);
  }
}
