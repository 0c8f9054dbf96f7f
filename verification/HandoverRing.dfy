/** The buffer ring shared by the producer (main) and consumer (netwrite) threads of vsib_send.
    Each thread keeps one buffer mutex until it owns the next.  Mutexes are binary semaphores,
    because main takes the last one on behalf of the consumer. */
module HandoverRing {
  import opened Common

  /** Ring size, and the contents of the buffers that main fills, in order. */
  datatype Config = Config(nbuf: nat, items: seq<seq<byte>>)

  datatype ProducerPc = Fill | Count | LockNext | UnlockPrev | Release | Check | Join | Closed
  datatype ConsumerPc = Acquire | HandBack | Inspect | Send | Retire | Quit | Exited

  /** Program variables of both threads; `filled`, `retired` and `sent` record what happened. */
  datatype State = State(
    locked: seq<bool>, buf: seq<seq<byte>>, nfull: int,
    ppc: ProducerPc, pi: nat, pj: nat, filled: nat,
    cpc: ConsumerPc, ci: nat, cj: nat, off: nat, retired: nat, sent: seq<byte>)

  ghost predicate Shape(c: Config, s: State) {
    && c.nbuf >= 2 && |s.locked| == |s.buf| == c.nbuf
    && s.pi < c.nbuf && s.pj < c.nbuf && s.ci < c.nbuf && s.cj < c.nbuf
  }

  function Init(c: Config): State
    requires c.nbuf >= 2
  {
    State(seq(c.nbuf, i => i == 0 || i == c.nbuf - 1), seq(c.nbuf, _ => []), 0,
          Fill, 0, 0, 0,
          Acquire, 0, c.nbuf - 1, 0, 0, [])
  }

  ghost predicate ProducerStep(c: Config, s: State, t: State)
    requires Shape(c, s)
  {
    match s.ppc
    case Fill =>
      if s.filled < |c.items|
      then t == s.(buf := s.buf[s.pi := c.items[s.filled]], ppc := Count)
      else t == s.(ppc := Release)
    case Count =>
      t == s.(nfull := s.nfull + 1, filled := s.filled + 1,
              pj := s.pi, pi := (s.pi + 1) % c.nbuf, ppc := LockNext)
    case LockNext =>
      !s.locked[s.pi] && t == s.(locked := s.locked[s.pi := true], ppc := UnlockPrev)
    case UnlockPrev => t == s.(locked := s.locked[s.pj := false], ppc := Fill)
    case Release => t == s.(locked := s.locked[s.pi := false], ppc := Check)
    case Check => t == s.(ppc := if s.nfull > 0 then Join else Closed)
    case Join => s.cpc.Exited? && t == s.(ppc := Closed)
    case Closed => false
  }

  ghost predicate ConsumerStep(c: Config, s: State, t: State)
    requires Shape(c, s)
  {
    match s.cpc
    case Acquire =>
      !s.locked[s.ci] && t == s.(locked := s.locked[s.ci := true], cpc := HandBack)
    case HandBack => t == s.(locked := s.locked[s.cj := false], cpc := Inspect)
    case Inspect => t == if s.nfull == 0 then s.(cpc := Quit) else s.(off := 0, cpc := Send)
    case Send =>
      if s.off < |s.buf[s.ci]|
      then exists k :: SendStep(s, k, t)
      else t == s.(cpc := Retire)
    case Retire =>
      t == s.(nfull := s.nfull - 1, retired := s.retired + 1,
              cj := s.ci, ci := (s.ci + 1) % c.nbuf, cpc := Acquire)
    case Quit => t == s.(locked := s.locked[s.ci := false], cpc := Exited)
    case Exited => false
  }

  /** One `send` call accepts any positive number `k` of the bytes left in the buffer. */
  ghost predicate SendStep(s: State, k: nat, t: State) {
    && s.ci < |s.buf| && 1 <= k && s.off + k <= |s.buf[s.ci]|
    && t == s.(sent := s.sent + s.buf[s.ci][s.off..s.off + k], off := s.off + k)
  }

  ghost predicate Next(c: Config, s: State, t: State) {
    Shape(c, s) && (ProducerStep(c, s, t) || ConsumerStep(c, s, t))
  }

  ghost predicate Run(c: Config, tr: seq<State>) {
    && c.nbuf >= 2 && |tr| > 0 && tr[0] == Init(c)
    && forall i :: 0 <= i < |tr| - 1 ==> Next(c, tr[i], tr[i + 1])
  }

  ghost predicate Finished(s: State) { s.ppc.Closed? && s.cpc.Exited? }

  ghost predicate Halted(c: Config, s: State) { forall t :: !Next(c, s, t) }

  ghost predicate Stuck(c: Config, s: State) { !Finished(s) && Halted(c, s) }

  // ---------------------------------------------------------------- invariant

  predicate ProducerReleased(s: State) { s.ppc.Check? || s.ppc.Join? || s.ppc.Closed? }
  predicate ProducerMoving(s: State) { s.ppc.LockNext? || s.ppc.UnlockPrev? }
  predicate ConsumerMoving(s: State) { s.cpc.Acquire? || s.cpc.HandBack? }
  predicate ConsumerReading(s: State) { s.cpc.Send? || s.cpc.Retire? }

  ghost predicate ProducerHolds(s: State, r: nat) {
    match s.ppc
    case Fill => r == s.pi
    case Count => r == s.pi
    case LockNext => r == s.pj
    case UnlockPrev => r == s.pi || r == s.pj
    case Release => r == s.pi
    case _ => false
  }

  ghost predicate ConsumerHolds(s: State, r: nat) {
    match s.cpc
    case Acquire => r == s.cj
    case HandBack => r == s.ci || r == s.cj
    case Exited => false
    case _ => r == s.ci
  }

  /** Oldest buffer the producer still holds, and oldest buffer the consumer still holds. */
  function ProducerLow(s: State): int { if ProducerMoving(s) then s.filled - 1 else s.filled }
  function ConsumerLow(s: State): int { if ConsumerMoving(s) then s.retired - 1 else s.retired }

  ghost predicate Indices(c: Config, s: State) {
    && Shape(c, s)
    && s.pi == s.filled % c.nbuf && (ProducerMoving(s) ==> s.pj == (s.filled - 1) % c.nbuf)
    && s.ci == s.retired % c.nbuf && (ConsumerMoving(s) ==> s.cj == (s.retired - 1) % c.nbuf)
  }

  ghost predicate Window(c: Config, s: State) {
    && s.retired <= ProducerLow(s) && s.filled <= |c.items|
    && s.nfull == s.filled - s.retired
    && s.filled <= ConsumerLow(s) + c.nbuf - (if s.ppc.LockNext? then 0 else 1)
    && (!s.cpc.Acquire? && !ProducerReleased(s) ==> s.retired < ProducerLow(s))
    && (s.ppc.Count? ==> s.filled < |c.items|)
    && (ProducerReleased(s) || s.ppc.Release? ==> s.filled == |c.items|)
    && (ConsumerReading(s) ==> s.retired < s.filled)
    && (s.cpc.Quit? || s.cpc.Exited? ==> ProducerReleased(s) && s.retired == s.filled)
    && (s.ppc.Closed? ==> s.retired == s.filled)
  }

  ghost predicate Locks(c: Config, s: State)
    requires Shape(c, s)
  {
    forall r :: 0 <= r < c.nbuf ==> (s.locked[r] <==> ProducerHolds(s, r) || ConsumerHolds(s, r))
  }

  ghost predicate Data(c: Config, s: State)
    requires Shape(c, s) && s.filled <= |c.items|
  {
    && (forall k :: s.retired <= k < s.filled ==> s.buf[k % c.nbuf] == c.items[k])
    && (s.ppc.Count? && s.filled < |c.items| ==> s.buf[s.pi] == c.items[s.filled])
  }

  ghost predicate Output(c: Config, s: State)
    requires s.retired <= s.filled <= |c.items|
  {
    if ConsumerReading(s) && s.retired < s.filled then
      && s.off <= |c.items[s.retired]|
      && (s.cpc.Retire? ==> s.off == |c.items[s.retired]|)
      && s.sent == Flatten(c.items[..s.retired]) + c.items[s.retired][..s.off]
    else s.sent == Flatten(c.items[..s.retired])
  }

  ghost predicate Inv(c: Config, s: State) {
    Indices(c, s) && Window(c, s) && Locks(c, s) && Data(c, s) && Output(c, s)
  }

  lemma InitInv(c: Config)
    requires c.nbuf >= 2
    ensures Inv(c, Init(c))
  {
    ModUnique(0, c.nbuf, 0, 0);
    ModUnique(-1, c.nbuf, -1, c.nbuf - 1);
  }

  /** Mutual exclusion: no slot is held by both threads, and a thread's two slots differ. */
  lemma Exclusive(c: Config, s: State, r: nat)
    requires Indices(c, s) && Window(c, s)
    ensures !(ProducerHolds(s, r) && ConsumerHolds(s, r))
    ensures s.ppc.UnlockPrev? ==> s.pi != s.pj
    ensures s.cpc.HandBack? ==> s.ci != s.cj
  {
    var n := c.nbuf;
    SlotsDiffer(s.filled - 1, s.filled, n);
    SlotsDiffer(s.retired - 1, s.retired, n);
    if s.retired < s.filled < s.retired + n { SlotsDiffer(s.retired, s.filled, n); }
    if s.retired < s.filled - 1 < s.retired + n { SlotsDiffer(s.retired, s.filled - 1, n); }
    if s.retired - 1 < s.filled < s.retired - 1 + n { SlotsDiffer(s.retired - 1, s.filled, n); }
    if s.retired - 1 < s.filled - 1 < s.retired - 1 + n { SlotsDiffer(s.retired - 1, s.filled - 1, n); }
  }

  lemma ProducerIndices(c: Config, s: State, t: State)
    requires Inv(c, s) && ProducerStep(c, s, t)
    ensures Indices(c, t)
  {
    SlotSucc(s.filled, c.nbuf);
  }

  lemma ProducerWindow(c: Config, s: State, t: State)
    requires Inv(c, s) && ProducerStep(c, s, t)
    ensures Window(c, t)
  {
    SlotLap(ConsumerLow(s), c.nbuf);
    assert s.cpc.Exited? || ConsumerHolds(s, ConsumerLow(s) % c.nbuf);
  }

  lemma ProducerData(c: Config, s: State, t: State)
    requires Inv(c, s) && ProducerStep(c, s, t) && Indices(c, t) && Window(c, t)
    ensures Data(c, t)
  {
    if s.ppc.Fill? && s.filled < |c.items| {
      forall k | t.retired <= k < t.filled ensures t.buf[k % c.nbuf] == c.items[k] {
        SlotsDiffer(k, s.filled, c.nbuf);
      }
    }
  }

  lemma ProducerLocks(c: Config, s: State, t: State)
    requires Indices(c, s) && Window(c, s) && Locks(c, s) && ProducerStep(c, s, t)
    requires Indices(c, t) && Window(c, t)
    ensures Locks(c, t)
  {
    forall r | 0 <= r < c.nbuf
      ensures t.locked[r] <==> ProducerHolds(t, r) || ConsumerHolds(t, r)
    {
      assert ConsumerHolds(t, r) == ConsumerHolds(s, r);
      Exclusive(c, s, r);
      Exclusive(c, t, r);
    }
  }

  lemma ProducerKeeps(c: Config, s: State, t: State)
    requires Inv(c, s) && ProducerStep(c, s, t)
    ensures Inv(c, t)
  {
    ProducerIndices(c, s, t);
    ProducerWindow(c, s, t);
    ProducerData(c, s, t);
    ProducerLocks(c, s, t);
  }

  lemma ConsumerIndices(c: Config, s: State, t: State)
    requires Inv(c, s) && ConsumerStep(c, s, t)
    ensures Indices(c, t)
  {
    SlotSucc(s.retired, c.nbuf);
  }

  lemma ConsumerWindow(c: Config, s: State, t: State)
    requires Inv(c, s) && ConsumerStep(c, s, t)
    ensures Window(c, t)
  {
    assert ProducerReleased(s) || ProducerHolds(s, ProducerLow(s) % c.nbuf);
  }

  lemma ConsumerOutput(c: Config, s: State, t: State)
    requires Inv(c, s) && ConsumerStep(c, s, t) && Window(c, t)
    ensures Output(c, t)
  {
    match s.cpc
    case Send =>
      var item := c.items[s.retired];
      assert s.buf[s.ci] == item;
      if s.off < |item| {
        var k :| SendStep(s, k, t);
        assert item[..s.off] + item[s.off..s.off + k] == item[..s.off + k];
      }
    case Retire =>
      FlattenTake(c.items, s.retired);
      assert c.items[s.retired][..s.off] == c.items[s.retired];
    case Inspect =>
      if s.nfull != 0 { assert c.items[s.retired][..0] == []; }
    case _ =>
  }

  lemma ConsumerLocks(c: Config, s: State, t: State)
    requires Indices(c, s) && Window(c, s) && Locks(c, s) && ConsumerStep(c, s, t)
    requires Indices(c, t) && Window(c, t)
    ensures Locks(c, t)
  {
    forall r | 0 <= r < c.nbuf
      ensures t.locked[r] <==> ProducerHolds(t, r) || ConsumerHolds(t, r)
    {
      assert ProducerHolds(t, r) == ProducerHolds(s, r);
      Exclusive(c, s, r);
      Exclusive(c, t, r);
    }
  }

  lemma ConsumerKeeps(c: Config, s: State, t: State)
    requires Inv(c, s) && ConsumerStep(c, s, t)
    ensures Inv(c, t)
  {
    ConsumerIndices(c, s, t);
    ConsumerWindow(c, s, t);
    ConsumerOutput(c, s, t);
    ConsumerLocks(c, s, t);
  }

  /** Every state of every interleaving satisfies the invariant. */
  lemma {:induction false} RunInv(c: Config, tr: seq<State>, i: nat)
    requires Run(c, tr) && i < |tr|
    ensures Inv(c, tr[i])
  {
    if i == 0 {
      InitInv(c);
    } else {
      RunInv(c, tr, i - 1);
      assert Next(c, tr[i - 1], tr[i - 1 + 1]);
      if ProducerStep(c, tr[i - 1], tr[i]) {
        ProducerKeeps(c, tr[i - 1], tr[i]);
      } else {
        ConsumerKeeps(c, tr[i - 1], tr[i]);
      }
    }
  }

  // ---------------------------------------------------------------- FIFO refinement

  /** The queue as it lies in memory: the buffers between the consumer's and the producer's slot. */
  ghost function Queue(c: Config, s: State): seq<seq<byte>>
    requires Shape(c, s) && s.retired <= s.filled
  {
    seq(s.filled - s.retired, k requires 0 <= k => s.buf[(s.retired + k) % c.nbuf])
  }

  lemma QueueIs(c: Config, s: State)
    requires Inv(c, s)
    ensures Queue(c, s) == c.items[s.retired..s.filled]
  {
    var q := Queue(c, s);
    forall k | 0 <= k < |q| ensures q[k] == c.items[s.retired..s.filled][k] {
      assert s.buf[(s.retired + k) % c.nbuf] == c.items[s.retired + k];
    }
  }

  /** Enqueue the buffer main just filled, dequeue the oldest buffer once all of it has been sent, or
      leave the queue alone. */
  ghost predicate FifoStep(c: Config, s: State, t: State)
    requires Inv(c, s) && Inv(c, t)
  {
    var q, q' := Queue(c, s), Queue(c, t);
    || q' == q
    || (s.filled < |c.items| && q' == q + [c.items[s.filled]] && t.sent == s.sent)
    || (q != [] && q' == q[1..] && s.sent == t.sent == Flatten(c.items[..t.retired]))
  }

  lemma StepIsFifo(c: Config, s: State, t: State)
    requires Inv(c, s) && Inv(c, t) && Next(c, s, t)
    ensures FifoStep(c, s, t)
  {
    QueueIs(c, s);
    QueueIs(c, t);
    if s.ppc.Count? && ProducerStep(c, s, t) {
      assert c.items[s.retired..s.filled + 1] == c.items[s.retired..s.filled] + [c.items[s.filled]];
    } else if s.cpc.Retire? && ConsumerStep(c, s, t) {
      assert c.items[s.retired..s.filled][1..] == c.items[s.retired + 1..s.filled];
    } else {
      assert t.filled == s.filled && t.retired == s.retired;
    }
  }

  /** Each step of either thread, in any run, is a step of an unbounded FIFO. */
  lemma StepRefinesFifo(c: Config, tr: seq<State>, i: nat)
    requires Run(c, tr) && i + 1 < |tr|
    ensures Inv(c, tr[i]) && Inv(c, tr[i + 1])
    ensures FifoStep(c, tr[i], tr[i + 1])
  {
    RunInv(c, tr, i);
    RunInv(c, tr, i + 1);
    StepIsFifo(c, tr[i], tr[i + 1]);
  }

  /** Safety in every reachable state: bounded occupancy counted by nfullbuf, filling never touches
      a buffer that is not fully sent, reading only sees the oldest unsent buffer, bytes leave in
      order, and neither thread gives up early. */
  lemma RingSafety(c: Config, tr: seq<State>, i: nat)
    requires Run(c, tr) && i < |tr|
    ensures Inv(c, tr[i])
    ensures var s := tr[i];
      && s.nfull == |Queue(c, s)| <= c.nbuf
      && s.sent <= Flatten(c.items)
      && (s.ppc.Fill? || s.ppc.Count? ==>
            (forall k :: s.retired <= k < s.filled ==> k % c.nbuf != s.pi)
            && !ConsumerHolds(s, s.pi))
      && (ConsumerReading(s) ==> s.buf[s.ci] == c.items[s.retired] && !ProducerHolds(s, s.ci))
      && (s.cpc.Inspect? && s.nfull == 0 ==> ProducerReleased(s) && s.sent == Flatten(c.items))
      && (s.ppc.Closed? ==> s.sent == Flatten(c.items))
  {
    RunInv(c, tr, i);
    var s := tr[i];
    QueueIs(c, s);
    Exclusive(c, s, s.pi);
    Exclusive(c, s, s.ci);
    assert c.items[..|c.items|] == c.items;
    FlattenPrefix(c.items, s.retired);
    if ConsumerReading(s) {
      FlattenTake(c.items, s.retired);
      FlattenPrefix(c.items, s.retired + 1);
    }
    if s.ppc.Fill? || s.ppc.Count? {
      forall k | s.retired <= k < s.filled ensures k % c.nbuf != s.pi {
        SlotsDiffer(k, s.filled, c.nbuf);
      }
    }
  }

  // ---------------------------------------------------------------- deadlock freedom

  /** With three or more buffers (or nothing to send) some thread can always step. */
  lemma Progress(c: Config, s: State) returns (t: State)
    requires Inv(c, s) && !Finished(s)
    requires c.nbuf >= 3 || c.items == []
    ensures Next(c, s, t)
  {
    var n := c.nbuf;
    if s.ppc.LockNext? && s.locked[s.pi] {
      SlotsDiffer(s.filled - 1, s.filled, n);
      assert ConsumerHolds(s, s.pi);
      if s.cpc.Acquire? {
        // The producer waits for the consumer's previous buffer, so the ring is full.
        if s.filled < s.retired - 1 + n { SlotsDiffer(s.retired - 1, s.filled, n); }
        assert s.filled == s.retired - 1 + n;
        SlotsDiffer(s.retired, s.filled - 1, n);
        SlotsDiffer(s.retired - 1, s.retired, n);
        t := s.(locked := s.locked[s.ci := true], cpc := HandBack);
      } else {
        t := ConsumerMove(c, s);
      }
    } else if s.ppc.Join? || s.ppc.Closed? {
      if s.cpc.Exited? {
        t := s.(ppc := Closed);
      } else if s.cpc.Acquire? {
        SlotsDiffer(s.retired - 1, s.retired, n);
        t := s.(locked := s.locked[s.ci := true], cpc := HandBack);
      } else {
        t := ConsumerMove(c, s);
      }
    } else {
      t := ProducerMove(c, s);
    }
  }

  /** A producer that is not waiting for a lock or for the consumer's end can step. */
  lemma ProducerMove(c: Config, s: State) returns (t: State)
    requires Shape(c, s) && !s.ppc.Join? && !s.ppc.Closed? && (s.ppc.LockNext? ==> !s.locked[s.pi])
    ensures Next(c, s, t)
  {
    match s.ppc
    case Fill =>
      t := if s.filled < |c.items|
           then s.(buf := s.buf[s.pi := c.items[s.filled]], ppc := Count) else s.(ppc := Release);
    case Count =>
      t := s.(nfull := s.nfull + 1, filled := s.filled + 1,
              pj := s.pi, pi := (s.pi + 1) % c.nbuf, ppc := LockNext);
    case LockNext => t := s.(locked := s.locked[s.pi := true], ppc := UnlockPrev);
    case UnlockPrev => t := s.(locked := s.locked[s.pj := false], ppc := Fill);
    case Release => t := s.(locked := s.locked[s.pi := false], ppc := Check);
    case Check => t := s.(ppc := if s.nfull > 0 then Join else Closed);
    assert ProducerStep(c, s, t);
  }

  /** A consumer that is not waiting for a lock and has not exited can step. */
  lemma ConsumerMove(c: Config, s: State) returns (t: State)
    requires Inv(c, s) && !s.cpc.Acquire? && !s.cpc.Exited?
    ensures Next(c, s, t)
  {
    match s.cpc
    case HandBack => t := s.(locked := s.locked[s.cj := false], cpc := Inspect);
    case Inspect => t := if s.nfull == 0 then s.(cpc := Quit) else s.(off := 0, cpc := Send);
    case Send =>
      if s.off < |s.buf[s.ci]| {
        t := s.(sent := s.sent + s.buf[s.ci][s.off..s.off + 1], off := s.off + 1);
        assert SendStep(s, 1, t);
      } else {
        t := s.(cpc := Retire);
      }
    case Retire =>
      t := s.(nfull := s.nfull - 1, retired := s.retired + 1,
              cj := s.ci, ci := (s.ci + 1) % c.nbuf, cpc := Acquire);
    case Quit => t := s.(locked := s.locked[s.ci := false], cpc := Exited);
    assert ConsumerStep(c, s, t);
  }

  /** With two buffers and something to send, main waits for the mutex it took for the consumer,
      and the consumer waits for the first buffer. */
  lemma DeadlockAtTwo(c: Config) returns (tr: seq<State>)
    requires c.nbuf == 2 && c.items != []
    ensures Run(c, tr) && Stuck(c, tr[|tr| - 1])
  {
    var s0 := Init(c);
    var s1 := s0.(buf := s0.buf[0 := c.items[0]], ppc := Count);
    var s2 := s1.(nfull := 1, filled := 1, pj := 0, pi := 1, ppc := LockNext);
    assert ProducerStep(c, s0, s1) && ProducerStep(c, s1, s2);
    tr := [s0, s1, s2];
  }

  /** Some interleaving deadlocks exactly when the ring has two buffers and there is data. */
  lemma DeadlockIff(c: Config)
    requires c.nbuf >= 2
    ensures (exists tr :: Run(c, tr) && Stuck(c, tr[|tr| - 1])) <==> c.nbuf == 2 && c.items != []
  {
    if c.nbuf == 2 && c.items != [] {
      var tr := DeadlockAtTwo(c);
    } else {
      forall tr | Run(c, tr) ensures !Stuck(c, tr[|tr| - 1]) {
        var s := tr[|tr| - 1];
        RunInv(c, tr, |tr| - 1);
        if !Finished(s) {
          var t := Progress(c, s);
        }
      }
    }
  }

  // ---------------------------------------------------------------- termination

  function ProducerRank(p: ProducerPc): nat {
    match p
    case LockNext => 6 case UnlockPrev => 5 case Fill => 4 case Count => 3
    case Release => 3 case Check => 2 case Join => 1 case Closed => 0
  }

  function ConsumerRank(q: ConsumerPc): nat {
    match q
    case Acquire => 5 case HandBack => 4 case Inspect => 3 case Send => 2
    case Retire => 1 case Quit => 1 case Exited => 0
  }

  ghost function Work(c: Config, s: State): int
    requires s.retired <= s.filled <= |c.items|
  {
    8 * (|c.items| - s.filled) + ProducerRank(s.ppc)
    + 8 * (|c.items| - s.retired) + ConsumerRank(s.cpc)
    + |Flatten(c.items[s.retired..])| - (if ConsumerReading(s) then s.off else 0)
  }

  lemma ProducerWork(c: Config, s: State, t: State)
    requires Shape(c, s) && Window(c, s) && Window(c, t) && ProducerStep(c, s, t)
    ensures Work(c, t) < Work(c, s)
  {
    assert t.retired == s.retired && t.cpc == s.cpc && t.off == s.off;
    assert 8 * (|c.items| - t.filled) + ProducerRank(t.ppc) < 8 * (|c.items| - s.filled) + ProducerRank(s.ppc);
  }

  lemma ConsumerWork(c: Config, s: State, t: State)
    requires Shape(c, s) && Window(c, s) && Output(c, s) && Window(c, t) && ConsumerStep(c, s, t)
    ensures Work(c, t) < Work(c, s)
  {
    assert t.filled == s.filled && t.ppc == s.ppc;
    if s.cpc.Retire? {
      assert c.items[s.retired..][1..] == c.items[t.retired..];
      assert Flatten(c.items[s.retired..]) == c.items[s.retired] + Flatten(c.items[t.retired..]);
    } else {
      assert t.retired == s.retired;
    }
  }

  lemma WorkDecreases(c: Config, s: State, t: State)
    requires Inv(c, s) && Inv(c, t) && Next(c, s, t)
    ensures Work(c, t) < Work(c, s)
  {
    if ProducerStep(c, s, t) {
      ProducerWork(c, s, t);
    } else {
      ConsumerWork(c, s, t);
    }
  }

  lemma WorkNonNegative(c: Config, s: State)
    requires Inv(c, s)
    ensures Work(c, s) >= 0
  {
    if ConsumerReading(s) {
      assert Flatten(c.items[s.retired..]) == c.items[s.retired] + Flatten(c.items[s.retired..][1..]);
    }
  }

  lemma {:induction false} RunLength(c: Config, tr: seq<State>, i: nat)
    requires Run(c, tr) && i < |tr|
    ensures Inv(c, tr[i]) && i + Work(c, tr[i]) <= Work(c, Init(c))
  {
    RunInv(c, tr, i);
    if i > 0 {
      RunLength(c, tr, i - 1);
      assert Next(c, tr[i - 1], tr[i - 1 + 1]);
      WorkDecreases(c, tr[i - 1], tr[i]);
    }
  }

  /** Total correctness: no run is longer than a bound fixed by the data, and a run that cannot be
      extended has stopped both threads with every byte sent, in order, once. */
  lemma EveryMaximalRunDelivers(c: Config, tr: seq<State>)
    requires Run(c, tr) && c.nbuf >= 3
    ensures |tr| <= 16 * |c.items| + |Flatten(c.items)| + 10
    ensures Halted(c, tr[|tr| - 1]) ==>
              Finished(tr[|tr| - 1]) && tr[|tr| - 1].sent == Flatten(c.items)
  {
    var s := tr[|tr| - 1];
    RunLength(c, tr, |tr| - 1);
    WorkNonNegative(c, s);
    assert c.items[0..] == c.items;
    RingSafety(c, tr, |tr| - 1);
    if !Finished(s) {
      var t := Progress(c, s);
    }
  }
}
