/** The buffer ring of vsib_recv: the network thread fills buffers, main writes them to disk.  Main
    starts by locking the last mutex twice: the second time it waits for the thread, which gives that
    mutex back once it holds the first buffer.  Nothing stops the thread from running on to the last
    buffer before main has got it. */
module ReceiverRing {
  import opened Common

  /** How the stream ends behind the last filling that is counted: with no further byte; within that
      filling, which is counted as the thread ends, and no other buffer is locked; or with bytes read
      into a further buffer but not counted, that is right behind the size fields of a header, or
      with a bad name size in them. */
  datatype Ending = Clean | Partial | Spoiled

  /** Ring size, which of the fillings are headers, and the ending. */
  datatype Config = Config(nbuf: nat, header: seq<bool>, end: Ending)

  /** A buffer: the filling whose bytes it holds, and whether nbufsize says how many there are. */
  datatype Content = Content(item: Option<nat>, sized: bool)

  /** What main took: the filling, and whether it got all of it. */
  datatype Taken = Taken(item: Option<nat>, whole: bool)

  datatype ThreadPc = LockNext | UnlockPrev | Fill | Count | Close | Gone
  datatype MainPc = Wait | Acquire | HandBack | Inspect | Take | Retire | Done

  datatype State = State(
    locked: seq<bool>, buf: seq<Content>, nfull: int,
    tpc: ThreadPc, ti: nat, tj: nat, filled: nat,
    mpc: MainPc, mi: nat, mj: nat, retired: nat, taken: seq<Taken>)

  ghost predicate Shape(c: Config, s: State) {
    && Ring(c) && |s.locked| == |s.buf| == c.nbuf
    && s.ti < c.nbuf && s.tj < c.nbuf && s.mi < c.nbuf && s.mj < c.nbuf
  }

  function Fillings(c: Config): nat { |c.header| }

  /** Every stream starts with a header. */
  ghost predicate Ring(c: Config) {
    c.nbuf >= 3 && (c.end.Partial? ==> Fillings(c) > 0) && (Fillings(c) > 0 ==> c.header[0])
  }

  /** The `k`-th buffer that main takes is a header, whose size main does not look at. */
  predicate AsHeader(c: Config, k: nat) { k < Fillings(c) && c.header[k] }

  function Init(c: Config): State
    requires c.nbuf >= 3
  {
    State(seq(c.nbuf, i => i == c.nbuf - 1), seq(c.nbuf, _ => Content(None, false)), 0,
          LockNext, 0, c.nbuf - 1, 0,
          Wait, 0, c.nbuf - 1, 0, [])
  }

  /** The buffer in which the thread meets the end: its size is set to zero, its bytes stay unless some
      have been read. */
  function LeftBehind(c: Config, b: Content): Content { Content(if c.end.Spoiled? then None else b.item, false) }

  ghost predicate ThreadStep(c: Config, s: State, t: State)
    requires Shape(c, s)
  {
    match s.tpc
    case LockNext => !s.locked[s.ti] && t == s.(locked := s.locked[s.ti := true], tpc := UnlockPrev)
    case UnlockPrev => t == s.(locked := s.locked[s.tj := false], tpc := Fill)
    case Fill =>
      if s.filled < Fillings(c) then t == s.(buf := s.buf[s.ti := Content(Some(s.filled), true)], tpc := Count)
      else t == s.(buf := s.buf[s.ti := LeftBehind(c, s.buf[s.ti])], tpc := Close)
    case Count =>
      if c.end.Partial? && s.filled + 1 == Fillings(c)
      then t == s.(nfull := s.nfull + 1, filled := s.filled + 1, tpc := Close)
      else t == s.(nfull := s.nfull + 1, filled := s.filled + 1,
                   tj := s.ti, ti := (s.ti + 1) % c.nbuf, tpc := LockNext)
    case Close => t == s.(locked := s.locked[s.ti := false], tpc := Gone)
    case Gone => false
  }

  ghost predicate MainStep(c: Config, s: State, t: State)
    requires Shape(c, s)
  {
    match s.mpc
    case Wait => !s.locked[s.mj] && t == s.(locked := s.locked[s.mj := true], mpc := Acquire)
    case Acquire => !s.locked[s.mi] && t == s.(locked := s.locked[s.mi := true], mpc := HandBack)
    case HandBack => t == s.(locked := s.locked[s.mj := false], mpc := Inspect)
    case Inspect => t == s.(mpc := if s.nfull == 0 then Done else Take)
    case Take => t == s.(taken := s.taken + [Taken(s.buf[s.mi].item, s.buf[s.mi].sized || AsHeader(c, |s.taken|))], mpc := Retire)
    case Retire =>
      t == s.(nfull := s.nfull - 1, retired := s.retired + 1,
              mj := s.mi, mi := (s.mi + 1) % c.nbuf, mpc := Acquire)
    case Done => false
  }

  ghost predicate Next(c: Config, s: State, t: State) {
    Shape(c, s) && (ThreadStep(c, s, t) || MainStep(c, s, t))
  }

  ghost predicate StepAt(c: Config, tr: seq<State>, i: nat) { i + 1 < |tr| && Next(c, tr[i], tr[i + 1]) }

  ghost predicate Run(c: Config, tr: seq<State>) {
    && Ring(c) && |tr| > 0 && tr[0] == Init(c)
    && forall i :: 0 <= i < |tr| - 1 ==> StepAt(c, tr, i)
  }

  // ---------------------------------------------------------------- invariant

  /** The filling that the thread works on or waits to start, and the oldest one it still holds. */
  function Position(c: Config, s: State): int {
    if s.tpc.Close? && c.end.Partial? then s.filled - 1 else s.filled
  }

  function ThreadLow(c: Config, s: State): int {
    if s.tpc.LockNext? || s.tpc.UnlockPrev? then s.filled - 1 else Position(c, s)
  }

  function MainLow(s: State): int { if s.mpc.Acquire? || s.mpc.HandBack? then s.retired - 1 else s.retired }

  ghost predicate ThreadHolds(s: State, r: nat) {
    match s.tpc
    case LockNext => r == s.tj
    case UnlockPrev => r == s.ti || r == s.tj
    case Gone => false
    case _ => r == s.ti
  }

  ghost predicate MainHolds(s: State, r: nat) {
    match s.mpc
    case Wait => false
    case Acquire => r == s.mj
    case HandBack => r == s.mi || r == s.mj
    case _ => r == s.mi
  }

  /** No byte is read into the first buffer a second time. */
  predicate Short(c: Config) { Fillings(c) < c.nbuf || (Fillings(c) == c.nbuf && !c.end.Spoiled?) }

  /** The thread has filled every buffer, and meets a clean end in the first one, before main has looked
      at any. */
  predicate Lapped(c: Config, s: State) {
    && c.end.Clean? && Fillings(c) == s.filled == c.nbuf && s.retired == 0
    && (s.mpc.Wait? || (s.mpc.Acquire? && (s.tpc.Fill? || s.tpc.Close?)))
    && !s.tpc.Count? && !s.tpc.Gone?
  }

  /** Main still waits for the last mutex, and the thread has taken it for a filling. */
  predicate Overtaken(c: Config, s: State) {
    s.mpc.Wait? && !s.tpc.LockNext? && !s.tpc.Gone? && Position(c, s) >= c.nbuf - 1
  }

  ghost predicate Indices(c: Config, s: State) {
    && Shape(c, s)
    && (!s.tpc.Gone? ==> s.ti == Position(c, s) % c.nbuf)
    && (s.tpc.LockNext? || s.tpc.UnlockPrev? ==> s.tj == (s.filled - 1) % c.nbuf)
    && s.mi == s.retired % c.nbuf
    && (s.mpc.Wait? || s.mpc.Acquire? || s.mpc.HandBack? ==> s.mj == (s.retired - 1) % c.nbuf)
  }

  /** How far the thread is. */
  ghost predicate Progressed(c: Config, s: State) {
    && s.filled <= Fillings(c)
    && (s.tpc.Count? ==> s.filled < Fillings(c))
    && (s.tpc.Close? || s.tpc.Gone? ==> s.filled == Fillings(c))
    && (c.end.Partial? && !s.tpc.Close? && !s.tpc.Gone? ==> s.filled < Fillings(c))
  }

  ghost predicate Window(c: Config, s: State) {
    && s.retired <= s.filled && s.nfull == s.filled - s.retired
    && (s.mpc.Take? || s.mpc.Retire? ==> s.retired < s.filled)
    && (s.mpc.Done? ==> s.tpc.Gone? && s.retired == s.filled)
    && (s.mpc.Wait? ==> s.retired == 0 && (!s.tpc.Gone? && !Lapped(c, s) ==> Position(c, s) < c.nbuf))
    && (!s.mpc.Wait? && !s.tpc.Gone? && !Lapped(c, s) ==>
          && s.retired <= ThreadLow(c, s)
          && (!s.mpc.Acquire? ==> s.retired < ThreadLow(c, s))
          && Position(c, s) <= MainLow(s) + c.nbuf - (if s.tpc.LockNext? then 0 else 1))
  }

  ghost predicate Locks(c: Config, s: State)
    requires Shape(c, s)
  {
    forall r :: 0 <= r < c.nbuf ==> (s.locked[r] <==> ThreadHolds(s, r) || MainHolds(s, r))
  }

  ghost predicate Data(c: Config, s: State)
    requires Shape(c, s)
  {
    && (forall k :: s.retired <= k < s.filled ==> Holds(c, s.buf[k % c.nbuf], k))
    && (s.tpc.Count? ==> s.buf[s.ti] == Content(Some(s.filled), true))
  }

  /** All that main will look at of filling `k`. */
  predicate Holds(c: Config, b: Content, k: nat) { b.item == Some(k) && (b.sized || AsHeader(c, k)) }

  /** Main has taken the fillings in order, each once and whole. */
  predicate InOrder(taken: seq<Taken>) { forall k :: 0 <= k < |taken| ==> taken[k] == Taken(Some(k), true) }

  ghost predicate Output(s: State) {
    |s.taken| == s.retired + (if s.mpc.Retire? then 1 else 0) && InOrder(s.taken)
  }

  ghost predicate Inv(c: Config, s: State) {
    Indices(c, s) && Progressed(c, s) && Window(c, s) && Locks(c, s) && Data(c, s) && Output(s)
  }

  lemma InitInv(c: Config)
    requires Ring(c)
    ensures Inv(c, Init(c))
  {
    ModUnique(0, c.nbuf, 0, 0);
    ModUnique(-1, c.nbuf, -1, c.nbuf - 1);
  }

  /** No buffer is held by both, and the two that one holds during a handover differ. */
  lemma Exclusive(c: Config, s: State, r: nat)
    requires Indices(c, s) && Window(c, s)
    ensures !(ThreadHolds(s, r) && MainHolds(s, r))
    ensures s.tpc.UnlockPrev? ==> s.ti != s.tj
    ensures s.mpc.HandBack? ==> s.mi != s.mj
  {
    var n, p, m := c.nbuf, Position(c, s), s.retired;
    SlotsDiffer(s.filled - 1, s.filled, n);
    SlotsDiffer(m - 1, m, n);
    if m < p < m + n { SlotsDiffer(m, p, n); }
    if m < s.filled - 1 < m + n { SlotsDiffer(m, s.filled - 1, n); }
    if m - 1 < p < m - 1 + n { SlotsDiffer(m - 1, p, n); }
    if m - 1 < s.filled - 1 < m - 1 + n { SlotsDiffer(m - 1, s.filled - 1, n); }
    ModUnique(-1, n, -1, n - 1);
    ModUnique(n, n, 1, 0);
  }

  lemma ThreadIndices(c: Config, s: State, t: State)
    requires Inv(c, s) && ThreadStep(c, s, t)
    ensures Indices(c, t) && Progressed(c, t)
  {
    SlotSucc(s.filled, c.nbuf);
  }

  lemma WindowLocked(c: Config, s: State, t: State)
    requires Shape(c, s) && Progressed(c, s) && Window(c, s) && s.tpc.LockNext? && ThreadStep(c, s, t)
    requires s.mpc.Wait? ==> s.filled < c.nbuf || Lapped(c, s)
    requires !s.mpc.Wait? ==> s.filled < MainLow(s) + c.nbuf
    ensures Window(c, t)
  {
  }

  lemma WindowCounted(c: Config, s: State, t: State)
    requires Shape(c, s) && Progressed(c, s) && Window(c, s) && s.tpc.Count? && ThreadStep(c, s, t)
    requires s.mpc.Wait? && !t.tpc.Close? ==> s.filled + 1 < c.nbuf || (s.filled + 1 == Fillings(c) == c.nbuf && c.end.Clean?)
    ensures Window(c, t)
  {
  }

  lemma WindowElsewhere(c: Config, s: State, t: State)
    requires Shape(c, s) && Progressed(c, s) && Window(c, s) && ThreadStep(c, s, t)
    requires !s.tpc.LockNext? && !s.tpc.Count?
    ensures Window(c, t)
  {
  }

  /** The thread never gets past a buffer that main has not given back. */
  lemma ThreadWindow(c: Config, s: State, t: State)
    requires Inv(c, s) && ThreadStep(c, s, t) && (Short(c) || !Overtaken(c, s))
    ensures Window(c, t)
  {
    if s.tpc.LockNext? {
      if !s.mpc.Wait? { NotBehindMain(c, s); }
      WindowLocked(c, s, t);
    } else if s.tpc.Count? {
      WindowCounted(c, s, t);
    } else {
      WindowElsewhere(c, s, t);
    }
  }

  /** The buffer that the thread could lap main at is held by main. */
  lemma NotBehindMain(c: Config, s: State)
    requires Indices(c, s) && Window(c, s) && Locks(c, s) && s.tpc.LockNext? && !s.mpc.Wait? && !s.locked[s.ti]
    ensures s.filled < MainLow(s) + c.nbuf
  {
    SlotLap(MainLow(s), c.nbuf);
    assert MainHolds(s, MainLow(s) % c.nbuf);
  }

  lemma ThreadData(c: Config, s: State, t: State)
    requires Inv(c, s) && ThreadStep(c, s, t)
    ensures Data(c, t)
  {
    if s.tpc.Fill? {
      forall k | t.retired <= k < t.filled ensures Holds(c, t.buf[k % c.nbuf], k) {
        assert Holds(c, s.buf[k % c.nbuf], k);
        if s.filled < k + c.nbuf { SlotsDiffer(k, s.filled, c.nbuf); }
      }
    }
  }

  lemma ThreadLocks(c: Config, s: State, t: State)
    requires Indices(c, s) && Window(c, s) && Locks(c, s) && ThreadStep(c, s, t) && Indices(c, t) && Window(c, t)
    ensures Locks(c, t)
  {
    forall r | 0 <= r < c.nbuf ensures t.locked[r] <==> ThreadHolds(t, r) || MainHolds(t, r) {
      assert MainHolds(t, r) == MainHolds(s, r);
      Exclusive(c, s, r);
      Exclusive(c, t, r);
    }
  }

  lemma MainIndices(c: Config, s: State, t: State)
    requires Inv(c, s) && MainStep(c, s, t)
    ensures Indices(c, t) && Progressed(c, t)
  {
    SlotSucc(s.retired, c.nbuf);
  }

  /** When main gets the last mutex, the thread is between that buffer and the first one, or has lapped
      main and meets the end there. */
  lemma WindowWaited(c: Config, s: State, t: State)
    requires Indices(c, s) && Progressed(c, s) && Window(c, s) && Locks(c, s) && s.mpc.Wait? && MainStep(c, s, t)
    ensures Window(c, t)
  {
    var n, p := c.nbuf, Position(c, s);
    ModUnique(-1, n, -1, n - 1);
    if !s.tpc.Gone? {
      ThreadSlots(c, s);
      assert ThreadLow(c, s) % n != n - 1;
      if !Lapped(c, s) && 0 <= p { ModUnique(p, n, 0, p); }
      if Lapped(c, s) { ModUnique(n - 1, n, 0, n - 1); }
    }
  }

  lemma WindowAcquired(c: Config, s: State, t: State)
    requires Indices(c, s) && Progressed(c, s) && Window(c, s) && Locks(c, s) && s.mpc.Acquire? && MainStep(c, s, t)
    ensures Window(c, t)
  {
    if !s.tpc.Gone? {
      ThreadSlots(c, s);
      ModUnique(0, c.nbuf, 0, 0);
      ModUnique(c.nbuf, c.nbuf, 1, 0);
    }
  }

  lemma WindowFurther(c: Config, s: State, t: State)
    requires Shape(c, s) && Progressed(c, s) && Window(c, s) && !s.mpc.Wait? && !s.mpc.Acquire? && MainStep(c, s, t)
    ensures Window(c, t)
  {
  }

  /** Main gets a buffer only after the thread has given it up. */
  lemma MainWindow(c: Config, s: State, t: State)
    requires Inv(c, s) && MainStep(c, s, t)
    ensures Window(c, t)
  {
    if s.mpc.Wait? {
      WindowWaited(c, s, t);
    } else if s.mpc.Acquire? {
      WindowAcquired(c, s, t);
    } else {
      WindowFurther(c, s, t);
    }
  }

  lemma ThreadSlots(c: Config, s: State)
    requires Indices(c, s) && !s.tpc.Gone?
    ensures ThreadHolds(s, ThreadLow(c, s) % c.nbuf)
    ensures !s.tpc.LockNext? ==> ThreadHolds(s, Position(c, s) % c.nbuf)
  {
  }

  lemma MainData(c: Config, s: State, t: State)
    requires Inv(c, s) && MainStep(c, s, t)
    ensures Data(c, t) && Output(t)
  {
  }

  lemma MainLocks(c: Config, s: State, t: State)
    requires Indices(c, s) && Window(c, s) && Locks(c, s) && MainStep(c, s, t) && Indices(c, t) && Window(c, t)
    ensures Locks(c, t)
  {
    forall r | 0 <= r < c.nbuf ensures t.locked[r] <==> ThreadHolds(t, r) || MainHolds(t, r) {
      assert ThreadHolds(t, r) == ThreadHolds(s, r);
      Exclusive(c, s, r);
      Exclusive(c, t, r);
    }
  }

  lemma StepKeeps(c: Config, s: State, t: State)
    requires Inv(c, s) && Next(c, s, t) && (Short(c) || !Overtaken(c, s))
    ensures Inv(c, t)
  {
    if ThreadStep(c, s, t) {
      ThreadIndices(c, s, t);
      ThreadWindow(c, s, t);
      ThreadData(c, s, t);
      ThreadLocks(c, s, t);
    } else {
      MainIndices(c, s, t);
      MainWindow(c, s, t);
      MainData(c, s, t);
      MainLocks(c, s, t);
    }
  }

  // ---------------------------------------------------------------- every run

  ghost predicate NeverOvertaken(c: Config, tr: seq<State>) {
    forall i :: 0 <= i < |tr| ==> !Overtaken(c, tr[i])
  }

  lemma {:induction false} RunInv(c: Config, tr: seq<State>, i: nat)
    requires Run(c, tr) && i < |tr| && (Short(c) || NeverOvertaken(c, tr))
    ensures Inv(c, tr[i])
  {
    if i == 0 {
      InitInv(c);
    } else {
      RunInv(c, tr, i - 1);
      assert StepAt(c, tr, i - 1);
      StepKeeps(c, tr[i - 1], tr[i]);
    }
  }

  /** In every run in which main gets the last mutex before the thread needs it, and in every run of a
      short stream: main takes the fillings in order, each whole and once, nfullbuf counts those not
      yet taken, a buffer being filled holds nothing main still wants, and main ends only when the
      thread has ended and everything has been taken. */
  lemma ReceiverSafety(c: Config, tr: seq<State>, i: nat)
    requires Run(c, tr) && i < |tr| && (Short(c) || NeverOvertaken(c, tr))
    ensures var s := tr[i];
      && InOrder(s.taken) && |s.taken| <= Fillings(c) && s.nfull == s.filled - s.retired >= 0
      && ((s.tpc.Fill? && s.filled < Fillings(c)) || s.tpc.Count? ==>
            forall k :: s.retired <= k < s.filled ==> k % c.nbuf != s.ti)
      && (s.mpc.Done? ==> s.tpc.Gone? && |s.taken| == Fillings(c))
  {
    RunInv(c, tr, i);
    var s := tr[i];
    if (s.tpc.Fill? && s.filled < Fillings(c)) || s.tpc.Count? {
      forall k | s.retired <= k < s.filled ensures k % c.nbuf != s.ti {
        SlotsDiffer(k, s.filled, c.nbuf);
      }
    }
  }

  // ---------------------------------------------------------------- every run ends

  /** Some thread can step until both are done. */
  lemma Progress(c: Config, s: State) returns (t: State)
    requires Inv(c, s) && !(s.mpc.Done? && s.tpc.Gone?)
    ensures Next(c, s, t)
  {
    if !s.tpc.Gone? && !(s.tpc.LockNext? && s.locked[s.ti]) {
      t := ThreadMove(c, s);
    } else if s.tpc.Gone? {
      GoneLocks(c, s);
      t := MainMove(c, s);
    } else {
      WaitingLocks(c, s);
      t := MainMove(c, s);
    }
  }

  lemma ThreadMove(c: Config, s: State) returns (t: State)
    requires Shape(c, s) && !s.tpc.Gone? && !(s.tpc.LockNext? && s.locked[s.ti])
    ensures Next(c, s, t)
  {
    match s.tpc
    case LockNext => t := s.(locked := s.locked[s.ti := true], tpc := UnlockPrev);
    case UnlockPrev => t := s.(locked := s.locked[s.tj := false], tpc := Fill);
    case Fill =>
      if s.filled < Fillings(c) {
        t := s.(buf := s.buf[s.ti := Content(Some(s.filled), true)], tpc := Count);
      } else {
        t := s.(buf := s.buf[s.ti := LeftBehind(c, s.buf[s.ti])], tpc := Close);
      }
    case Count =>
      if c.end.Partial? && s.filled + 1 == Fillings(c) {
        t := s.(nfull := s.nfull + 1, filled := s.filled + 1, tpc := Close);
      } else {
        t := s.(nfull := s.nfull + 1, filled := s.filled + 1, tj := s.ti, ti := (s.ti + 1) % c.nbuf, tpc := LockNext);
      }
    case Close => t := s.(locked := s.locked[s.ti := false], tpc := Gone);
    assert ThreadStep(c, s, t);
  }

  lemma MainMove(c: Config, s: State) returns (t: State)
    requires Shape(c, s) && !s.mpc.Done? && !(s.mpc.Wait? && s.locked[s.mj]) && !(s.mpc.Acquire? && s.locked[s.mi])
    ensures Next(c, s, t)
  {
    match s.mpc
    case Wait => t := s.(locked := s.locked[s.mj := true], mpc := Acquire);
    case Acquire => t := s.(locked := s.locked[s.mi := true], mpc := HandBack);
    case HandBack => t := s.(locked := s.locked[s.mj := false], mpc := Inspect);
    case Inspect => t := s.(mpc := if s.nfull == 0 then Done else Take);
    case Take =>
      t := s.(taken := s.taken + [Taken(s.buf[s.mi].item, s.buf[s.mi].sized || AsHeader(c, |s.taken|))], mpc := Retire);
    case Retire =>
      t := s.(nfull := s.nfull - 1, retired := s.retired + 1, mj := s.mi, mi := (s.mi + 1) % c.nbuf, mpc := Acquire);
    assert MainStep(c, s, t);
  }

  /** Nothing holds main up once the thread has ended. */
  lemma GoneLocks(c: Config, s: State)
    requires Inv(c, s) && s.tpc.Gone?
    ensures !(s.mpc.Wait? && s.locked[s.mj]) && !(s.mpc.Acquire? && s.locked[s.mi])
  {
    SlotsDiffer(s.retired - 1, s.retired, c.nbuf);
  }

  /** A thread that waits for a buffer waits for main, which is not waiting for the thread. */
  lemma WaitingLocks(c: Config, s: State)
    requires Inv(c, s) && s.tpc.LockNext? && s.locked[s.ti]
    ensures !s.mpc.Wait? && !s.mpc.Done? && !(s.mpc.Acquire? && s.locked[s.mi])
  {
    SlotsDiffer(s.filled - 1, s.filled, c.nbuf);
    assert MainHolds(s, s.ti);
    if s.mpc.Acquire? {
      FullRing(c, s);
      assert !ThreadHolds(s, s.mi) && !MainHolds(s, s.mi);
    }
  }

  /** Main holds the buffer behind which the ring is full, and wants one that the thread does not hold. */
  lemma FullRing(c: Config, s: State)
    requires Indices(c, s) && Window(c, s) && s.tpc.LockNext? && s.mpc.Acquire? && s.mj == s.ti
    ensures s.mi != s.tj && s.mi != s.mj
  {
    FullPositions(s.retired, s.filled, c.nbuf);
  }

  lemma FullPositions(m: int, f: int, n: nat)
    requires n >= 3 && m < f < m + n && (m - 1) % n == f % n
    ensures m % n != (f - 1) % n && m % n != (m - 1) % n
  {
    if f < m - 1 + n { SlotsDiffer(m - 1, f, n); }
    assert f == m - 1 + n;
    SlotsDiffer(m, f - 1, n);
    SlotsDiffer(m - 1, m, n);
  }

  function ThreadRank(p: ThreadPc): nat {
    match p
    case LockNext => 6
    case UnlockPrev => 5
    case Fill => 4
    case Count => 3
    case Close => 1
    case Gone => 0
  }

  function MainRank(p: MainPc): nat {
    match p
    case Wait => 7
    case Acquire => 6
    case HandBack => 5
    case Inspect => 4
    case Take => 3
    case Retire => 2
    case Done => 0
  }

  function Work(c: Config, s: State): int {
    4 * (Fillings(c) - s.filled) + ThreadRank(s.tpc) + 5 * (Fillings(c) - s.retired) + MainRank(s.mpc)
  }

  lemma WorkDecreases(c: Config, s: State, t: State)
    requires Next(c, s, t)
    ensures Work(c, t) < Work(c, s)
  {
    if ThreadStep(c, s, t) { ThreadWork(c, s, t); } else { MainWork(c, s, t); }
  }

  lemma ThreadWork(c: Config, s: State, t: State)
    requires Shape(c, s) && ThreadStep(c, s, t)
    ensures Work(c, t) < Work(c, s)
  {
  }

  lemma MainWork(c: Config, s: State, t: State)
    requires Shape(c, s) && MainStep(c, s, t)
    ensures Work(c, t) < Work(c, s)
  {
  }

  lemma {:induction false} RunLength(c: Config, tr: seq<State>, i: nat)
    requires Run(c, tr) && i < |tr|
    ensures i + Work(c, tr[i]) <= 9 * Fillings(c) + 13
  {
    if i > 0 {
      RunLength(c, tr, i - 1);
      assert StepAt(c, tr, i - 1);
      WorkDecreases(c, tr[i - 1], tr[i]);
    }
  }

  ghost predicate Halted(c: Config, s: State) { forall t :: !Next(c, s, t) }

  /** Total correctness: with no byte read into the first buffer again, or main not overtaken, no run is
      longer than a bound fixed by the stream, and a run that cannot go on has ended both threads
      with every filling taken once, whole and in order. */
  lemma EveryMaximalRunDelivers(c: Config, tr: seq<State>)
    requires Run(c, tr) && (Short(c) || NeverOvertaken(c, tr))
    ensures |tr| <= 9 * Fillings(c) + 14
    ensures var s := tr[|tr| - 1]; Halted(c, s) ==>
              s.mpc.Done? && s.tpc.Gone? && |s.taken| == Fillings(c) && InOrder(s.taken)
  {
    var s := tr[|tr| - 1];
    RunLength(c, tr, |tr| - 1);
    RunInv(c, tr, |tr| - 1);
    ReceiverSafety(c, tr, |tr| - 1);
    assert Work(c, s) >= 0;
    if Halted(c, s) && !(s.mpc.Done? && s.tpc.Gone?) {
      var t := Progress(c, s);
    }
  }

  // ---------------------------------------------------------------- an overtaking run

  ghost function Last(tr: seq<State>): State
    requires tr != []
  {
    tr[|tr| - 1]
  }

  lemma Extend(c: Config, tr: seq<State>, t: State) returns (longer: seq<State>)
    requires Run(c, tr) && Next(c, Last(tr), t)
    ensures Run(c, longer) && Last(longer) == t
  {
    longer := tr + [t];
    forall i | 0 <= i < |longer| - 1 ensures StepAt(c, longer, i) {
      if i < |tr| - 1 { assert StepAt(c, tr, i); }
    }
  }

  /** Main waits; the thread holds one buffer, and those before it are filled. */
  ghost predicate RanAhead(c: Config, s: State, m: nat) {
    && Shape(c, s) && m <= c.nbuf && s.mpc.Wait? && s.mi == 0 && s.mj == c.nbuf - 1 && s.taken == []
    && s.tpc.Fill? && s.filled == m == s.nfull && s.ti == (if m < c.nbuf then m else 0)
    && (forall r :: 0 <= r < c.nbuf ==> (s.locked[r] <==> r == s.ti))
  }

  lemma {:induction false} RunAhead(c: Config, m: nat) returns (tr: seq<State>)
    requires Ring(c) && m <= c.nbuf && m <= Fillings(c) && (c.end.Partial? ==> m < Fillings(c))
    ensures Run(c, tr) && RanAhead(c, Last(tr), m)
    decreases m
  {
    if m == 0 {
      var s := Init(c);
      tr := [s];
      tr := Extend(c, tr, s.(locked := s.locked[0 := true], tpc := UnlockPrev));
      tr := Extend(c, tr, Last(tr).(locked := Last(tr).locked[c.nbuf - 1 := false], tpc := Fill));
    } else {
      tr := RunAhead(c, m - 1);
      tr := FillOne(c, tr, m - 1);
    }
  }

  lemma FillOne(c: Config, tr: seq<State>, m: nat) returns (longer: seq<State>)
    requires Run(c, tr) && RanAhead(c, Last(tr), m) && m < c.nbuf && m < Fillings(c) && (c.end.Partial? ==> m + 1 < Fillings(c))
    ensures Run(c, longer) && RanAhead(c, Last(longer), m + 1)
  {
    var s, next := Last(tr), if m + 1 < c.nbuf then m + 1 else 0;
    ModUnique(m + 1, c.nbuf, if m + 1 < c.nbuf then 0 else 1, next);
    var t := s.(buf := s.buf[m := Content(Some(m), true)], tpc := Count);
    longer := Extend(c, tr, t);
    t := t.(nfull := m + 1, filled := m + 1, tj := m, ti := next, tpc := LockNext);
    longer := Extend(c, longer, t);
    t := t.(locked := t.locked[next := true], tpc := UnlockPrev);
    longer := Extend(c, longer, t);
    t := t.(locked := t.locked[m := false], tpc := Fill);
    longer := Extend(c, longer, t);
  }

  /** The thread writes over the first buffer and lets go of it. */
  lemma WriteOver(c: Config, tr: seq<State>) returns (longer: seq<State>)
    requires Run(c, tr) && RanAhead(c, Last(tr), c.nbuf) && !Short(c)
    ensures Run(c, longer)
    ensures var s := Last(longer);
      && Shape(c, s) && s.mpc.Wait? && s.mi == 0 && s.mj == c.nbuf - 1 && s.taken == [] && s.nfull > 0
      && !s.locked[0] && !s.locked[c.nbuf - 1] && s.buf[0].item != Some(0)
  {
    var s, n := Last(tr), c.nbuf;
    if Fillings(c) == n {
      var t := s.(buf := s.buf[0 := Content(None, false)], tpc := Close);
      longer := Extend(c, tr, t);
      longer := Extend(c, longer, t.(locked := t.locked[0 := false], tpc := Gone));
    } else {
      var t := s.(buf := s.buf[0 := Content(Some(n), true)], tpc := Count);
      longer := Extend(c, tr, t);
      if c.end.Partial? && n + 1 == Fillings(c) {
        t := t.(nfull := n + 1, filled := n + 1, tpc := Close);
        longer := Extend(c, longer, t);
        longer := Extend(c, longer, t.(locked := t.locked[0 := false], tpc := Gone));
      } else {
        ModUnique(1, n, 0, 1);
        t := t.(nfull := n + 1, filled := n + 1, tj := 0, ti := 1, tpc := LockNext);
        longer := Extend(c, longer, t);
        t := t.(locked := t.locked[1 := true], tpc := UnlockPrev);
        longer := Extend(c, longer, t);
        longer := Extend(c, longer, t.(locked := t.locked[0 := false], tpc := Fill));
      }
    }
  }

  /** Main then starts with the first buffer, whose filling is gone. */
  lemma TakeFirst(c: Config, tr: seq<State>) returns (longer: seq<State>)
    requires Run(c, tr)
    requires var s := Last(tr);
      && Shape(c, s) && s.mpc.Wait? && s.mi == 0 && s.mj == c.nbuf - 1 && s.taken == [] && s.nfull > 0
      && !s.locked[0] && !s.locked[c.nbuf - 1]
    ensures Run(c, longer) && |Last(longer).taken| == 1 && Last(longer).taken[0].item == Last(tr).buf[0].item
  {
    var t := Last(tr);
    t := t.(locked := t.locked[c.nbuf - 1 := true], mpc := Acquire);
    longer := Extend(c, tr, t);
    t := t.(locked := t.locked[0 := true], mpc := HandBack);
    longer := Extend(c, longer, t);
    t := t.(locked := t.locked[c.nbuf - 1 := false], mpc := Inspect);
    longer := Extend(c, longer, t);
    t := t.(mpc := Take);
    longer := Extend(c, longer, t);
    longer := Extend(c, longer, t.(taken := [Taken(t.buf[0].item, t.buf[0].sized || AsHeader(c, 0))], mpc := Retire));
  }

  lemma OvertakingRun(c: Config) returns (tr: seq<State>)
    requires Ring(c) && !Short(c)
    ensures Run(c, tr) && !InOrder(Last(tr).taken)
  {
    tr := RunAhead(c, c.nbuf);
    tr := WriteOver(c, tr);
    tr := TakeFirst(c, tr);
    assert Last(tr).taken[0] != Taken(Some(0), true);
  }

  ghost predicate AlwaysInOrder(c: Config) {
    forall tr: seq<State>, i: nat | Run(c, tr) && i < |tr| :: InOrder(tr[i].taken)
  }

  /** Every interleaving delivers the fillings in order and whole exactly when no byte is read into the
      first buffer a second time: there are fewer fillings than buffers, or as many and nothing has
      been read behind them.  (Then a clean end only resets the size of the first buffer, which holds
      a header.)  Otherwise the thread can lap main, which waits for the last mutex. */
  lemma ReceiverIff(c: Config)
    requires Ring(c)
    ensures AlwaysInOrder(c) <==> Short(c)
  {
    if Short(c) {
      forall tr: seq<State>, i: nat | Run(c, tr) && i < |tr| ensures InOrder(tr[i].taken) {
        ReceiverSafety(c, tr, i);
      }
    } else {
      var tr := OvertakingRun(c);
      assert !InOrder(tr[|tr| - 1].taken);
    }
  }
}
