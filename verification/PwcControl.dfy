/** Control of the primary write client: the one-slot command mailbox filled by command threads, and
    the main loop that empties it and moves between states. */
module PwcControl {
  import opened Common

  datatype PwcState = Idle | Prepared | Clocking | Recording | SoftError | HardError | FatalError

  datatype Code = NoCommand | Header | Clock | RecordStart | RecordStop | Start | Stop
                | SetUtcStart | Reset | Exit

  /** A `header` command points to the one header buffer that all threads share; `draft` numbers the
      text that its own thread wrote there. */
  datatype Command = Command(code: Code, utc: nat, byteCount: nat, draft: nat)

  /** Return values; anything other than these three counts as fatal. */
  datatype Failure = Soft | Hard | Fatal

  predicate IsError(s: PwcState) { s.SoftError? || s.HardError? || s.FatalError? }
  predicate Moving(s: PwcState) { s.Clocking? || s.Recording? }

  // ---------------------------------------------------------------- the shared structure

  /** What command threads and main share: the state, the mailbox slot and the header buffer. */
  datatype Shared = Shared(state: PwcState, command: Command, header: string)

  /** States in which a command is accepted. */
  predicate Accepts(s: PwcState, code: Code) {
    match code
    case Header => s.Idle?
    case Clock => s.Prepared?
    case RecordStart => s.Clocking?
    case RecordStop => s.Recording?
    case Start => s.Prepared?
    case SetUtcStart => Moving(s)
    case Reset => s.SoftError? || s.HardError?
    case Exit => s.Idle?
    case _ => true
  }

  /** The transitions dada_pwc_set_state allows. */
  predicate CanChange(a: PwcState, b: PwcState) {
    match a
    case Idle => b.Prepared? || IsError(b)
    case Prepared => b.Idle? || Moving(b) || IsError(b)
    case Clocking => b.Recording? || b.Idle? || IsError(b)
    case Recording => b.Clocking? || b.Idle? || IsError(b)
    case SoftError => b.Idle?
    case HardError => b.Idle?
    case FatalError => false
  }

  function Submitted(sh: Shared, c: Command): Shared {
    if Accepts(sh.state, c.code) then sh.(command := c) else sh
  }

  function Emptied(sh: Shared): Shared {
    sh.(command := sh.command.(code := NoCommand, byteCount := 0))
  }

  function WithDuration(sh: Shared, bytes: nat): Shared {
    if sh.state.Recording? then sh else sh.(command := sh.command.(byteCount := bytes))
  }

  function Changed(sh: Shared, s: PwcState): Shared {
    if CanChange(sh.state, s) then sh.(state := s) else sh
  }

  /** The state dada_pwc_main_process_error asks for. */
  function ErrorTarget(s: PwcState, f: Failure): PwcState {
    match f
    case Soft => if s.HardError? || s.FatalError? then s else SoftError
    case Hard => if s.FatalError? then s else HardError
    case Fatal => FatalError
  }

  /** The state a command asks for. */
  function Asked(code: Code): Option<PwcState> {
    match code
    case Header => Some(Prepared)
    case Clock => Some(Clocking)
    case RecordStop => Some(Clocking)
    case Start => Some(Recording)
    case RecordStart => Some(Recording)
    case Reset => Some(Idle)
    case _ => None
  }

  /** A command is accepted only where the transition it asks for is allowed; and each transition up to
      recording is asked for by exactly one command, which is accepted exactly in the state it leaves. */
  lemma AcceptedAllowed(s: PwcState, code: Code)
    ensures Accepts(s, code) && Asked(code).Some? ==> CanChange(s, Asked(code).value)
    ensures Accepts(s, Header) <==> s == Idle
    ensures Accepts(s, Clock) <==> CanChange(s, Clocking) && !Moving(s)
    ensures Accepts(s, RecordStop) <==> CanChange(s, Clocking) && Moving(s)
    ensures Accepts(s, Start) <==> CanChange(s, Recording) && !Moving(s)
    ensures Accepts(s, RecordStart) <==> CanChange(s, Recording) && Moving(s)
    ensures Accepts(s, Reset) <==> CanChange(s, Idle) && IsError(s)
    ensures (Accepts(s, SetUtcStart) <==> s in {Clocking, Recording}) && (Accepts(s, Exit) <==> s == Idle)
    ensures Accepts(s, Stop)
  {
  }

  /** The state graph: every state but a fatal error can go to idle or to an error, except that idle does
      not go to itself and an error goes only to idle; the rest is the way up and the two data states. */
  lemma Transitions(a: PwcState, b: PwcState)
    ensures CanChange(a, b) <==>
            || (a, b) in {(Idle, Prepared), (Prepared, Clocking), (Prepared, Recording),
                          (Clocking, Recording), (Recording, Clocking)}
            || (b == Idle && a != Idle && a != FatalError)
            || (b in {SoftError, HardError, FatalError} && a in {Idle, Prepared, Clocking, Recording})
  {
  }

  /** dada_pwc_t: each method is the body of one critical section, entered once its wait is over. */
  class Pwc {
    var state: PwcState
    var command: Command
    var header: string

    ghost function Value(): Shared
      reads this
    {
      Shared(state, command, header)
    }

    constructor ()
      ensures Value() == Shared(Idle, Command(NoCommand, 0, 0, 0), "")
    {
      state := Idle;
      command := Command(NoCommand, 0, 0, 0);
      header := "";
    }

    /** dada_pwc_cmd_header copies its text before it waits for the slot, and without the mutex. */
    method WriteHeader(text: string)
      modifies this
      ensures Value() == old(Value()).(header := text)
    {
      header := text;
    }

    method CommandSet(c: Command) returns (accepted: bool)
      requires command.code.NoCommand?
      modifies this
      ensures accepted == Accepts(old(state), c.code) && Value() == Submitted(old(Value()), c)
      ensures state == old(state) && header == old(header) && command == if accepted then c else old(command)
    {
      match c.code {
        case Header => accepted := state == Idle;
        case Clock => accepted := state == Prepared;
        case RecordStart => accepted := state == Clocking;
        case RecordStop => accepted := state == Recording;
        case Start => accepted := state == Prepared;
        case SetUtcStart => accepted := state == Clocking || state == Recording;
        case Reset => accepted := state == SoftError || state == HardError;
        case Exit => accepted := state == Idle;
        case _ => accepted := true;
      }
      if accepted { command := c; }
    }

    method CommandGet() returns (c: Command)
      requires !command.code.NoCommand?
      modifies this
      ensures c == old(command) && Value() == Emptied(old(Value()))
      ensures command == c.(code := NoCommand, byteCount := 0) && state == old(state) && header == old(header)
    {
      c := command;
      command := command.(code := NoCommand, byteCount := 0);
    }

    method Duration(bytes: nat) returns (ok: bool)
      requires command.code.NoCommand?
      modifies this
      ensures ok == !old(state).Recording? && Value() == WithDuration(old(Value()), bytes)
      ensures command == if ok then old(command).(byteCount := bytes) else old(command)
      ensures state == old(state) && header == old(header)
    {
      ok := state != Recording;
      if ok { command := command.(byteCount := bytes); }
    }

    method SetState(s: PwcState) returns (ok: bool)
      modifies this
      ensures ok == CanChange(old(state), s) && Value() == Changed(old(Value()), s)
    {
      ok := CanChange(state, s);
      if ok { state := s; }
    }

    /** dada_pwc_main_process_error leaves the client in an error state, from any state. */
    method ProcessError(f: Failure)
      modifies this
      ensures Value() == Changed(old(Value()), ErrorTarget(old(state), f)) && IsError(state)
      ensures state == if IsError(old(state)) then old(state)
                       else match f case Soft => SoftError case Hard => HardError case Fatal => FatalError
    {
      var target := ErrorTarget(state, f);
      var ok := SetState(target);
    }
  }

  // ---------------------------------------------------------------- main loop and command threads

  datatype AfterError = ThenStop | ThenLoopEnd

  datatype MainPc =
    | LoopTop | PrepareEntry | PrepareTest | GetCommand | Got | Dispatch | Returned(error: Option<Failure>)
    | StartTransfer | Transfer | StopTransfer | Failed(failure: Failure, next: AfterError) | LoopEnd | Exited

  /** A header copied by main: which delivered command it was for, the text found in the shared
      buffer, and how many texts had been written there by then. */
  datatype Copy = Copy(of: nat, text: string, seen: nat)

  /** `cur` is main's current command; the sequences record what happened.  `waiting` holds the drafts
      whose threads have not submitted their command yet. */
  datatype Sys = Sys(sh: Shared, quit: bool, pc: MainPc, cur: Command,
                     accepted: seq<Command>, delivered: seq<Command>, trace: seq<PwcState>,
                     writes: seq<string>, waiting: set<nat>, copies: seq<Copy>)

  function Init(): Sys {
    var none := Command(NoCommand, 0, 0, 0);
    Sys(Shared(Idle, none, ""), false, LoopTop, none, [], [], [Idle], [], {}, [])
  }

  function SetState(x: Sys, s: PwcState): Sys {
    if CanChange(x.sh.state, s) then x.(sh := Changed(x.sh, s), trace := x.trace + [s]) else x
  }

  /** A command thread: write a header text, submit, set the duration, or ask main to quit.  Submitting
      and setting wait for an empty slot; writing waits for nothing.  `start` copies its byte count
      from the slot beforehand, so any value may arrive. */
  ghost predicate ThreadStep(x: Sys, y: Sys) {
    || (exists text: string :: WriteStep(x, text, y))
    || (exists c: Command :: SubmitStep(x, c, y))
    || (x.sh.command.code.NoCommand? && exists n: nat :: DurationStep(x, n, y))
    || y == x.(quit := true)
  }

  ghost predicate WriteStep(x: Sys, text: string, y: Sys) {
    y == x.(sh := x.sh.(header := text), writes := x.writes + [text], waiting := x.waiting + {|x.writes|})
  }

  /** Commands as the command functions build them. */
  predicate Formed(c: Command) {
    !c.code.NoCommand? && (c.code.Header? || c.code.Clock? || c.code.Reset? || c.code.Exit? ==> c.byteCount == 0)
  }

  ghost predicate SubmitStep(x: Sys, c: Command, y: Sys) {
    && x.sh.command.code.NoCommand? && Formed(c) && (c.code.Header? ==> c.draft in x.waiting)
    && y == x.(sh := Submitted(x.sh, c),
               accepted := if Accepts(x.sh.state, c.code) then x.accepted + [c] else x.accepted,
               waiting := if c.code.Header? then x.waiting - {c.draft} else x.waiting)
  }

  ghost predicate DurationStep(x: Sys, n: nat, y: Sys) { y == x.(sh := WithDuration(x.sh, n)) }

  function TakeCommand(x: Sys): Sys {
    x.(cur := x.sh.command, delivered := x.delivered + [x.sh.command], sh := Emptied(x.sh))
  }

  /** Main copies the shared buffer for the command it took last. */
  function CopyHeader(x: Sys): Sys {
    x.(copies := x.copies + [Copy(if x.delivered == [] then 0 else |x.delivered| - 1, x.sh.header, |x.writes|)])
  }

  ghost predicate Fails(x: Sys, f: Failure, next: AfterError, y: Sys) { y == x.(pc := Failed(f, next)) }

  /** The loop's head and dada_pwc_main_prepare; any outcome where the data block decides. */
  ghost predicate PrepareStep(x: Sys, y: Sys) {
    match x.pc
    case LoopTop => y == x.(pc := if x.quit then Exited else PrepareEntry)
    case PrepareEntry => y == x.(pc := PrepareTest) || y == x.(pc := Returned(Some(Hard)))
    case PrepareTest => y == x.(pc := if x.quit then Returned(None) else GetCommand)
    case GetCommand => !x.sh.command.code.NoCommand? && y == TakeCommand(x).(pc := Got)
    case Got => y == x.(pc := if x.quit then Returned(None) else Dispatch)
    case Dispatch =>
      (match x.cur.code
       case Reset => y == SetState(x, Idle).(pc := PrepareTest)
       case Header => y == SetState(CopyHeader(x), Prepared).(pc := PrepareTest)
       case Clock =>
         if x.cur.byteCount > 0 then y == x.(pc := Returned(Some(Soft)))
         else y == x.(pc := Returned(Some(Hard))) || y == x.(pc := Returned(None))
       case Start => y == x.(pc := Returned(Some(Hard))) || y == x.(pc := Returned(None))
       case Stop => y == SetState(x, Idle).(pc := PrepareTest)
       case _ => y == x.(pc := Returned(Some(Hard))))
    case Returned(error) =>
      if x.quit then y == x.(pc := Exited)
      else (match error
            case None => y == x.(pc := StartTransfer)
            case Some(f) => Fails(x, f, ThenLoopEnd, y))
    case _ => false
  }

  /** The rest of the loop; any outcome of the start, buffer, stop and data block functions. */
  ghost predicate TransferStep(x: Sys, y: Sys) {
    match x.pc
    case StartTransfer =>
      || Fails(x, Soft, ThenStop, y) || Fails(x, Hard, ThenStop, y)
      || (var s := if x.cur.code.Clock? then Clocking else Recording;
          // a refused change returns -1, which main takes for a soft error
          if CanChange(x.sh.state, s) then y == SetState(x, s).(pc := Transfer)
          else Fails(x, Soft, ThenStop, y))
    case Transfer =>
      || (exists f :: Fails(x, f, ThenStop, y))
      || (x.quit && y == x.(pc := StopTransfer))
      || (!x.sh.command.code.NoCommand?
          && var t := TakeCommand(x);
             y == if t.cur.code.RecordStart? || t.cur.code.RecordStop? || t.cur.code.Stop?
                     || t.cur.code.SetUtcStart?
                  then t else t.(pc := Failed(Hard, ThenStop)))
      || (match x.cur.code                       // the transit byte is reached
          case RecordStop => y == SetState(x, Clocking)
          case RecordStart => y == SetState(x, Recording)
          case Stop => y == x.(pc := StopTransfer)
          case _ => Fails(x, Hard, ThenStop, y))
    case StopTransfer =>
      || Fails(x, Hard, ThenLoopEnd, y) || Fails(x, Fatal, ThenLoopEnd, y)
      || y == (if IsError(x.sh.state) then x else SetState(x, Idle)).(pc := LoopEnd)
    case Failed(f, next) =>
      y == SetState(x, ErrorTarget(x.sh.state, f)).(pc := if next.ThenStop? then StopTransfer else LoopEnd)
    case LoopEnd => y == x.(quit := x.quit || x.sh.state.FatalError?, pc := LoopTop)
    case _ => false
  }

  ghost predicate MainStep(x: Sys, y: Sys) { PrepareStep(x, y) || TransferStep(x, y) }

  ghost predicate Next(x: Sys, y: Sys) { ThreadStep(x, y) || MainStep(x, y) }

  ghost predicate Run(tr: seq<Sys>) {
    && |tr| > 0 && tr[0] == Init()
    && forall i :: 0 <= i < |tr| - 1 ==> StepAt(tr, i)
  }

  ghost predicate StepAt(tr: seq<Sys>, i: nat) { i + 1 < |tr| && Next(tr[i], tr[i + 1]) }

  // ---------------------------------------------------------------- mailbox

  function Pending(sh: Shared): seq<Command> {
    if sh.command.code.NoCommand? then [] else [sh.command]
  }

  ghost predicate MailboxInv(x: Sys) { x.accepted == x.delivered + Pending(x.sh) }

  /** A pending command stays as it is, or is delivered. */
  ghost predicate MailboxMove(x: Sys, y: Sys) {
    Pending(x.sh) != [] ==>
      || (Pending(y.sh) == Pending(x.sh) && y.delivered == x.delivered && y.accepted == x.accepted)
      || (Pending(y.sh) == [] && y.delivered == x.delivered + Pending(x.sh))
  }

  lemma MailboxThread(x: Sys, y: Sys)
    requires MailboxInv(x) && ThreadStep(x, y)
    ensures MailboxInv(y) && MailboxMove(x, y)
  {
  }

  lemma MailboxPrepare(x: Sys, y: Sys)
    requires MailboxInv(x) && PrepareStep(x, y)
    ensures MailboxInv(y) && MailboxMove(x, y)
  {
  }

  lemma MailboxTransfer(x: Sys, y: Sys)
    requires MailboxInv(x) && TransferStep(x, y)
    ensures MailboxInv(y) && MailboxMove(x, y)
  {
  }

  lemma MailboxMain(x: Sys, y: Sys)
    requires MailboxInv(x) && MainStep(x, y)
    ensures MailboxInv(y) && MailboxMove(x, y)
  {
    if PrepareStep(x, y) { MailboxPrepare(x, y); } else { MailboxTransfer(x, y); }
  }

  lemma MailboxStep(x: Sys, y: Sys)
    requires MailboxInv(x) && Next(x, y)
    ensures MailboxInv(y) && MailboxMove(x, y)
  {
    if ThreadStep(x, y) { MailboxThread(x, y); } else { MailboxMain(x, y); }
  }

  /** Accepted commands are the delivered ones, in order, then at most one still in the slot: no code,
      time or byte count is lost, duplicated, overwritten or changed, whatever the interleaving.  Of
      a header the slot holds only a pointer: see HeaderDelivered. */
  lemma {:induction false} MailboxExact(tr: seq<Sys>, i: nat)
    requires Run(tr) && i < |tr|
    ensures tr[i].accepted == tr[i].delivered + Pending(tr[i].sh)
  {
    if i > 0 {
      MailboxExact(tr, i - 1);
      assert StepAt(tr, i - 1);
      MailboxStep(tr[i - 1], tr[i]);
    }
  }

  // ---------------------------------------------------------------- state traces

  /** Which states main can be in at each point of its loop. */
  ghost predicate PhaseInv(x: Sys) {
    && (match x.pc
        case LoopTop => (x.sh.state.Idle? || IsError(x.sh.state)) && (x.sh.state.FatalError? ==> x.quit)
        case PrepareEntry => x.sh.state.Idle? || x.sh.state.SoftError? || x.sh.state.HardError?
        case Transfer => Moving(x.sh.state)
        case StopTransfer => Moving(x.sh.state) || IsError(x.sh.state)
        case Failed(_, _) => true
        case LoopEnd => x.sh.state.Idle? || IsError(x.sh.state)
        case Exited => !Moving(x.sh.state)
        case _ => !Moving(x.sh.state) && !x.sh.state.FatalError?)
    && (x.pc.StartTransfer? || (x.pc == Returned(None) && !x.quit) ==> x.cur.code.Clock? || x.cur.code.Start?)
  }

  ghost predicate Path(t: seq<PwcState>) {
    && |t| > 0 && t[0] == Idle
    && forall i :: 0 <= i < |t| - 1 ==> CanChange(t[i], t[i + 1])
  }

  ghost predicate TraceInv(x: Sys) { Path(x.trace) && x.trace[|x.trace| - 1] == x.sh.state }

  lemma PhaseThread(x: Sys, y: Sys)
    requires PhaseInv(x) && ThreadStep(x, y)
    ensures PhaseInv(y)
  {
  }

  lemma PhasePrepare(x: Sys, y: Sys)
    requires PhaseInv(x) && PrepareStep(x, y)
    ensures PhaseInv(y)
  {
  }

  lemma PhaseTransfer(x: Sys, y: Sys)
    requires PhaseInv(x) && TransferStep(x, y)
    ensures PhaseInv(y)
  {
  }

  lemma PhaseMain(x: Sys, y: Sys)
    requires PhaseInv(x) && MainStep(x, y)
    ensures PhaseInv(y)
  {
    if PrepareStep(x, y) { PhasePrepare(x, y); } else { PhaseTransfer(x, y); }
  }

  lemma PhaseStep(x: Sys, y: Sys)
    requires PhaseInv(x) && Next(x, y)
    ensures PhaseInv(y)
  {
    if ThreadStep(x, y) { PhaseThread(x, y); } else { PhaseMain(x, y); }
  }

  lemma PathSnoc(t: seq<PwcState>, s: PwcState)
    requires Path(t) && CanChange(t[|t| - 1], s)
    ensures Path(t + [s])
  {
    var u := t + [s];
    forall i | 0 <= i < |u| - 1 ensures CanChange(u[i], u[i + 1]) {
      if i < |t| - 1 { assert CanChange(t[i], t[i + 1]); }
    }
  }

  /** The state stays, or takes an allowed transition that the trace records. */
  ghost predicate StateMove(x: Sys, y: Sys) {
    || (y.trace == x.trace && y.sh.state == x.sh.state)
    || (CanChange(x.sh.state, y.sh.state) && y.trace == x.trace + [y.sh.state])
  }

  lemma TraceThread(x: Sys, y: Sys)
    requires ThreadStep(x, y)
    ensures StateMove(x, y)
  {
  }

  lemma TracePrepare(x: Sys, y: Sys)
    requires PrepareStep(x, y)
    ensures StateMove(x, y)
  {
  }

  lemma TraceTransfer(x: Sys, y: Sys)
    requires TransferStep(x, y)
    ensures StateMove(x, y)
  {
  }

  lemma TraceMain(x: Sys, y: Sys)
    requires MainStep(x, y)
    ensures StateMove(x, y)
  {
    if PrepareStep(x, y) { TracePrepare(x, y); } else { TraceTransfer(x, y); }
  }

  lemma TraceGrows(x: Sys, y: Sys)
    requires Next(x, y)
    ensures StateMove(x, y)
  {
    if ThreadStep(x, y) { TraceThread(x, y); } else { TraceMain(x, y); }
  }

  lemma TraceStep(x: Sys, y: Sys)
    requires TraceInv(x) && Next(x, y)
    ensures TraceInv(y)
  {
    TraceGrows(x, y);
    if y.trace != x.trace {
      PathSnoc(x.trace, y.sh.state);
    }
  }

  lemma {:induction false} PhaseRun(tr: seq<Sys>, i: nat)
    requires Run(tr) && i < |tr|
    ensures PhaseInv(tr[i])
  {
    if i > 0 {
      PhaseRun(tr, i - 1);
      assert StepAt(tr, i - 1);
      PhaseStep(tr[i - 1], tr[i]);
    }
  }

  lemma {:induction false} TraceRun(tr: seq<Sys>, i: nat)
    requires Run(tr) && i < |tr|
    ensures TraceInv(tr[i])
  {
    if i > 0 {
      TraceRun(tr, i - 1);
      assert StepAt(tr, i - 1);
      TraceStep(tr[i - 1], tr[i]);
    }
  }

  /** Data flows only after a visit to prepared: walking back from clocking or recording, nothing but
      clocking and recording is met before prepared. */
  lemma {:induction false} PreparedFirst(t: seq<PwcState>, i: nat) returns (j: nat)
    requires Path(t) && i < |t| && Moving(t[i])
    ensures j < i && t[j] == Prepared && forall k :: j < k <= i ==> Moving(t[k])
  {
    assert i > 0;
    assert CanChange(t[i - 1], t[i - 1 + 1]);
    if t[i - 1] == Prepared {
      j := i - 1;
    } else {
      j := PreparedFirst(t, i - 1);
    }
  }

  /** State histories over every run, whatever commands arrive and whatever fails: clocking and
      recording need a header since the last idle, a fatal error is final, and the other errors
      lead only to idle. */
  lemma StateHistory(tr: seq<Sys>, n: nat, i: nat)
    requires Run(tr) && n < |tr| && i < |tr[n].trace|
    ensures var t := tr[n].trace;
      && t[|t| - 1] == tr[n].sh.state
      && (Moving(t[i]) ==> exists j :: 0 <= j < i && t[j] == Prepared && forall k :: j < k <= i ==> Moving(t[k]))
      && (t[i].FatalError? ==> i == |t| - 1)
      && ((t[i].SoftError? || t[i].HardError?) && i + 1 < |t| ==> t[i + 1] == Idle)
  {
    TraceRun(tr, n);
    var t := tr[n].trace;
    if Moving(t[i]) {
      var j := PreparedFirst(t, i);
    }
    if i + 1 < |t| { assert CanChange(t[i], t[i + 1]); }
  }

  /** Where main is tells what the state can be: it never waits for a command in prepare while data
      is flowing, transfers only while data is flowing, stops unless an error says so, and leaves
      every error handler in an error state.  A fatal error makes it exit. */
  lemma MainPhases(tr: seq<Sys>, n: nat)
    requires Run(tr) && n + 1 < |tr|
    ensures var x, y := tr[n], tr[n + 1];
      && (x.pc.GetCommand? || x.pc.Got? || x.pc.Dispatch? || x.pc.Exited? ==> !Moving(x.sh.state))
      && (x.pc.Transfer? ==> Moving(x.sh.state))
      && (x.pc.Failed? && y.pc != x.pc ==> IsError(y.sh.state))
      && (x.pc.StartTransfer? && y.pc.Transfer? ==> x.sh.state.Prepared?)
      && (x.pc.LoopTop? && x.sh.state.FatalError? ==> x.quit)
  {
    PhaseRun(tr, n);
    assert StepAt(tr, n);
  }

  // ---------------------------------------------------------------- header texts

  /** Every draft that a command names has been written; the buffer holds the last text. */
  ghost predicate Drafts(x: Sys) {
    && (x.writes != [] ==> x.sh.header == x.writes[|x.writes| - 1])
    && (forall d :: d in x.waiting ==> d < |x.writes|)
    && (x.sh.command.code.Header? ==> x.sh.command.draft < |x.writes|)
    && (x.pc.Got? || x.pc.Dispatch? ==>
          x.delivered != [] && x.cur == x.delivered[|x.delivered| - 1]
          && (x.cur.code.Header? ==> x.cur.draft < |x.writes|))
  }

  ghost predicate AllCopies(x: Sys) { forall k :: 0 <= k < |x.copies| ==> CopyIs(x, x.copies[k]) }

  /** A copy is for a delivered header and holds the text written last before it. */
  ghost predicate CopyIs(x: Sys, cp: Copy) {
    && cp.of < |x.delivered| && x.delivered[cp.of].code.Header?
    && x.delivered[cp.of].draft < cp.seen <= |x.writes| && cp.text == x.writes[cp.seen - 1]
  }

  lemma DraftsThread(x: Sys, y: Sys)
    requires Drafts(x) && ThreadStep(x, y)
    ensures Drafts(y)
  {
  }

  lemma DraftsTaken(x: Sys)
    requires Drafts(x) && !x.sh.command.code.NoCommand?
    ensures Drafts(TakeCommand(x).(pc := Got))
  {
  }

  lemma DraftsMain(x: Sys, y: Sys)
    requires Drafts(x) && MainStep(x, y)
    ensures Drafts(y)
  {
    if x.pc.GetCommand? {
      DraftsTaken(x);
    } else if PrepareStep(x, y) {
      DraftsElsewhere(x, y);
    } else {
      DraftsTransfer(x, y);
    }
  }

  lemma DraftsTransfer(x: Sys, y: Sys)
    requires Drafts(x) && TransferStep(x, y)
    ensures Drafts(y)
  {
    assert y.sh.header == x.sh.header && y.writes == x.writes && y.waiting == x.waiting;
    assert !y.pc.Got? && !y.pc.Dispatch?;
  }

  lemma DraftsElsewhere(x: Sys, y: Sys)
    requires Drafts(x) && PrepareStep(x, y) && !x.pc.GetCommand?
    ensures Drafts(y)
  {
    assert y.sh.header == x.sh.header && y.writes == x.writes && y.waiting == x.waiting;
    assert y.pc.Got? || y.pc.Dispatch? ==> x.pc.Got? && y.delivered == x.delivered && y.cur == x.cur;
  }

  /** The records grow, by at most the copy for the command at hand. */
  ghost predicate CopyMove(x: Sys, y: Sys) {
    && x.delivered <= y.delivered && x.writes <= y.writes
    && (y.copies == x.copies
        || (x.pc.Dispatch? && x.cur.code.Header? && x.delivered != []
            && y.copies == x.copies + [Copy(|x.delivered| - 1, x.sh.header, |x.writes|)]))
  }

  lemma ThreadCopies(x: Sys, y: Sys)
    requires ThreadStep(x, y)
    ensures CopyMove(x, y)
  {
  }

  lemma MainCopies(x: Sys, y: Sys)
    requires Drafts(x) && MainStep(x, y)
    ensures CopyMove(x, y)
  {
  }

  lemma CopiesKept(x: Sys, y: Sys)
    requires Drafts(x) && AllCopies(x) && CopyMove(x, y)
    ensures AllCopies(y)
  {
    forall k | 0 <= k < |y.copies| ensures CopyIs(y, y.copies[k]) {
      if k < |x.copies| { assert CopyIs(x, x.copies[k]); }
    }
  }

  lemma CopyStep(x: Sys, y: Sys)
    requires Drafts(x) && AllCopies(x) && Next(x, y)
    ensures Drafts(y) && AllCopies(y)
  {
    if ThreadStep(x, y) {
      DraftsThread(x, y);
      ThreadCopies(x, y);
    } else {
      DraftsMain(x, y);
      MainCopies(x, y);
    }
    CopiesKept(x, y);
  }

  lemma {:induction false} CopyRun(tr: seq<Sys>, i: nat)
    requires Run(tr) && i < |tr|
    ensures Drafts(tr[i]) && AllCopies(tr[i])
  {
    if i > 0 {
      CopyRun(tr, i - 1);
      assert StepAt(tr, i - 1);
      CopyStep(tr[i - 1], tr[i]);
    }
  }

  /** In every run, the text main copies for a header is the one its own thread wrote exactly when the
      last text written before the copy is that text: certainly if nothing was written in between,
      and, when the texts written in between differ from it, only then. */
  lemma HeaderDelivered(tr: seq<Sys>, n: nat, k: nat)
    requires Run(tr) && n < |tr| && k < |tr[n].copies|
    ensures var x := tr[n]; var cp := x.copies[k];
      && cp.of < |x.delivered| && x.delivered[cp.of].code.Header?
      && var own := x.delivered[cp.of].draft;
         && own < cp.seen <= |x.writes|
         && (cp.text == x.writes[own] <==> x.writes[cp.seen - 1] == x.writes[own])
         && (cp.seen == own + 1 ==> cp.text == x.writes[own])
         && ((forall m :: own < m < cp.seen ==> x.writes[m] != x.writes[own]) ==>
               (cp.text == x.writes[own] <==> cp.seen == own + 1))
  {
    CopyRun(tr, n);
    assert CopyIs(tr[n], tr[n].copies[k]);
  }

  /** A header that is refused can replace one that was accepted: its thread writes the shared buffer
      before it waits, main copies that text for the accepted command, and the client is prepared
      when the second command is looked at. */
  lemma RefusedHeaderDelivered(h1: string, h2: string) returns (tr: seq<Sys>)
    ensures Run(tr)
    ensures var x := Last(tr);
      && x.accepted == x.delivered == [Command(Header, 0, 0, 0)] && x.writes == [h1, h2] && x.waiting == {}
      && x.copies == [Copy(0, h2, 2)] && x.sh.state.Prepared?
  {
    tr := Started();
    tr := WriteText(tr, h1);
    tr := Submit(tr, Command(Header, 0, 0, 0));
    tr := WriteText(tr, h2);
    tr := Extend(tr, TakeCommand(Last(tr)).(pc := Got));
    tr := Extend(tr, Last(tr).(pc := Dispatch));
    tr := Extend(tr, SetState(CopyHeader(Last(tr)), Prepared).(pc := PrepareTest));
    var x, late := Last(tr), Command(Header, 0, 0, 1);
    assert x.waiting == {1};
    var y := x.(waiting := x.waiting - {1});
    assert SubmitStep(x, late, y);
    tr := Extend(tr, y);
  }

  // ---------------------------------------------------------------- the fate of clock and start commands

  /** Main has no command in flight, or only a header: what a caller would check before `clock` or
      `start`. */
  predicate Ready(x: Sys) {
    x.pc.PrepareTest? || x.pc.GetCommand? || ((x.pc.Got? || x.pc.Dispatch?) && x.cur.code.Header?)
  }

  /** Main is obeying a command that it took in prepare. */
  predicate Handling(x: Sys) {
    x.pc.Got? || x.pc.Dispatch? || x.pc.StartTransfer? || (x.pc == Returned(None) && !x.quit)
  }

  /** A command that starts a transfer. */
  predicate Starter(c: Command) { (c.code.Clock? && c.byteCount == 0) || c.code.Start? }

  /** What is known, after `k` commands, of such a command accepted as the next one. */
  ghost predicate Fate(x: Sys, k: nat, ready: bool) {
    && k < |x.accepted| && x.accepted == x.delivered + Pending(x.sh) && PhaseInv(x)
    && (|x.delivered| == k ==> Starter(x.sh.command) && FateOfPending(x, ready))
    && (|x.delivered| == k + 1 && Handling(x) ==>
          Starter(x.cur) && (x.sh.state.Prepared? <==> ready))
  }

  ghost predicate FateOfPending(x: Sys, ready: bool) {
    if ready then
      x.sh.state.Prepared? && (Ready(x) || (x.quit && (x.pc == Returned(None) || x.pc.Exited?)))
    else
      && (x.pc.PrepareTest? || x.pc.GetCommand? ==> !x.sh.state.Prepared?)
      && (x.pc.Got? || x.pc.Dispatch? ==> !x.cur.code.Header?)
  }

  lemma FateThread(x: Sys, y: Sys, k: nat, ready: bool)
    requires Fate(x, k, ready) && ThreadStep(x, y)
    ensures Fate(y, k, ready)
  {
    MailboxThread(x, y);
    PhaseThread(x, y);
  }

  lemma FatePrepare(x: Sys, y: Sys, k: nat, ready: bool)
    requires Fate(x, k, ready) && PrepareStep(x, y) && PhaseInv(y) && MailboxInv(y)
    ensures Fate(y, k, ready)
  {
  }

  lemma FateTransfer(x: Sys, y: Sys, k: nat, ready: bool)
    requires Fate(x, k, ready) && TransferStep(x, y) && PhaseInv(y) && MailboxInv(y)
    ensures Fate(y, k, ready)
  {
  }

  lemma FateMain(x: Sys, y: Sys, k: nat, ready: bool)
    requires Fate(x, k, ready) && MainStep(x, y)
    ensures Fate(y, k, ready)
  {
    MailboxMain(x, y);
    PhaseMain(x, y);
    if PrepareStep(x, y) { FatePrepare(x, y, k, ready); } else { FateTransfer(x, y, k, ready); }
  }

  lemma FateStart(x: Sys, c: Command, y: Sys)
    requires PhaseInv(x) && MailboxInv(x) && SubmitStep(x, c, y) && Starter(c) && x.sh.state.Prepared?
    ensures Fate(y, |x.accepted|, Ready(x))
  {
    assert ThreadStep(x, y);
    MailboxThread(x, y);
    PhaseThread(x, y);
  }

  lemma FateStep(x: Sys, y: Sys, k: nat, ready: bool)
    requires Fate(x, k, ready) && Next(x, y)
    ensures Fate(y, k, ready)
  {
    if ThreadStep(x, y) { FateThread(x, y, k, ready); } else { FateMain(x, y, k, ready); }
  }

  lemma {:induction false} FateFrom(tr: seq<Sys>, i: nat, k: nat, ready: bool, j: nat)
    requires Run(tr) && i <= j < |tr| && Fate(tr[i], k, ready)
    ensures Fate(tr[j], k, ready)
    decreases j
  {
    if i < j {
      FateFrom(tr, i, k, ready, j - 1);
      assert StepAt(tr, j - 1);
      FateStep(tr[j - 1], tr[j], k, ready);
    }
  }

  ghost predicate StarterAccepted(tr: seq<Sys>, i: nat, c: Command) {
    i + 1 < |tr| && SubmitStep(tr[i], c, tr[i + 1]) && Starter(c) && tr[i].sh.state.Prepared?
  }

  lemma FateBegins(tr: seq<Sys>, i: nat, c: Command)
    requires Run(tr) && StarterAccepted(tr, i, c)
    ensures Fate(tr[i + 1], |tr[i].accepted|, Ready(tr[i]))
    ensures |tr[i].accepted| < |tr[i + 1].accepted| && tr[i + 1].accepted[|tr[i].accepted|] == c
  {
    PhaseRun(tr, i);
    MailboxExact(tr, i);
    FateStart(tr[i], c, tr[i + 1]);
  }

  /** From the acceptance on, to any later step. */
  lemma FateLater(tr: seq<Sys>, i: nat, k: nat, c: Command, ready: bool, j: nat)
    requires Run(tr) && i <= j && j + 1 < |tr|
    requires Fate(tr[i], k, ready) && tr[i].accepted[k] == c
    ensures TakenWell(tr[j], tr[j + 1], k, c, ready) && StartsWell(tr[j], tr[j + 1], k, ready)
  {
    FateFrom(tr, i, k, ready, j);
    FateFrom(tr, i, k, ready, j + 1);
    AcceptedStay(tr, i, j);
    assert StepAt(tr, j);
    FateAt(tr, j, k, c, ready);
  }

  /** Taken in the prepared state, or else too late for it. */
  ghost predicate TakenWell(x: Sys, y: Sys, k: nat, c: Command, ready: bool) {
    |x.delivered| == k && |y.delivered| == k + 1 ==>
      y.cur == c && (ready <==> y.pc.Got? && y.sh.state.Prepared?)
  }

  /** The transfer can start for it, or else does not. */
  ghost predicate StartsWell(x: Sys, y: Sys, k: nat, ready: bool) {
    |x.delivered| == k + 1 && x.pc.StartTransfer? ==>
      (ready <==> CanChange(x.sh.state, if x.cur.code.Clock? then Clocking else Recording)) && (!ready ==> y.pc.StartTransfer? || y.pc.Failed?)
  }

  lemma FateTaken(x: Sys, y: Sys, k: nat, c: Command, ready: bool)
    requires Next(x, y) && Fate(x, k, ready) && Fate(y, k, ready) && x.accepted[k] == c
    ensures TakenWell(x, y, k, c, ready)
  {
    if |x.delivered| == k && |y.delivered| == k + 1 { Taken(x, y); }
  }

  lemma FateStarted(x: Sys, y: Sys, k: nat, ready: bool)
    requires Next(x, y) && Fate(x, k, ready)
    ensures StartsWell(x, y, k, ready)
  {
  }

  /** Acceptance is not a promise.  In every run, an accepted clock or start command is taken by main in the
      prepared state, and is in that state when the transfer is started for it, if and only if at its
      acceptance main had no command in flight but a header.  Otherwise a stop, clock or start in
      flight leaves the prepared state first, and the start is refused or the command is taken
      in mid-transfer. */
  lemma StarterFate(tr: seq<Sys>, i: nat, c: Command, j: nat)
    requires Run(tr) && StarterAccepted(tr, i, c) && i < j && j + 1 < |tr|
    ensures TakenWell(tr[j], tr[j + 1], |tr[i].accepted|, c, Ready(tr[i]))
    ensures StartsWell(tr[j], tr[j + 1], |tr[i].accepted|, Ready(tr[i]))
  {
    FateBegins(tr, i, c);
    FateLater(tr, i + 1, |tr[i].accepted|, c, Ready(tr[i]), j);
  }

  lemma FateAt(tr: seq<Sys>, j: nat, k: nat, c: Command, ready: bool)
    requires StepAt(tr, j) && Fate(tr[j], k, ready) && Fate(tr[j + 1], k, ready) && tr[j].accepted[k] == c
    ensures TakenWell(tr[j], tr[j + 1], k, c, ready) && StartsWell(tr[j], tr[j + 1], k, ready)
  {
    FateTaken(tr[j], tr[j + 1], k, c, ready);
    FateStarted(tr[j], tr[j + 1], k, ready);
  }

  lemma Taken(x: Sys, y: Sys)
    requires Next(x, y) && |y.delivered| > |x.delivered|
    ensures y.cur == x.sh.command && Pending(x.sh) == [x.sh.command]
  {
  }

  lemma {:induction false} AcceptedStay(tr: seq<Sys>, i: nat, j: nat)
    requires Run(tr) && i <= j < |tr|
    ensures tr[i].accepted <= tr[j].accepted
    decreases j
  {
    if i < j {
      AcceptedStay(tr, i, j - 1);
      assert StepAt(tr, j - 1);
      AcceptedGrow(tr[j - 1], tr[j]);
    }
  }

  lemma AcceptedGrow(x: Sys, y: Sys)
    requires Next(x, y)
    ensures x.accepted <= y.accepted
  {
  }

  /** A stop in flight: the clock command is refused when the transfer is to start. */
  lemma ClockDuringStop() returns (tr: seq<Sys>)
    ensures Run(tr)
    ensures var x := Last(tr);
      && |x.delivered| == 3 && x.delivered[2].code.Clock? && x.delivered == x.accepted
      && x.trace == [Idle, Prepared, Idle, SoftError]
  {
    var stop, clock := Command(Stop, 0, 0, 0), Command(Clock, 0, 0, 0);
    tr := PreparedRun();
    tr := Obey(tr, stop);
    tr := Submit(tr, clock);
    tr := Extend(tr, SetState(Last(tr), Idle).(pc := PrepareTest));
    tr := RefusedStart(tr);
  }

  lemma RefusedStart(tr: seq<Sys>) returns (longer: seq<Sys>)
    requires Run(tr)
    requires var x := Last(tr);
      && x.pc.PrepareTest? && !x.quit && x.sh.state.Idle? && x.sh.command.code.Clock? && x.sh.command.byteCount == 0
    ensures Run(longer)
    ensures var x, y := Last(tr), Last(longer);
      && y.delivered == x.delivered + [x.sh.command] && y.accepted == x.accepted && y.trace == x.trace + [SoftError]
  {
    longer := Extend(tr, Last(tr).(pc := GetCommand));
    longer := Extend(longer, TakeCommand(Last(longer)).(pc := Got));
    longer := Extend(longer, Last(longer).(pc := Dispatch));
    longer := Extend(longer, Last(longer).(pc := Returned(None)));
    longer := Extend(longer, Last(longer).(pc := StartTransfer));
    longer := Extend(longer, Last(longer).(pc := Failed(Soft, ThenStop)));
    longer := Extend(longer, SetState(Last(longer), SoftError).(pc := StopTransfer));
  }

  /** A clock in flight: the second clock command is taken in mid-transfer and ends it. */
  lemma ClockDuringClock() returns (tr: seq<Sys>)
    ensures Run(tr)
    ensures var x := Last(tr);
      && |x.delivered| == 3 && x.delivered[1].code.Clock? && x.delivered[2].code.Clock? && x.delivered == x.accepted
      && x.trace == [Idle, Prepared, Clocking, HardError]
  {
    var clock := Command(Clock, 0, 0, 0);
    tr := PreparedRun();
    tr := Obey(tr, clock);
    tr := Submit(tr, clock);
    tr := Extend(tr, Last(tr).(pc := Returned(None)));
    tr := Extend(tr, Last(tr).(pc := StartTransfer));
    tr := Extend(tr, SetState(Last(tr), Clocking).(pc := Transfer));
    tr := Extend(tr, TakeCommand(Last(tr)).(pc := Failed(Hard, ThenStop)));
    tr := Extend(tr, SetState(Last(tr), HardError).(pc := StopTransfer));
  }

  // ---------------------------------------------------------------- building runs

  ghost function Last(tr: seq<Sys>): Sys
    requires tr != []
  {
    tr[|tr| - 1]
  }

  lemma Extend(tr: seq<Sys>, y: Sys) returns (longer: seq<Sys>)
    requires Run(tr) && Next(Last(tr), y)
    ensures Run(longer) && Last(longer) == y
  {
    longer := tr + [y];
    forall i | 0 <= i < |longer| - 1 ensures StepAt(longer, i) {
      if i < |tr| - 1 { assert StepAt(tr, i); }
    }
  }

  /** Main waits for its first command. */
  lemma Started() returns (tr: seq<Sys>)
    ensures Run(tr) && Last(tr) == Init().(pc := GetCommand)
  {
    tr := Extend([Init()], Init().(pc := PrepareEntry));
    tr := Extend(tr, Last(tr).(pc := PrepareTest));
    tr := Extend(tr, Last(tr).(pc := GetCommand));
  }

  lemma WriteText(tr: seq<Sys>, text: string) returns (longer: seq<Sys>)
    requires Run(tr)
    ensures Run(longer) && WriteStep(Last(tr), text, Last(longer))
  {
    var x := Last(tr);
    var y := x.(sh := x.sh.(header := text), writes := x.writes + [text], waiting := x.waiting + {|x.writes|});
    assert WriteStep(x, text, y);
    longer := Extend(tr, y);
  }

  lemma Submit(tr: seq<Sys>, c: Command) returns (longer: seq<Sys>)
    requires Run(tr) && Formed(c)
    requires var x := Last(tr);
      x.sh.command.code.NoCommand? && Accepts(x.sh.state, c.code) && (c.code.Header? ==> c.draft in x.waiting)
    ensures Run(longer)
    ensures var x := Last(tr);
      Last(longer) == x.(sh := x.sh.(command := c), accepted := x.accepted + [c],
                         waiting := if c.code.Header? then x.waiting - {c.draft} else x.waiting)
  {
    var x := Last(tr);
    var y := x.(sh := x.sh.(command := c), accepted := x.accepted + [c],
                waiting := if c.code.Header? then x.waiting - {c.draft} else x.waiting);
    assert SubmitStep(x, c, y);
    longer := Extend(tr, y);
  }

  /** A command is accepted while main waits, and main takes it. */
  lemma Obey(tr: seq<Sys>, c: Command) returns (longer: seq<Sys>)
    requires Run(tr) && Formed(c)
    requires var x := Last(tr);
      && x.pc.GetCommand? && !x.quit && x.sh.command.code.NoCommand? && Accepts(x.sh.state, c.code)
      && (c.code.Header? ==> c.draft in x.waiting)
    ensures Run(longer)
    ensures var x := Last(tr);
      Last(longer) == x.(sh := x.sh.(command := c.(code := NoCommand, byteCount := 0)), pc := Dispatch, cur := c,
                         accepted := x.accepted + [c], delivered := x.delivered + [c],
                         waiting := if c.code.Header? then x.waiting - {c.draft} else x.waiting)
  {
    longer := Submit(tr, c);
    longer := Extend(longer, TakeCommand(Last(longer)).(pc := Got));
    longer := Extend(longer, Last(longer).(pc := Dispatch));
  }

  /** One header has been obeyed, and main waits again. */
  lemma PreparedRun() returns (tr: seq<Sys>)
    ensures Run(tr)
    ensures var x := Last(tr);
      && x.pc.GetCommand? && !x.quit && x.sh.state.Prepared? && x.sh.command.code.NoCommand?
      && x.accepted == x.delivered == [Command(Header, 0, 0, 0)] && x.trace == [Idle, Prepared]
  {
    tr := Started();
    tr := WriteText(tr, "H");
    tr := Obey(tr, Command(Header, 0, 0, 0));
    tr := Extend(tr, SetState(CopyHeader(Last(tr)), Prepared).(pc := PrepareTest));
    tr := Extend(tr, Last(tr).(pc := GetCommand));
  }
}
