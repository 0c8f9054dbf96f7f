/** The clocking/recording loop of the primary write client, without xfers: buffers go to the data
    block and the state changes at the byte a command asks for, possibly in mid-buffer. */
module PwcTransfer {
  import opened Common
  import opened PwcControl

  /** One pass of the loop: the command found in the mailbox, and the buffer handed over if asked
      for.  When the buffer is empty, `recovers` is the verdict of the error function, and `filler`
      the byte written so that readers see an end of data. */
  datatype Poll = Poll(command: Option<Command>, buffer: seq<byte>, recovers: bool, filler: byte)

  /** A change of state: the bytes in the data block at that moment, the byte asked for, and which of
      the commands heard it carries out. */
  datatype Change = Change(state: PwcState, at: nat, scheduled: nat, cause: nat)

  datatype Outcome = Running | Stopped | Failure | Overrun

  /** Local variables of the loop.  `off` is the distance of the buffer pointer from the start of
      the buffer; `moved` says that the last pass changed state, and `heard` counts the commands. */
  datatype Loop = Loop(total: nat, transit: nat, toWrite: nat, buf: seq<byte>, off: nat, bufBytes: nat,
                       command: Command, heard: nat, moved: bool, written: seq<byte>, consumed: seq<seq<byte>>,
                       changes: seq<Change>)

  /** Result of a pass or a run. */
  datatype Pass = Pass(loop: Loop, outcome: Outcome)

  function Start(c: Command): Loop {
    Loop(0, c.byteCount, c.byteCount, [], 0, 0, c, 0, false, [], [], [])
  }

  predicate Timed(c: Command) { c.code.RecordStart? || c.code.RecordStop? || c.code.Stop? }

  /** Commands: dated ones arm the transit byte, others act at once, and a count of zero bytes
      written so far is forced to one. */
  function Heard(s: Loop, p: Poll): Loop {
    if p.command.None? then s
    else
      var c, n := p.command.value, s.heard + 1;
      if !Timed(c) then s.(command := c, heard := n)
      else if c.byteCount > s.total then
        s.(command := c, heard := n, transit := c.byteCount, toWrite := c.byteCount - s.total)
      else
        var t := if s.total == 0 then 1 else s.total;
        s.(command := c, heard := n, total := t, transit := t, toWrite := 0)
  }

  predicate Unexpected(p: Poll) {
    p.command.Some? && !Timed(p.command.value) && !p.command.value.code.SetUtcStart?
  }

  predicate WantsBuffer(s: Loop) { s.transit == 0 || s.toWrite > 0 }

  /** Write the buffer, but not past the transit byte. */
  function Wrote(s: Loop, b: seq<byte>): Loop {
    var n := if s.transit > 0 && |b| > s.toWrite then s.toWrite else |b|;
    s.(buf := b, off := 0, bufBytes := n, written := s.written + b[..n], consumed := s.consumed + [b],
       total := s.total + n, toWrite := if s.toWrite > n then s.toWrite - n else 0, moved := false)
  }

  function Target(c: Command): PwcState { if c.code.RecordStart? then Recording else Clocking }

  /** Change state, then write what remains in the buffer: `bufBytes` becomes the buffer size minus
      its own last value, and the pointer advances by that last value. */
  function Moved(s: Loop): Pass {
    var t := s.(transit := 0, moved := true,
                changes := s.changes + [Change(Target(s.command), |s.written|, s.command.byteCount, s.heard)],
                off := s.off + s.bufBytes, bufBytes := if s.bufBytes <= |s.buf| then |s.buf| - s.bufBytes else 0);
    if t.bufBytes == 0 then Pass(t, Running)
    else if t.off + t.bufBytes > |t.buf| then Pass(t, Overrun)
    else Pass(t.(written := t.written + t.buf[t.off..t.off + t.bufBytes], total := t.total + t.bufBytes), Running)
  }

  function Arrived(s: Loop): Pass {
    if s.transit == 0 || s.transit > s.total then Pass(s, Running)
    else if s.command.code.Stop? then Pass(s.(transit := 0), Stopped)
    else if s.command.code.RecordStart? || s.command.code.RecordStop? then Moved(s)
    else Pass(s.(transit := 0), Failure)
  }

  function OnePass(s: Loop, p: Poll): Pass {
    if Unexpected(p) then Pass(s.(command := p.command.value, heard := s.heard + 1), Failure)
    else
      var h := Heard(s, p);
      if !WantsBuffer(h) then Arrived(h)
      else if p.buffer == [] && !p.recovers then
        Pass(h.(written := h.written + [p.filler], buf := [], off := 0), Failure)
      else Arrived(Wrote(h, p.buffer))
  }

  function Passes(s: Loop, script: seq<Poll>): Pass
    decreases |script|
  {
    if script == [] then Pass(s, Running)
    else
      var r := OnePass(s, script[0]);
      if r.outcome.Running? then Passes(r.loop, script[1..]) else r
  }

  method Hear(s0: Loop, p: Poll) returns (s: Loop, ok: bool)
    ensures ok == !Unexpected(p)
    ensures s == if ok then Heard(s0, p) else s0.(command := p.command.value, heard := s0.heard + 1)
  {
    s, ok := s0, true;
    if p.command.Some? {
      s := s.(command := p.command.value, heard := s.heard + 1);
      if Timed(s.command) {
        if s.command.byteCount > s.total {
          s := s.(transit := s.command.byteCount, toWrite := s.command.byteCount - s.total);
        } else {
          if s.total == 0 { s := s.(total := 1); }
          s := s.(transit := s.total, toWrite := 0);
        }
      } else {
        ok := s.command.code.SetUtcStart?;
      }
    }
  }

  method Write(s0: Loop, b: seq<byte>) returns (s: Loop)
    ensures s == Wrote(s0, b)
  {
    s := s0.(buf := b, off := 0, bufBytes := |b|, moved := false);
    if s.transit > 0 && s.bufBytes > s.toWrite { s := s.(bufBytes := s.toWrite); }
    s := s.(written := s.written + s.buf[..s.bufBytes], consumed := s.consumed + [s.buf],
            total := s.total + s.bufBytes);
    s := s.(toWrite := if s.toWrite > s.bufBytes then s.toWrite - s.bufBytes else 0);
  }

  method Move(s0: Loop) returns (s: Loop, outcome: Outcome)
    ensures Pass(s, outcome) == Moved(s0)
  {
    s := s0.(transit := 0, moved := true,
             changes := s0.changes + [Change(Target(s0.command), |s0.written|, s0.command.byteCount, s0.heard)]);
    s := s.(off := s.off + s.bufBytes);
    s := s.(bufBytes := if s.bufBytes <= |s.buf| then |s.buf| - s.bufBytes else 0);
    if s.bufBytes > 0 {
      if s.off + s.bufBytes > |s.buf| {
        return s, Overrun;
      }
      s := s.(written := s.written + s.buf[s.off..s.off + s.bufBytes], total := s.total + s.bufBytes);
    }
    outcome := Running;
  }

  /** dada_pwc_main_transfer_data, until quit is seen after `script`; `s` holds its local variables. */
  method TransferData(first: Command, script: seq<Poll>) returns (s: Loop, outcome: Outcome)
    ensures Pass(s, outcome) == Passes(Start(first), script)
  {
    s, outcome := Start(first), Running;
    var i := 0;
    while i < |script|
      invariant i <= |script| && outcome == Running
      invariant Passes(Start(first), script) == Passes(s, script[i..])
    {
      var p := script[i];
      assert script[i..][0] == p && script[i..][1..] == script[i + 1..];
      var ok;
      s, ok := Hear(s, p);
      if !ok {
        return s, Failure;
      }
      if s.transit == 0 || s.toWrite > 0 {
        if p.buffer == [] && !p.recovers {
          return s.(written := s.written + [p.filler], buf := [], off := 0), Failure;
        }
        s := Write(s, p.buffer);
      }
      if s.transit > 0 && s.transit <= s.total {
        if s.command.code.RecordStart? || s.command.code.RecordStop? {
          s, outcome := Move(s);
          if outcome != Running { return; }
        } else {
          return s.(transit := 0), if s.command.code.Stop? then Stopped else Failure;
        }
      }
      i := i + 1;
    }
  }

  // ---------------------------------------------------------------- every run

  /** Between passes: where the pointer stands, a pending transit byte is as far ahead as there are
      bytes to write, and the data block holds every byte received. */
  ghost predicate Inv(s: Loop) {
    && s.written == Flatten(s.consumed)
    && (if s.transit > 0 then s.toWrite > 0 && s.transit == s.total + s.toWrite else s.toWrite == 0)
    && (!s.moved ==> s.off == 0 && s.bufBytes == |s.buf|)
    && (s.moved ==> s.off + s.bufBytes == |s.buf| && (s.buf != [] ==> s.off > 0))
  }

  /** The pass acts on an immediate recording command. */
  predicate Immediate(s: Loop, p: Poll) {
    && p.command.Some? && (p.command.value.code.RecordStart? || p.command.value.code.RecordStop?)
    && p.command.value.byteCount <= s.total
  }

  predicate ReadsBeyond(s: Loop, p: Poll) { Immediate(s, p) && s.moved && s.buf != [] }

  /** Writing splits the buffer: what is written and what remains make up what was received. */
  lemma WroteSplits(h: Loop, b: seq<byte>)
    requires h.written == Flatten(h.consumed) && WantsBuffer(h)
    ensures var w := Wrote(h, b);
      && w.written + b[w.bufBytes..] == Flatten(w.consumed)
      && (b != [] ==> w.bufBytes > 0)
      && w.written <= Flatten(w.consumed)
  {
    FlattenSnoc(h.consumed, b);
    var n := Wrote(h, b).bufBytes;
    assert b[..n] + b[n..] == b;
    assert h.written + b[..n] + b[n..] == h.written + b;
  }

  /** A transition in the pass that wrote part of the buffer writes exactly the rest. */
  lemma MovedFresh(w: Loop)
    requires w.off == 0 && w.bufBytes <= |w.buf| && (w.buf != [] ==> w.bufBytes > 0)
    requires w.toWrite == 0 && w.written + w.buf[w.bufBytes..] == Flatten(w.consumed)
    ensures Moved(w).outcome.Running? && Inv(Moved(w).loop)
    ensures Moved(w).loop.total == w.total + |w.buf| - w.bufBytes
  {
    assert w.buf[w.bufBytes..w.bufBytes + (|w.buf| - w.bufBytes)] == w.buf[w.bufBytes..];
    assert w.bufBytes == |w.buf| ==> w.written + w.buf[w.bufBytes..] == w.written;
  }

  /** A transition in a pass that took no buffer works on the pointer the last pass left. */
  lemma MovedStale(w: Loop)
    requires w.written == Flatten(w.consumed) && w.toWrite == 0
    requires !w.moved ==> w.off == 0 && w.bufBytes == |w.buf|
    requires w.moved ==> w.off + w.bufBytes == |w.buf| && (w.buf != [] ==> w.off > 0)
    ensures Moved(w).outcome.Overrun? <==> w.moved && w.buf != []
    ensures !Moved(w).outcome.Overrun? ==> Moved(w).outcome.Running? && Inv(Moved(w).loop)
  {
  }

  /** The data block of a loop that failed: what came in, cut at most at the transit byte, or all of it
      and the one byte written so that readers see an end. */
  predicate CutOrFilled(s: Loop) {
    || s.written <= Flatten(s.consumed)
    || (s.written != [] && s.written[..|s.written| - 1] == Flatten(s.consumed))
  }

  /** Effect of a pass. */
  ghost predicate PassKeeps(s: Loop, p: Poll) {
    var r := OnePass(s, p);
    && (r.outcome.Running? ==> Inv(r.loop))
    && (r.outcome.Overrun? <==> ReadsBeyond(s, p))
    && (r.outcome.Stopped? || r.outcome.Overrun? ==> r.loop.written <= Flatten(r.loop.consumed))
    && (r.outcome.Failure? ==> CutOrFilled(r.loop))
  }

  lemma PassWithoutBuffer(s: Loop, p: Poll)
    requires Inv(s) && !Unexpected(p) && !WantsBuffer(Heard(s, p))
    ensures PassKeeps(s, p)
  {
    var h := Heard(s, p);
    assert h.transit == h.total > 0;
    MovedStale(h);
  }

  /** A pass that took a buffer changes state, ends, or goes on, without losing a byte. */
  lemma ArrivedKeeps(w: Loop)
    requires w.off == 0 && w.bufBytes <= |w.buf| && (w.buf != [] ==> w.bufBytes > 0) && !w.moved
    requires w.written + w.buf[w.bufBytes..] == Flatten(w.consumed)
    requires if w.transit > 0 && w.transit <= w.total then w.toWrite == 0
             else w.bufBytes == |w.buf|
                  && (if w.transit > 0 then w.toWrite > 0 && w.transit == w.total + w.toWrite else w.toWrite == 0)
    ensures var r := Arrived(w);
      && !r.outcome.Overrun? && (r.outcome.Running? ==> Inv(r.loop))
      && (!r.outcome.Running? ==> r.loop.written <= Flatten(r.loop.consumed))
  {
    if w.transit == 0 || w.transit > w.total {
      assert w.written + w.buf[w.bufBytes..] == w.written;
    } else {
      MovedFresh(w);
    }
  }

  lemma PassWithBuffer(s: Loop, p: Poll)
    requires Inv(s) && !Unexpected(p) && WantsBuffer(Heard(s, p)) && (p.buffer != [] || p.recovers)
    ensures PassKeeps(s, p)
  {
    var h, b := Heard(s, p), p.buffer;
    WroteSplits(h, b);
    assert OnePass(s, p) == Arrived(Wrote(h, b)) && !ReadsBeyond(s, p);
    ArrivedKeeps(Wrote(h, b));
  }

  lemma Filled(written: seq<byte>, filler: byte)
    ensures var w := written + [filler]; w != [] && w[..|w| - 1] == written
  {
  }

  lemma PassFails(s: Loop, p: Poll)
    requires Inv(s) && !Unexpected(p) && WantsBuffer(Heard(s, p)) && p.buffer == [] && !p.recovers
    ensures PassKeeps(s, p)
  {
    var h := Heard(s, p);
    Filled(h.written, p.filler);
    assert OnePass(s, p).outcome.Failure? && !ReadsBeyond(s, p);
  }

  lemma PassInv(s: Loop, p: Poll)
    requires Inv(s)
    ensures PassKeeps(s, p)
  {
    if !Unexpected(p) {
      if !WantsBuffer(Heard(s, p)) {
        PassWithoutBuffer(s, p);
      } else if p.buffer != [] || p.recovers {
        PassWithBuffer(s, p);
      } else {
        PassFails(s, p);
      }
    }
  }

  /** The passes of a run that come before the one reading beyond its buffer, if any. */
  predicate NeverReadsBeyond(s: Loop, script: seq<Poll>)
    decreases |script|
  {
    script == [] ||
    (!ReadsBeyond(s, script[0]) &&
     var r := OnePass(s, script[0]);
     r.outcome.Running? ==> NeverReadsBeyond(r.loop, script[1..]))
  }

  lemma {:induction false} PassesInv(s: Loop, script: seq<Poll>)
    requires Inv(s)
    ensures var r := Passes(s, script);
      && (r.outcome.Running? ==> Inv(r.loop))
      && (r.outcome.Overrun? <==> !NeverReadsBeyond(s, script))
      && (r.outcome.Stopped? || r.outcome.Overrun? ==> r.loop.written <= Flatten(r.loop.consumed))
      && (r.outcome.Failure? ==> CutOrFilled(r.loop))
    decreases |script|
  {
    if script != [] {
      PassInv(s, script[0]);
      var r := OnePass(s, script[0]);
      if r.outcome.Running? { PassesInv(r.loop, script[1..]); }
    }
  }

  /** Over all runs: while the loop runs, the data block holds exactly the concatenation of the
      buffers, although transitions split them; a stop cuts it at the stop byte, and an error at its
      transit byte, or after one byte more when the input failed.  The only way to
      lose that is an immediate rec_start or rec_stop found right after a pass that changed state:
      exactly then the loop reads past the end of the last buffer. */
  lemma Conservation(first: Command, script: seq<Poll>)
    ensures var r := Passes(Start(first), script);
      && (r.outcome.Running? ==> r.loop.written == Flatten(r.loop.consumed))
      && (r.outcome.Stopped? || r.outcome.Overrun? ==> r.loop.written <= Flatten(r.loop.consumed))
      && (r.outcome.Failure? ==> CutOrFilled(r.loop))
      && (r.outcome.Overrun? <==> !NeverReadsBeyond(Start(first), script))
  {
    PassesInv(Start(first), script);
  }

  // ---------------------------------------------------------------- runs with dated commands

  /** Every timed command asks for a byte not yet written when it is read. */
  predicate Dated(s: Loop, script: seq<Poll>)
    decreases |script|
  {
    script == [] ||
    ((script[0].command.Some? && Timed(script[0].command.value) ==> script[0].command.value.byteCount > s.total) &&
     var r := OnePass(s, script[0]);
     r.outcome.Running? ==> Dated(r.loop, script[1..]))
  }

  ghost predicate OnTime(changes: seq<Change>) {
    forall i :: 0 <= i < |changes| ==> changes[i].at == changes[i].scheduled
  }

  ghost predicate DatedInv(s: Loop) {
    && Inv(s) && s.total == |s.written| && OnTime(s.changes)
    && (s.transit > 0 && Timed(s.command) ==> s.command.byteCount == s.transit)
  }

  /** A dated command arms the transit byte ahead of the total. */
  lemma DatedHeard(s: Loop, p: Poll)
    requires DatedInv(s)
    requires p.command.Some? && Timed(p.command.value) ==> p.command.value.byteCount > s.total
    ensures var h := Heard(s, p); Inv(h) && DatedInv(h) && WantsBuffer(h) && h.changes == s.changes
  {
  }

  lemma OnTimeSnoc(changes: seq<Change>, c: Change)
    requires OnTime(changes) && c.at == c.scheduled
    ensures OnTime(changes + [c])
  {
  }

  lemma DatedWrite(h: Loop, b: seq<byte>)
    requires DatedInv(h) && WantsBuffer(h)
    ensures var w := Wrote(h, b); var r := Arrived(w);
      && !r.outcome.Overrun?
      && (r.outcome.Running? ==> r.loop.total == |r.loop.written|)
      && (r.outcome.Running? && r.loop.transit > 0 && Timed(r.loop.command) ==> r.loop.command.byteCount == r.loop.transit)
      && (r.outcome.Stopped? ==> |r.loop.written| == r.loop.command.byteCount)
      && OnTime(r.loop.changes)
  {
    var w := Wrote(h, b);
    WroteSplits(h, b);
    if w.transit > 0 && w.transit <= w.total {
      MovedFresh(w);
      if w.command.code.RecordStart? || w.command.code.RecordStop? {
        OnTimeSnoc(w.changes, Change(Target(w.command), |w.written|, w.command.byteCount, w.heard));
      }
    }
  }

  lemma DatedPass(s: Loop, p: Poll)
    requires DatedInv(s)
    requires p.command.Some? && Timed(p.command.value) ==> p.command.value.byteCount > s.total
    ensures var r := OnePass(s, p);
      && !r.outcome.Overrun?
      && (r.outcome.Running? ==> DatedInv(r.loop))
      && (r.outcome.Stopped? ==> |r.loop.written| == r.loop.command.byteCount)
      && OnTime(r.loop.changes)
  {
    PassInv(s, p);
    if !Unexpected(p) {
      DatedHeard(s, p);
      DatedWrite(Heard(s, p), p.buffer);
    }
  }

  /** In every run of dated commands: a pending transit byte is always the total plus the bytes left
      to write, each change of state happens with exactly as many bytes in the data block as its
      command asked for, a stop leaves exactly its byte count, and no buffer is overrun. */
  lemma {:induction false} DatedRun(s: Loop, script: seq<Poll>)
    requires DatedInv(s) && Dated(s, script)
    ensures var r := Passes(s, script);
      && !r.outcome.Overrun?
      && (r.outcome.Running? ==> DatedInv(r.loop))
      && (r.outcome.Stopped? ==> |r.loop.written| == r.loop.command.byteCount)
      && OnTime(r.loop.changes)
    decreases |script|
  {
    if script != [] {
      DatedPass(s, script[0]);
      var r := OnePass(s, script[0]);
      if r.outcome.Running? { DatedRun(r.loop, script[1..]); }
    }
  }

  // ---------------------------------------------------------------- whole scripts

  /** The input fails: an empty buffer that the error function does not recover. */
  predicate InputFails(p: Poll) { p.buffer == [] && !p.recovers }

  /** `need` bytes come in before another command is heard and before the input fails. */
  predicate Reaches(need: nat, script: seq<Poll>)
    decreases |script|
  {
    script != [] && script[0].command.None? && !InputFails(script[0])
    && (|script[0].buffer| >= need || Reaches(need - |script[0].buffer|, script[1..]))
  }

  /** A recording command waits for its byte, and nothing has been done for it yet. */
  ghost predicate PendingRecord(s: Loop) {
    && DatedInv(s) && s.transit > 0 && (s.command.code.RecordStart? || s.command.code.RecordStop?)
    && forall i :: 0 <= i < |s.changes| ==> s.changes[i].cause != s.heard
  }

  predicate Did(s: Loop, n: nat) { exists i :: 0 <= i < |s.changes| && s.changes[i].cause == n }

  /** The pass whose buffer reaches the transit byte changes state; an earlier one does not. */
  lemma TransitHappensThen(s: Loop, p: Poll)
    requires PendingRecord(s) && p.command.None? && !InputFails(p)
    ensures var r := OnePass(s, p);
      && r.outcome.Running? && r.loop.heard == s.heard && DatedInv(r.loop)
      && (if |p.buffer| < s.toWrite
          then r.loop.changes == s.changes && r.loop.transit == s.transit && r.loop.command == s.command
               && r.loop.toWrite == s.toWrite - |p.buffer|
          else r.loop.changes == s.changes + [Change(if s.command.code.RecordStart? then Recording else Clocking, s.transit, s.transit, s.heard)]
               && r.loop.transit == 0)
  {
    DatedPass(s, p);
    var w := Wrote(s, p.buffer);
    WroteSplits(s, p.buffer);
    if w.transit <= w.total { MovedFresh(w); }
  }

  /** Changes are only added, and only for the command heard last or a later one; once nothing is
      pending, only for a later one. */
  ghost predicate Later(s: Loop, t: Loop) {
    && s.heard <= t.heard && s.changes <= t.changes
    && forall i :: |s.changes| <= i < |t.changes| ==>
         t.changes[i].cause >= s.heard && (s.transit == 0 ==> t.changes[i].cause > s.heard)
  }

  lemma ArrivedLater(w: Loop)
    ensures var r := Arrived(w);
      && r.loop.heard == w.heard && (w.transit == 0 ==> r.loop == w)
      && (r.loop.changes == w.changes
          || exists c: Change :: c.cause == w.heard && r.loop.changes == w.changes + [c])
  {
    var c := Change(Target(w.command), |w.written|, w.command.byteCount, w.heard);
    assert Moved(w).loop.changes == w.changes + [c];
  }

  /** A pass adds at most one change, for the command heard last. */
  lemma LaterPass(s: Loop, p: Poll)
    ensures var r := OnePass(s, p);
      && r.loop.heard == s.heard + (if p.command.Some? then 1 else 0)
      && s.changes <= r.loop.changes
      && (forall i :: |s.changes| <= i < |r.loop.changes| ==> r.loop.changes[i].cause == r.loop.heard)
      && (s.transit == 0 && p.command.None? ==> r.loop.changes == s.changes && r.loop.transit == 0)
  {
    if !Unexpected(p) {
      var h := Heard(s, p);
      if !WantsBuffer(h) {
        ArrivedLater(h);
      } else if !InputFails(p) {
        ArrivedLater(Wrote(h, p.buffer));
      }
    }
  }

  lemma {:induction false} LaterPasses(s: Loop, script: seq<Poll>)
    ensures Later(s, Passes(s, script).loop)
    decreases |script|
  {
    if script != [] {
      LaterPass(s, script[0]);
      var r := OnePass(s, script[0]);
      if r.outcome.Running? { LaterPasses(r.loop, script[1..]); }
    }
  }

  /** Nothing more is done for a command once another is heard. */
  lemma Superseded(s: Loop, script: seq<Poll>, n: nat)
    requires n < s.heard && !Did(s, n)
    ensures !Did(Passes(s, script).loop, n)
  {
    LaterPasses(s, script);
  }

  /** A pass that hears a command, or whose input fails, does nothing for the command pending before. */
  lemma Overtaken(s: Loop, p: Poll)
    requires PendingRecord(s) && (p.command.Some? || InputFails(p))
    ensures var r := OnePass(s, p); !Did(r.loop, s.heard) && (r.outcome.Running? ==> r.loop.heard > s.heard)
  {
    LaterPass(s, p);
    assert p.command.None? ==> OnePass(s, p).outcome.Failure? && OnePass(s, p).loop.changes == s.changes;
  }

  /** Over every script: a pending, dated rec_start or rec_stop takes effect if and only if the bytes
      up to it come in before another command is heard and before the input fails; and then it is
      the next change of state, at exactly its byte. */
  lemma {:induction false} TakesEffect(s: Loop, script: seq<Poll>)
    requires PendingRecord(s)
    ensures var r := Passes(s, script);
      && (Did(r.loop, s.heard) <==> Reaches(s.toWrite, script))
      && (Reaches(s.toWrite, script) ==>
            s.changes + [Change(if s.command.code.RecordStart? then Recording else Clocking, s.transit, s.transit, s.heard)] <= r.loop.changes)
    decreases |script|
  {
    if script != [] {
      var p := script[0];
      var r := OnePass(s, p);
      if p.command.Some? || InputFails(p) {
        Overtaken(s, p);
        if r.outcome.Running? { Superseded(r.loop, script[1..], s.heard); }
      } else {
        TransitHappensThen(s, p);
        if |p.buffer| < s.toWrite {
          TakesEffect(r.loop, script[1..]);
        } else {
          LaterPasses(r.loop, script[1..]);
          assert r.loop.changes[|s.changes|].cause == s.heard;
        }
      }
    }
  }

  /** A dated stop waits for its byte. */
  ghost predicate PendingStop(s: Loop) { DatedInv(s) && s.transit > 0 && s.command.code.Stop? }

  lemma StopPass(s: Loop, p: Poll)
    requires PendingStop(s) && p.command.None? && !InputFails(p)
    ensures var r := OnePass(s, p);
      && r.loop.heard == s.heard && r.loop.changes == s.changes
      && (if |p.buffer| < s.toWrite
          then r.outcome.Running? && PendingStop(r.loop) && r.loop.transit == s.transit
               && r.loop.toWrite == s.toWrite - |p.buffer|
          else r.outcome.Stopped? && |r.loop.written| == s.transit)
  {
    DatedPass(s, p);
    WroteSplits(s, p.buffer);
  }

  /** Over every script: a pending, dated stop ends the loop by itself if and only if the bytes up to it
      come in before another command is heard and before the input fails; and then the data block
      holds exactly its byte count, and the state has not changed in between. */
  lemma {:induction false} StopTakesEffect(s: Loop, script: seq<Poll>)
    requires PendingStop(s)
    ensures var r := Passes(s, script);
      && (r.outcome.Stopped? && r.loop.heard == s.heard <==> Reaches(s.toWrite, script))
      && (Reaches(s.toWrite, script) ==> |r.loop.written| == s.transit && r.loop.changes == s.changes)
    decreases |script|
  {
    if script != [] {
      var p := script[0];
      var r := OnePass(s, p);
      LaterPass(s, p);
      if p.command.Some? || InputFails(p) {
        assert p.command.None? ==> r.outcome.Failure?;
        if r.outcome.Running? { LaterPasses(r.loop, script[1..]); }
      } else {
        StopPass(s, p);
        if |p.buffer| < s.toWrite { StopTakesEffect(r.loop, script[1..]); }
      }
    }
  }

  /** A scheduled stop of the recording can be lost: `set_utc_start` takes its place while its transit
      byte stays armed, and reaching that byte is then an error. */
  lemma PendingStopLost(b: byte)
    ensures var stop, utc := Command(RecordStop, 1, 8, 0), Command(SetUtcStart, 1, 0, 0);
      var script := [Poll(Some(stop), [b, b, b, b], true, 0), Poll(Some(utc), [b, b, b, b, b], true, 0)];
      var s := Start(Command(PwcControl.Start, 0, 0, 0)); var r := Passes(s, script);
      && DatedInv(s) && Dated(s, script) && PendingRecord(Passes(s, script[..1]).loop)
      && r.outcome.Failure? && r.loop.changes == []
  {
    var stop, utc := Command(RecordStop, 1, 8, 0), Command(SetUtcStart, 1, 0, 0);
    var p, q := Poll(Some(stop), [b, b, b, b], true, 0), Poll(Some(utc), [b, b, b, b, b], true, 0);
    var s := Start(Command(PwcControl.Start, 0, 0, 0));
    var script := [p, q];
    assert script[1..] == [q] && script[1..][1..] == [] && script[..1] == [p] && [p][1..] == [];
    var r := OnePass(s, p);
    DatedPass(s, p);
    assert r.outcome.Running? && r.loop.transit == 8 && r.loop.toWrite == 4;
    var t := OnePass(r.loop, q);
    assert t.outcome.Failure? && t.loop.changes == [];
    assert Dated(r.loop, [q]);
  }

  /** An overrun is reached: a recording started in mid-buffer, and an immediate stop right after. */
  lemma OverrunHappens(b: byte)
    ensures var start, stop := Command(RecordStart, 1, 2, 0), Command(RecordStop, 0, 0, 0);
      var script := [Poll(Some(start), [b, b, b, b], true, 0), Poll(Some(stop), [b], true, 0)];
      Passes(Start(Command(Clock, 0, 0, 0)), script).outcome.Overrun?
  {
    var start, stop := Command(RecordStart, 1, 2, 0), Command(RecordStop, 0, 0, 0);
    var p, q := Poll(Some(start), [b, b, b, b], true, 0), Poll(Some(stop), [b], true, 0);
    var s := Start(Command(Clock, 0, 0, 0));
    var script := [p, q];
    assert script[1..] == [q] && [q][1..] == [];
    var r := OnePass(s, p);
    assert r.outcome.Running? && r.loop.off == 2 && r.loop.bufBytes == 2 && r.loop.total == 4;
    assert OnePass(r.loop, q).outcome.Overrun?;
  }

  // ---------------------------------------------------------------- single commands

  /** An immediate rec_start or rec_stop takes effect in the pass that hears it, before any other
      byte is asked for. */
  lemma ImmediateRecord(s: Loop, p: Poll)
    requires p.command.Some? && (p.command.value.code.RecordStart? || p.command.value.code.RecordStop?)
    requires p.command.value.byteCount <= s.total
    ensures var c, t := p.command.value, OnePass(s, p).loop;
      && t.changes == s.changes + [Change(if c.code.RecordStart? then Recording else Clocking, |s.written|,
                                          c.byteCount, s.heard + 1)]
      && t.consumed == s.consumed && t.transit == 0
  {
    var h := Heard(s, p);
    assert h.transit == h.total > 0 && h.toWrite == 0;
  }

  /** `set_utc_start` with no transit byte armed changes nothing but the current command. */
  lemma UtcKeepsGoing(s: Loop, p: Poll)
    requires p.command.Some? && p.command.value.code.SetUtcStart? && s.transit == 0
    ensures var r, q := OnePass(s, p), OnePass(s, p.(command := None));
      r.outcome == q.outcome && r.loop == q.loop.(command := p.command.value, heard := s.heard + 1)
  {
  }

  /** Any command but rec_start, rec_stop, stop and set_utc_start ends the loop in an error at once. */
  lemma Unwelcome(s: Loop, p: Poll)
    requires p.command.Some?
    ensures var code := p.command.value.code;
      (code.Clock? || code.Start? || code.Header? || code.Reset? || code.Exit? || code.NoCommand?) ==>
        OnePass(s, p).outcome.Failure? && OnePass(s, p).loop.written == s.written
    ensures var code := p.command.value.code;
      (code.RecordStart? || code.RecordStop? || code.Stop? || code.SetUtcStart?) ==> !Unexpected(p)
  {
  }

  // ---------------------------------------------------------------- the states entered

  /** The state of the client when it started in `start`. */
  function StateOf(start: PwcState, changes: seq<Change>): PwcState {
    if changes == [] then start else changes[|changes| - 1].state
  }

  /** Change `i` is an allowed transition between clocking and recording. */
  predicate StepsTo(start: PwcState, changes: seq<Change>, i: nat)
    requires i < |changes|
  {
    var before, after := if i == 0 then start else changes[i - 1].state, changes[i].state;
    CanChange(before, after) && ((before.Clocking? && after.Recording?) || (before.Recording? && after.Clocking?))
  }

  ghost predicate Alternates(start: PwcState, changes: seq<Change>) {
    forall i :: 0 <= i < |changes| ==> StepsTo(start, changes, i)
  }

  /** Every command heard is one that is accepted in the state of that time. */
  predicate Obedient(start: PwcState, s: Loop, script: seq<Poll>)
    decreases |script|
  {
    script == [] ||
    ((script[0].command.Some? ==> Accepts(StateOf(start, s.changes), script[0].command.value.code)) &&
     var r := OnePass(s, script[0]);
     r.outcome.Running? ==> Obedient(start, r.loop, script[1..]))
  }

  /** A pending recording command is still one that the state accepts. */
  ghost predicate InStep(start: PwcState, s: Loop) {
    && Moving(start) && Alternates(start, s.changes) && Moving(StateOf(start, s.changes))
    && (s.transit > 0 && (s.command.code.RecordStart? || s.command.code.RecordStop?) ==>
          Accepts(StateOf(start, s.changes), s.command.code))
  }

  lemma AlternatesSnoc(start: PwcState, changes: seq<Change>, c: Change)
    requires Alternates(start, changes)
    requires var before := StateOf(start, changes);
      (before.Clocking? && c.state.Recording?) || (before.Recording? && c.state.Clocking?)
    ensures Alternates(start, changes + [c])
  {
    var all := changes + [c];
    forall i | 0 <= i < |all| ensures StepsTo(start, all, i) {
      if i < |changes| { assert StepsTo(start, changes, i); }
    }
  }

  lemma ArrivedInStep(start: PwcState, w: Loop)
    requires InStep(start, w)
    ensures var r := Arrived(w); Alternates(start, r.loop.changes) && (r.outcome.Running? ==> InStep(start, r.loop))
  {
    if w.transit > 0 && w.transit <= w.total && (w.command.code.RecordStart? || w.command.code.RecordStop?) {
      var c := Change(Target(w.command), |w.written|, w.command.byteCount, w.heard);
      AlternatesSnoc(start, w.changes, c);
      assert Arrived(w).loop.changes == w.changes + [c];
    }
  }

  lemma PassInStep(start: PwcState, s: Loop, p: Poll)
    requires InStep(start, s) && (p.command.Some? ==> Accepts(StateOf(start, s.changes), p.command.value.code))
    ensures var r := OnePass(s, p); Alternates(start, r.loop.changes) && (r.outcome.Running? ==> InStep(start, r.loop))
  {
    if !Unexpected(p) {
      var h := Heard(s, p);
      assert InStep(start, h);
      if !WantsBuffer(h) {
        ArrivedInStep(start, h);
      } else if !InputFails(p) {
        ArrivedInStep(start, Wrote(h, p.buffer));
      }
    }
  }

  lemma {:induction false} PassesInStep(start: PwcState, s: Loop, script: seq<Poll>)
    requires InStep(start, s) && Obedient(start, s, script)
    ensures Alternates(start, Passes(s, script).loop.changes)
    decreases |script|
  {
    if script != [] {
      PassInStep(start, s, script[0]);
      var r := OnePass(s, script[0]);
      if r.outcome.Running? { PassesInStep(start, r.loop, script[1..]); }
    }
  }

  /** When every command heard is one that the client accepts in the state of that time, the states
      entered alternate between clocking and recording, from the one the transfer started in, and
      each is an allowed transition. */
  lemma StatesAlternate(c: Command, script: seq<Poll>)
    requires c.code.Clock? || c.code.Start?
    requires Obedient(if c.code.Clock? then Clocking else Recording, Start(c), script)
    ensures Alternates(if c.code.Clock? then Clocking else Recording, Passes(Start(c), script).loop.changes)
  {
    PassesInStep(if c.code.Clock? then Clocking else Recording, Start(c), script);
  }

  // ---------------------------------------------------------------- start with a duration

  predicate HearsTimed(p: Poll) { p.command.Some? && Timed(p.command.value) }

  /** Polls before the first timed command. */
  function BeforeTimed(script: seq<Poll>): (k: nat)
    ensures k <= |script| && (k < |script| ==> HearsTimed(script[k]))
    ensures forall i :: 0 <= i < k ==> !HearsTimed(script[i])
  {
    if script == [] || HearsTimed(script[0]) then 0 else 1 + BeforeTimed(script[1..])
  }

  /** `need` bytes come in, an unexpected command is heard, or the input fails. */
  predicate Expires(need: nat, script: seq<Poll>)
    decreases |script|
  {
    script != [] &&
    (Unexpected(script[0]) || InputFails(script[0]) || |script[0].buffer| >= need
     || Expires(need - |script[0].buffer|, script[1..]))
  }

  /** A transit byte is armed, but the command is not one that is carried out there. */
  ghost predicate Armed(s: Loop) { Inv(s) && s.transit > 0 && !Timed(s.command) }

  lemma ArmedPass(s: Loop, p: Poll)
    requires Armed(s) && !HearsTimed(p)
    ensures var r := OnePass(s, p);
      if Unexpected(p) || InputFails(p) || |p.buffer| >= s.toWrite then r.outcome.Failure?
      else r.outcome.Running? && Armed(r.loop) && r.loop.toWrite == s.toWrite - |p.buffer|
  {
    PassInv(s, p);
  }

  lemma Shifted(script: seq<Poll>, k: nat)
    requires 0 < k <= |script|
    ensures script[..k] != [] && script[..k][0] == script[0]
    ensures script[..k][1..] == script[1..][..k - 1] && script[k..] == script[1..][k - 1..]
  {
  }

  /** An immediate stop ends the loop in the pass that hears it. */
  lemma ImmediateStop(s: Loop, script: seq<Poll>)
    requires script != [] && script[0].command.Some? && script[0].command.value.code.Stop?
    requires script[0].command.value.byteCount == 0
    ensures Passes(s, script).outcome.Stopped?
  {
    assert OnePass(s, script[0]).outcome.Stopped?;
  }

  lemma {:induction false} ArmedPasses(s: Loop, script: seq<Poll>)
    requires Armed(s)
    ensures var k := BeforeTimed(script); var t := Passes(s, script[..k]);
      if Expires(s.toWrite, script[..k]) then Passes(s, script).outcome.Failure? && t.outcome.Failure?
      else t.outcome.Running? && Armed(t.loop) && Passes(s, script) == Passes(t.loop, script[k..])
    decreases |script|
  {
    var k := BeforeTimed(script);
    if k == 0 {
      assert script[..0] == [] && script[0..] == script;
    } else {
      var p, rest := script[0], script[1..];
      Shifted(script, k);
      ArmedPass(s, p);
      var r := OnePass(s, p);
      if r.outcome.Running? { ArmedPasses(r.loop, rest); }
    }
  }

  /** A duration given with `start` does not end the recording: over every script, whatever the sizes
      of the buffers, the loop ends in an error exactly when the bytes come in (or the input fails, or
      an unexpected command comes) before a timed command is heard; it never stops by itself.  It
      ends normally only when a timed command is heard first, and at once for an immediate stop. */
  lemma TimedStart(c: Command, script: seq<Poll>)
    requires (c.code.Start? || c.code.Clock?) && c.byteCount > 0
    ensures var k, r := BeforeTimed(script), Passes(Start(c), script); var expired := Expires(c.byteCount, script[..k]);
      && (expired ==> r.outcome.Failure?)
      && (k == |script| && !expired ==> r.outcome.Running?)
      && (r.outcome.Stopped? ==> k < |script| && !expired)
      && (k < |script| && !expired && script[k].command.value.code.Stop? && script[k].command.value.byteCount == 0 ==>
            r.outcome.Stopped?)
  {
    var k := BeforeTimed(script);
    ArmedPasses(Start(c), script);
    assert k == |script| ==> script[..k] == script && script[k..] == [];
    if k < |script| && script[k].command.value.code.Stop? && script[k].command.value.byteCount == 0 {
      assert script[k..][0] == script[k];
      ImmediateStop(Passes(Start(c), script[..k]).loop, script[k..]);
    }
  }
}
