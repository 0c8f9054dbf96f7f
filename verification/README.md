# psrdada: protocols and transformations on top of the ring buffer

psrdada moves telescope data between cooperating processes through ring buffers. This project models
the code that is built on the ring buffer and proves what that code is for: that bytes arrive once, in
order and complete, that the protocols between two threads or two programs neither misfire nor stop
half-way, and that text and byte encodings are undone by their readers. The ring buffer itself (`ipcbuf`,
`ipcio`) is not part of this model; it appears as an abstract byte stream or as a sequence of blocks.

| file | component | form |
|---|---|---|
| `HandoverRing.dfy` | the two threads of `vsib_send`, their mutexes and the count of full buffers | transition system, every interleaving |
| `ReceiverRing.dfy` | the two threads of `vsib_recv`, with their different start | transition system, every interleaving |
| `Framing.dfy` | the length-prefixed file stream of `vsib_send` and `vsib_recv` | loops as methods, against a parser on whole streams |
| `RdmaHandshake.dfy` | the InfiniBand block protocol of `dada_dbib` and `dada_ibdb` | two state machines over two channels |
| `PwcControl.dfy` | command mailbox and state graph of the primary write client | class `Pwc` and a transition system |
| `PwcTransfer.dfy` | the write client's transfer loop | methods against a function of all polls |
| `AsciiHeader.dfy` | find, set, get and delete on header text | class `Buffer`, search loop, headers as lists of lines |
| `HeaderMarker.dfy` | the "DATA" marker, and which laws of a map survive it | headers as lists of lines |
| `HeaderWire.dfy` | header encoding, command splitting, decoding | in-place array loop, pointer loops |
| `Events.dfy` | trigger times to byte ranges, fusion, extraction, stale data | in-place array loop, class `Stream` |
| `DiskJoin.dfy` | contiguous files found and joined | arrays, class `DiskDb` |
| `DiskTiling.dfy` | an observation cut into files | class `DbDisk` |
| `Interleave.dfy` | two polarisations merged chunk by chunk | class `Polarisation` |
| `NumberSequence.dfy` | test pattern writer and checker | array loop, classes `NumDb` and `DbNum` |
| `Common.dfy` | concatenation, modular slots, byte order | |

Methods follow the loops of the source and are proved against functions; the lemmas are about those
functions, over every input, run or interleaving.

## Where the code is not what it is said to be

The model follows the code. Where a promise fails, there is a lemma with the input that shows it, and the
condition under which the promise holds is proved in both directions where one is stated.

- The ring deadlocks exactly when it has two buffers and there is data (`DeadlockIff`); the constant's
  comment asks for three.
- The receiver's ring delivers in every interleaving exactly when no byte is read into the first buffer a
  second time: the stream fills fewer buffers than there are, or as many and nothing is read behind them
  (`ReceiverIff`). Otherwise main, which has locked the last mutex twice, can be lapped before it gets that mutex,
  and misses what the first buffer held. Once main has it in time, any stream is delivered
  (`ReceiverSafety`, `EveryMaximalRunDelivers`).
- With equal buffer sizes, the receiver accepts names up to two bytes longer than the sender's buffer can hold
  in a header (`HeaderFits`).
- The transfer loop keeps the data block equal to the buffers received, except that an immediate
  `rec_start` or `rec_stop` found right after a pass that changed state reads beyond the last buffer.
  `Conservation` says exactly in which runs that happens, and `OverrunHappens` is one.
- A scheduled `rec_start`, `rec_stop` or `stop` takes effect, at exactly its byte, if and only if the bytes come
  in before another command is heard and before the input fails (`TakesEffect`, `StopTakesEffect`). A
  `set_utc_start` is accepted in between, takes the command's place and turns its byte into an error
  (`PendingStopLost`).
- A `start` command with a duration never stops by itself: it ends in an error exactly when its bytes come in
  before a timed command is heard (`TimedStart`).
- A header command holds only a pointer to a buffer that every command thread writes without the mutex. The
  text main copies is the accepted one exactly when the last text written before the copy is that text
  (`HeaderDelivered`); a header that is refused can replace an accepted one (`RefusedHeaderDelivered`).
- An accepted `clock` or `start` is taken in the prepared state if and only if at its acceptance main had no
  command in flight but a header (`StarterFate`). A stop or another clock in flight defeats it
  (`ClockDuringStop`, `ClockDuringClock`).
- A header is a map only if no keyword asked for is a proper prefix of the header's first word
  (`UnfairStart`), and the text `DATA` with a newline is taken for the end marker inside a value too
  (`MarkerInValue`; `GetOtherIff` says exactly when another value suffers).
- A new keyword is written in front of the marker without a newline. Setting behaves as on a list of lines, and
  setting twice is setting once, if and only if the keyword was known or there is no marker (`SetIsLineIff`,
  `SetIdempotentIff`); the value can be read back exactly when, besides, the marker stands at the start of a
  line or the header then starts with the keyword (`GetAfterSetIff`). From `A 1` and a `DATA` line, setting B
  and then C loses C, and setting B twice deletes the marker (`DataLine`).
- Deleting a keyword on a last line without newline copies what lies behind the header in memory, and in no
  other case (`DelStaysInside`).
- A header survives the wire exactly when it fits, has no backslash, does not start with a blank, gives a
  `TSAMP`, without which the client refuses it, and ends with a newline; where no room is left for one, a last
  character that is no blank does (`WireRoundTrip`).
- A keyword with nothing behind it is read as having the next keyword for its value (`NextKeywordRead`).
- A stream cut inside a file still gives that file, shorter, with nothing to tell (`TruncatedContent`).
- The aligned start of an event is rounded up, and so loses data, exactly when it lies strictly inside the
  first resolution unit (`Aligned`).
- A run of files is joined for every buffer size exactly when none of its files after the first is empty
  (`JoinedIff`).
- An observation is tiled exactly when the first rounded file size is positive, and more than half a multiple
  if a second file follows (`Observe`, `RoundedUsable`); otherwise a size becomes zero, taken for no limit, or
  wraps around, and that file gets all the rest (`Unlimited`). `FILE_NUMBER` is 0 from the second file of an observation on, so names differ by
  offset alone (`NamesDiffer`).

## Model

| member | source | states |
|---|---|---|
| HandoverRing.Exclusive | 3rdparty/vsib_send.c:383-397 | no slot is held by both threads, and during a handover a thread's two slots are different ones |
| HandoverRing.RunInv | 3rdparty/vsib_send.c:277-298 | every state of every interleaving keeps the lock, index, window, data and output invariants |
| HandoverRing.StepRefinesFifo | 3rdparty/vsib_send.c:383-460 | every step of either thread in any run is an enqueue of the next buffer, a dequeue of the oldest one after all of it was sent, or leaves the queue unchanged |
| HandoverRing.RingSafety | 3rdparty/vsib_send.c:731-805 | in every reachable state: `nfullbuf` is filled minus consumed, no buffer is refilled before it is consumed, the consumer reads the oldest filled buffer, sees zero only after the producer has finished and all is sent, and what is sent is a prefix of the data |
| HandoverRing.Progress | 3rdparty/vsib_send.c:742-804 | with three or more buffers some thread can step in every state of the invariant until both are finished |
| HandoverRing.DeadlockAtTwo | 3rdparty/vsib_send.c:392-397 | with two buffers and data, a run that ends in a deadlock |
| HandoverRing.DeadlockIff | 3rdparty/vsib_send.c:51 | for every ring size from two: some interleaving deadlocks if and only if the size is two and there is data |
| HandoverRing.WorkDecreases | 3rdparty/vsib_send.c:731-805 | every step of every interleaving makes progress towards the end |
| HandoverRing.EveryMaximalRunDelivers | 3rdparty/vsib_send.c:482-498 | with three or more buffers all runs are bounded by the data, and a run that cannot go on has ended both threads with every byte sent once and in order |
| Framing.ReadFile | 3rdparty/vsib_send.c:404-426 | buffers of any read sizes concatenate to the file, and none is empty or too long |
| Framing.HeaderLayout | 3rdparty/vsib_send.c:338-381 | byte by byte: the file size in eight bytes and the name size with its zero in two, low byte first, the name, a zero |
| Framing.FillBuffers | 3rdparty/vsib_send.c:319-426 | for any read sizes the buffers concatenate to the frame of the files that have a name, and stay within their size if and only if every header fits one |
| Framing.NamedParts | 3rdparty/vsib_send.c:319-336 | a file with no name is left out wherever it stands, and no other is |
| Framing.HeaderFits | 3rdparty/vsib_send.c:338-381 | a name that the receiver accepts fits the sender's buffer of the same size if and only if it leaves ten bytes |
| ReceiverRing.Exclusive | 3rdparty/vsib_recv.c:300-375 | no buffer is held by both threads, and during a handover a thread's two buffers differ |
| ReceiverRing.StepKeeps | 3rdparty/vsib_recv.c:732-869 | every step of either thread keeps the invariant, unless the thread has overtaken main in a long stream |
| ReceiverRing.ReceiverSafety | 3rdparty/vsib_recv.c:338-487 | in every run of such a stream or in which main is not overtaken: fillings are taken in order, whole and once, `nfullbuf` counts those left, no unread buffer is refilled, and main ends only after the thread, with everything taken |
| ReceiverRing.OvertakingRun | 3rdparty/vsib_recv.c:300-320 | for every stream of which bytes are read into the first buffer a second time, a run in which main takes a first buffer that no longer holds the first filling |
| ReceiverRing.ReceiverIff | 3rdparty/vsib_recv.c:300-320 | every interleaving delivers in order and whole if and only if the stream fills fewer buffers than there are, or as many with no byte read behind them |
| ReceiverRing.Progress | 3rdparty/vsib_recv.c:338-487 | some thread can step in every state of the invariant until both are done |
| ReceiverRing.EveryMaximalRunDelivers | 3rdparty/vsib_recv.c:338-487 | every run of such a stream, or without overtaking, is bounded, and one that cannot go on has ended both threads with every filling taken once, whole and in order |
| Framing.ThreadsWriteFiles | 3rdparty/vsib_recv.c:338-487 | such a run that has ended, on the buffers parsed from a framed list of files, writes exactly those files |
| Framing.NetRead | 3rdparty/vsib_recv.c:732-869 | the buffers published depend only on the whole stream, for any cuts by `recv`, including truncated streams and bad name sizes |
| Framing.NameSizes | 3rdparty/vsib_recv.c:820-850 | a name size of zero ends the thread as bad, and one that exceeds the buffer or is negative as a short ends it as too long |
| Framing.NameFollows | 3rdparty/vsib_recv.c:820-850 | with any other name size a header buffer is published that holds the file size and the name, without the name size |
| Framing.ParseFrame | 3rdparty/vsib_recv.c:820-850 | parsing a framed list of files gives exactly each file's header and data buffers, and ends at the end of the stream |
| Framing.WriteFiles | 3rdparty/vsib_recv.c:338-469 | the nested loops of the writing thread compute the fold over the buffers |
| Framing.RoundTrip | 3rdparty/vsib_recv.c:338-469 | for any list of files within the name limits, empty ones included, the receiver reconstructs exactly the names and contents that were framed |
| Framing.TruncatedContent | 3rdparty/vsib_recv.c:786-797 | a stream that ends inside the content of a file gives all files before it and that file with what came of it |
| Framing.TruncatedHeader | 3rdparty/vsib_recv.c:786-797 | a stream that ends inside a header gives the buffers of the files before it and one with the part received, unless that is just the two sizes |
| Framing.Transfer | 3rdparty/vsib_send.c:338-426 | sender loop, any read sizes, any network cuts and receiver loops composed give back the list of files, and report whether all headers fit the sender's buffers |
| Framing.ThreadsDeliverFiles | 3rdparty/vsib_send.c:731-805 | the same when the bytes pass through any completed interleaving of the sender's two threads |
| RdmaHandshake.WireFits | src/dada_ib.c:1208-1258 | the bytes sent are the valid ones rounded up to the next multiple of a chunk, and never leave the remote block |
| RdmaHandshake.PostSends | src/dada_ib.c:1208-1258 | the chunk loop copies the valid bytes and the rest of their last chunk, and nothing else of the remote block |
| RdmaHandshake.StepKeeps | src/dada_ib.c:1052-1129 | every step of either side keeps the invariant that ties program points, posted receives and messages in flight |
| RdmaHandshake.HandshakeSafety | src/dada_dbib.c:185-347 | in every reachable state: every message found a posted receive of its kind, no unexpected message was read, at most one receive is outstanding per side, and the receiver holds exactly the blocks accepted |
| RdmaHandshake.HandshakeProgress | src/dada_ibdb.c:72-240 | neither side gets stuck before both are done |
| RdmaHandshake.TransferCompletes | src/dada_client.c:174-378 | every run is bounded, and a run that cannot go on has finished both sides with the header and the valid bytes of every block received in order, whether the last block is full, partial or absent |
| PwcControl.Pwc.CommandSet | src/dada_pwc.c:146-242 | a command, of a header only the pointer, enters the empty slot exactly in the states that accept it, and nothing else changes |
| PwcControl.Pwc.CommandGet | src/dada_pwc.c:724-745 | hands over the pending command and empties the slot |
| PwcControl.Pwc.Duration | src/dada_pwc.c:413-445 | changes the byte count of an empty slot only, and not while recording |
| PwcControl.Pwc.ProcessError | src/dada_pwc_main.c:1425-1461 | from every state leaves the client in an error state |
| PwcControl.AcceptedAllowed | src/dada_pwc.c:146-242 | a command is accepted only where the transition it asks for is allowed; header, clock, start, rec_start and rec_stop are accepted in all such states, reset in the error states, set_utc_start while data flow, exit when idle |
| PwcControl.Transitions | src/dada_pwc.c:749-844 | the state graph, edge by edge |
| PwcControl.MailboxStep | src/dada_pwc.c:733-742 | a step of any thread either keeps the pending command's code, time and byte count as they are or delivers it |
| PwcControl.MailboxExact | src/dada_pwc.c:232-239 | over all interleavings the accepted commands, with their times and byte counts, are the delivered ones, in order, followed by at most one pending |
| PwcControl.HeaderDelivered | src/dada_pwc.c:333-356 | in every run the text copied for a header is the one its thread wrote if and only if the last text written to the shared buffer before the copy is that text, and surely if none was written in between |
| PwcControl.RefusedHeaderDelivered | src/dada_pwc_main.c:190-200 | a run in which main copies the text of a header that is then refused |
| PwcControl.PhaseStep | src/dada_pwc_main.c:156-352 | whatever threads do, the main loop's position bounds the state it can be in |
| PwcControl.TraceGrows | src/dada_pwc.c:749-844 | every step keeps the state or takes one allowed transition, which the history records |
| PwcControl.PreparedFirst | src/dada_pwc.c:749-844 | walking back from clocking or recording, nothing but those two is met before prepared |
| PwcControl.StateHistory | src/dada_pwc_main.c:110-149 | in every run: data flows only after a prepared since the last idle, a fatal error is final, other errors lead only to idle |
| PwcControl.MainPhases | src/dada_pwc_main.c:1393-1461 | in every run: the main loop waits for commands only when no data flows, transfers only while data flows, and leaves each error handler in an error state |
| PwcControl.StarterFate | src/dada_pwc_main.c:176-257 | in every run an accepted clock or start is taken in prepare in the prepared state, and finds that state when the transfer starts, if and only if at its acceptance main had no command in flight but a header |
| PwcControl.ClockDuringStop | src/dada_pwc_main.c:231-240 | a run in which a clock accepted during a stop ends in a soft error |
| PwcControl.ClockDuringClock | src/dada_pwc_main.c:565-584 | a run in which a clock accepted during a clock ends the transfer in a hard error |
| PwcTransfer.TransferData | src/dada_pwc_main.c:474-960 | the loop, with its parts that hear a command, write a buffer and change state, computes the passes over any script of commands and buffers |
| PwcTransfer.DatedHeard | src/dada_pwc_main.c:623-648 | hearing a dated command arms its byte ahead of the total and asks for a buffer |
| PwcTransfer.WroteSplits | src/dada_pwc_main.c:786-826 | what a pass writes and what it leaves make up the buffer received |
| PwcTransfer.MovedFresh | src/dada_pwc_main.c:919-952 | a transition in the pass that took the buffer writes exactly the rest of it |
| PwcTransfer.MovedStale | src/dada_pwc_main.c:919-952 | a transition without a buffer reads beyond it if and only if the last pass changed state and the buffer was not empty |
| PwcTransfer.PassInv | src/dada_pwc_main.c:479-483 | a pass keeps data block, pointer and transit byte consistent, or is one of those that read beyond the buffer |
| PwcTransfer.Conservation | src/dada_pwc_main.c:474-960 | over all runs the data block is the concatenation of the source buffers, split or not, cut at the stop byte by a stop, cut or followed by one byte in an error; a run reads beyond a buffer exactly when an immediate recording command follows a transition |
| PwcTransfer.DatedRun | src/dada_pwc_main.c:623-648 | in every run of dated commands a pending transit byte is total plus bytes to write, no change of state is early or late, a stop leaves exactly its byte count, and no buffer is overrun |
| PwcTransfer.TransitHappensThen | src/dada_pwc_main.c:838-872 | in a pass without command or failure, a pending transition happens if the buffer reaches its byte, a rec_start to recording and a rec_stop to clocking, and stays pending if not |
| PwcTransfer.TakesEffect | src/dada_pwc_main.c:530-872 | over every script, a pending dated rec_start (to recording) or rec_stop (to clocking) takes effect if and only if its bytes come in before another command and before the input fails; it is then the next change, at exactly its byte |
| PwcTransfer.ImmediateRecord | src/dada_pwc_main.c:838-880 | an immediate rec_start or rec_stop changes the state, to recording or to clocking, in the pass that hears it |
| PwcTransfer.UtcKeepsGoing | src/dada_pwc_main.c:536-591 | set_utc_start with no byte scheduled changes nothing but the current command |
| PwcTransfer.Unwelcome | src/dada_pwc_main.c:536-591 | any command but rec_start, rec_stop, stop and set_utc_start ends the loop in an error with nothing more written |
| PwcTransfer.StatesAlternate | src/dada_pwc_main.c:838-880 | over every script in which each command is one the client accepts in the state of its time, the states entered alternate between clocking and recording from the one the transfer started in, each an allowed transition |
| PwcTransfer.StopTakesEffect | src/dada_pwc_main.c:530-880 | over every script, a pending dated stop ends the loop by itself, with exactly its byte count in the data block, if and only if its bytes come in before another command and before the input fails |
| PwcTransfer.PendingStopLost | src/dada_pwc_main.c:536-591 | a run in which set_utc_start makes the loop lose a scheduled stop and end in an error |
| PwcTransfer.OverrunHappens | src/dada_pwc_main.c:919-952 | a run that reads beyond a buffer |
| PwcTransfer.TimedStart | src/dada_pwc_main.c:838-915 | over every script, a start with a duration ends in an error if its bytes come in, the input fails or an unexpected command comes before a timed command is heard, runs on otherwise, and stops only after a timed command heard first |
| AsciiHeader.StrStr | src/ascii_header.c:24-43 | the first occurrence from a position on, or none |
| AsciiHeader.Find | src/ascii_header.c:24-43 | the loop finds the first place where the keyword stands at a line start before a blank, or at the start of the text |
| AsciiHeader.Buffer.HeaderSet | src/ascii_header.c:45-102 | the edited text is the set function of the old one, and the result tells whether it stays inside the buffer |
| AsciiHeader.Buffer.HeaderGet | src/ascii_header.c:104-126 | the value read is the get function of the text |
| AsciiHeader.Buffer.HeaderDel | src/ascii_header.c:128-153 | the edited text is the delete function of the old one and of what lies behind it in memory, and the result tells whether the keyword was there |
| AsciiHeader.SearchIsLine | src/ascii_header.c:24-43 | on plain headers the search finds the first line of the keyword and nothing else |
| AsciiHeader.SetIsLine | src/ascii_header.c:45-102 | setting rewrites exactly the keyword's line up to its comment, or adds one line |
| AsciiHeader.SetText | src/ascii_header.c:45-102 | the text after setting: before and behind the line nothing changes, the line keeps what follows from its comment on, and a new line is the last |
| AsciiHeader.EntryColumns | src/ascii_header.c:86-92 | keyword from column 0 in at least 12, a blank, the value in at least 20, three blanks; of a longer value the first 4095 characters |
| AsciiHeader.GetIsLine | src/ascii_header.c:104-126 | getting reads the first word behind the keyword on its first line, or the first word of a later line when nothing follows there, or fails |
| AsciiHeader.NextKeywordRead | src/ascii_header.c:104-126 | a keyword with nothing behind it is read as having the next keyword for its value |
| AsciiHeader.DelIsLine | src/ascii_header.c:128-153 | deleting removes exactly the keyword's first line, or nothing |
| HeaderMarker.GetAfterSetIff | src/ascii_header.c:45-126 | for every plain header: get after set returns the value if and only if the keyword was known, there is no marker, the marker stands at the start of a line, or the header then starts with the keyword |
| AsciiHeader.GetOtherAfterSet | src/ascii_header.c:45-126 | set leaves the value of every other keyword unchanged, prefixes included unless the line set is the first |
| HeaderMarker.GetOtherIff | src/ascii_header.c:45-126 | wherever the marker is, a new keyword leaves another one's value unchanged if and only if that one is not on the marker's line or its value ends before the marker (or the words coincide), and the new keyword does not join with what precedes it to that one |
| HeaderMarker.GetOtherAtMarker | src/ascii_header.c:56-68 | so does a new keyword in front of a marker at the start of a line |
| HeaderMarker.SetIdempotentIff | src/ascii_header.c:45-102 | for every plain header: setting twice gives the same text as setting once if and only if the keyword was known or there is no marker |
| HeaderMarker.SetIsLineIff | src/ascii_header.c:56-68 | setting behaves as on a list of lines if and only if the keyword was known or there is no marker |
| HeaderMarker.MarkerMoves | src/ascii_header.c:56-68 | a new keyword stays between the start of the marker's line and the marker |
| HeaderMarker.SecondKeywordLost | src/ascii_header.c:56-68 | of two new keywords set in front of a marker at a line start the second cannot be read back |
| HeaderMarker.DataLine | src/ascii_header.c:56-68 | the two failing inputs: a lost keyword and a deleted marker |
| AsciiHeader.GetOtherAfterDel | src/ascii_header.c:104-153 | delete leaves the value of every other keyword unchanged |
| AsciiHeader.GetAfterDel | src/ascii_header.c:104-153 | a keyword on one line is undefined after its deletion |
| AsciiHeader.UnfairStart | src/ascii_header.c:24-43 | a proper prefix of the header's first word is found at its start |
| AsciiHeader.UnfairGet | src/ascii_header.c:104-126 | what is read for it is the value of the first keyword |
| AsciiHeader.MarkerInValue | src/ascii_header.c:45-102 | a value ending in DATA is cut by the next new keyword |
| AsciiHeader.DelStaysInside | src/ascii_header.c:128-153 | deleting does not depend on the memory behind the header if and only if the keyword is absent or a newline follows it |
| HeaderWire.Replace | src/dada_pwc_nexus_config.c:67-77 | the loop in place replaces every newline and nothing else |
| HeaderWire.CommandParse | src/command_parse.c:160-207 | the pointer loops split off the first word and trim the rest at both ends |
| HeaderWire.ParsedParts | src/command_parse.c:160-207 | any command line from its parts: white space in front is skipped, the first word is the command, the arguments lose white space at both ends, no arguments is a null pointer |
| HeaderWire.Splits | src/command_parse.c:160-207 | the command line of an encoded header splits into the command and the trimmed encoding |
| HeaderWire.SearchEncoded | src/ascii_header.c:24-43 | a keyword is found at the same place in a header and in its encoded form |
| HeaderWire.HeaderArrives | src/dada_pwc.c:314-346 | a header that starts with no blank and ends with none is refused exactly when it is longer than the header block or has no TSAMP, and gets a final newline when it has none and there is room |
| HeaderWire.WireRoundTrip | src/dada_pwc.c:314-346 | for any header, header size and white space that ends the line: it arrives unchanged if and only if it fits, has no backslash, starts with no blank, gives a TSAMP and ends with a newline, or with no blank where no room is left for a newline |
| Events.OffsetMonotone | src/dada_dbevent.c:968-1002 | later times never get earlier bytes |
| Events.OffsetExact | src/dada_dbevent.c:968-1002 | the offset of a time is the byte in which it falls, the fraction of the second included, and -1 exactly when it is before the start or there is none |
| Events.Aligned | src/dada_dbevent.c:713-752 | aligned bounds are multiples in order, less than a unit from the offsets, equal to them on a multiple; the end never loses data, and the start does exactly inside the first unit |
| Events.EventAround | src/dada_dbevent.c:713-752 | the same for the event of a trigger, in terms of the bytes in which its two times fall |
| Events.Fuse | src/dada_dbevent.c:800-818 | the pass in place computes the fusion function of the array |
| Events.FuseSeparates | src/dada_dbevent.c:800-818 | after each step the live events before it have ended where a later live one starts |
| Events.FusionCorrect | src/dada_dbevent.c:800-818 | for any sorted events the survivors are sorted, pairwise disjoint and have the same union |
| Events.TriggersFused | src/dada_dbevent.c:713-818 | from trigger times on, for any order the sort gives equal starts: each trigger becomes a range whose bounds are near the bytes its times fall in, and the survivors are disjoint, in order, on multiples, and cover exactly those ranges |
| Events.GroupsContain | src/dada_dbevent.c:800-818 | a survivor contains every event fused into it |
| Events.Extract | src/dada_dbevent.c:820-952 | the extraction loop produces the records of a forward walk of the stream, and every live range is either recorded or counted as missed |
| Events.RecordsInOrder | src/dada_dbevent.c:821-903 | records hold the stream's bytes, go forwards and never overlap |
| Events.NothingElseMissed | src/dada_dbevent.c:821-903 | recording a range never makes a later survivor of the batch be missed |
| Events.BatchRecords | src/dada_dbevent.c:800-903 | from sorted triggers to records: a survivor is recorded if and only if the stream had not passed it before the batch |
| Events.BatchBytes | src/dada_dbevent.c:800-903 | byte by byte: only what a trigger asked for is recorded, and all of it unless it is in a fused range that starts before the position of the stream |
| Events.BatchCounts | src/dada_dbevent.c:943-944 | if none is missed and none is empty at byte 0, each N_EVENTS counts exactly the triggers fused into its range |
| Events.SkipStale | src/dada_dbevent.c:508-594 | skipping ends within the allowed delay or at the end of data, on a block boundary less than one block beyond, and reports the boundaries crossed |
| DiskJoin.RunGrows | src/dada_diskdb.c:378-431 | a new file lengthens exactly the runs that reach it |
| DiskJoin.RunIsObservation | src/dada_diskdb.c:405-418 | the files of a run have one UTC_START and each starts at the byte where those before it end; the file behind the run does not |
| DiskJoin.RunByte | src/dada_diskdb.c:80-121 | byte n of the data of such files is byte offset + n of the observation, taken from the file whose range of offsets holds it |
| DiskJoin.ExtendRun | src/dada_diskdb.c:405-431 | the inner loop makes the size of every linked file that of its longer run, and touches no other |
| DiskJoin.CheckContiguity | src/dada_diskdb.c:328-440 | each size is the sum from that file to the end of its maximal contiguous run, and each flag tells whether the next file has the same UTC_START and starts where this one ends |
| DiskJoin.DiskDb.Read | src/dada_diskdb.c:80-121 | a read, continued once in the next contiguous file |
| DiskJoin.ReadExact | src/dada_diskdb.c:80-121 | a read returns what is left of the file followed by the next contiguous one, cut to the bytes wanted, and the next read starts right behind |
| DiskJoin.DiskDb.CopyBytes | src/dada_client.c:60-169 | the copying loop computes the copy function from any position |
| DiskJoin.DiskDb.CopyRun | src/dada_diskdb.c:131-155 | the copy of a run, after which the next file is current |
| DiskJoin.CopiesRun | src/dada_diskdb.c:301-325 | from any position in a run without empty files behind it, any buffer size copies exactly what is left and ends in the last file |
| DiskJoin.JoinedIff | src/dada_diskdb.c:107-117 | a run is copied whole, and left at its last file, with every buffer size if and only if no file after the first is empty |
| DiskJoin.CopyAll | src/dada_client.c:380-473 | each transfer is the concatenation of consecutive files of one UTC_START, each starting where those before it end, which cannot be continued at either end; each transfer starts where the last one ended, and together they are all the data in order |
| DiskTiling.RoundedUsable | src/dada_dbdisk.c:178-211 | rounding gives a positive size if and only if the size exceeds the gap or the gap is rounded up; from an aligned start, if and only if the size is more than half a multiple |
| DiskTiling.RoundedEnds | src/dada_dbdisk.c:178-211 | the rounded file ends on a nearest multiple, the lower one on a tie |
| DiskTiling.RoundedStable | src/dada_dbdisk.c:178-211 | the size rounded from an aligned start is a multiple that the next file keeps, although it is written to the header and read back |
| DiskTiling.NamesDiffer | src/dada_dbdisk.c:126-158 | files of different offsets have different names, whatever their numbers |
| DiskTiling.NameLayout | src/dada_dbdisk.c:152-154 | character by character: UTC_START, the offset in 16 decimal digits and the file number in 6, for numbers that fit |
| DiskTiling.DbDisk.Open | src/dada_dbdisk.c:66-253 | name, number and size of a new file from what is remembered of the last, ten seconds of data when there is no size, modulo 2^64 when rounding goes below zero |
| DiskTiling.DbDisk.Observe | src/dada_client.c:476-630 | an observation of any length becomes files that tile it if and only if the first rounded size is positive, and more than half a multiple when a second file follows; in any case the files hold all of its data in order |
| DiskTiling.Unlimited | src/dada_dbdisk.c:178-211 | a file whose size is rounded to zero or below takes all the data that are left |
| DiskTiling.TilesSnoc | src/dada_dbdisk.c:245 | the file opened next extends a tiling |
| DiskTiling.OffsetsGrow | src/dada_dbdisk.c:126-158 | in a tiling later files start at larger offsets |
| DiskTiling.DistinctNames | src/dada_dbdisk.c:126-158 | no two files of an observation get the same name |
| Interleave.PickAlternate | src/dada_dbmergedb.c:417-435 | de-interleaving a merged stream returns equal-length prefixes of both polarisations |
| Interleave.AlternateAt | src/dada_dbmergedb.c:417-435 | where each byte goes: byte j of chunk i of either stream, the first one in front |
| Interleave.AlternateSplit | src/dada_dbmergedb.c:306-312 | merging in two steps is merging in one |
| Interleave.FullBytesAre | src/dada_dbmergedb.c:325-346 | what can be merged is every full block before the first short one, the last block included |
| Interleave.Polarisation.NextBlock | src/dada_dbmergedb.c:323-369 | a block is open, or is opened when one is left and it is full; the stream is unchanged, and the call fails exactly at its end |
| Interleave.Polarisation.TakeChunk | src/dada_dbmergedb.c:417-435 | one chunk is taken off the front of the stream, wherever the block ends |
| Interleave.WriteBlock | src/dada_dbmergedb.c:296-442 | an output block alternates the chunks of both streams and consumes exactly those, or both are drained, which happens exactly when one is too short |
| Interleave.Merge | src/dada_dbmergedb.c:296-442 | the output over all successful calls is one alternation of the two streams, independent of all block boundaries, and goes on as long as both have a block's worth; of inputs whose blocks are all full it alternates all blocks |
| NumberSequence.CodeRoundTrip | src/dada_dbnum.c:82-123 | big-endian decoding undoes encoding for every value below 2^64 |
| NumberSequence.EncodedBigEndian | src/dada_numdb.c:93-98 | byte i of a number is its value divided by 256 to the 7 - i, modulo 256 |
| NumberSequence.DecodedBigEndian | src/dada_dbnum.c:97-102 | the decoded value is the sum of the eight bytes times 256 to the 7 - i |
| NumberSequence.NumDb.Write | src/dada_numdb.c:63-116 | a buffer is filled with the next numbers of the pattern, a remainder is left alone, and the counter moves on |
| NumberSequence.EncodeAt | src/dada_numdb.c:93-98 | the byte loop writes the eight bytes of the number and no others |
| NumberSequence.DbNum.Check | src/dada_dbnum.c:63-130 | accepts exactly the data that the checking function accepts, and ends at its counter |
| NumberSequence.DecodeAt | src/dada_dbnum.c:82-123 | the weighted byte loop decodes the big-endian number |
| NumberSequence.PatternSplit | src/dada_numdb.c:82-109 | writing in two buffers is writing in one |
| NumberSequence.PatternNumber | src/dada_numdb.c:82-109 | bytes 8 i to 8 i + 8 of a pattern are its number i, the most significant byte first |
| NumberSequence.CheckAccepts | src/dada_dbnum.c:82-123 | the checker accepts every pattern and ends at the writer's counter |
| NumberSequence.CheckExact | src/dada_dbnum.c:82-123 | the checker accepts data if and only if they are the pattern from the number it expects, with fewer than eight bytes behind |
| NumberSequence.WriterCheckerAgree | src/dada_dbnum.c:63-130 | for any start, interleave and two chunkings into whole numbers, the checker accepts everything the writer wrote |
| NumberSequence.NthNumber | src/dada_numdb.c:100-109 | from a start that is a multiple of twice the interleave the n-th value is start + n + interleave * (n / interleave) |

## Left out

- Errors of the operating system, `O_DIRECT`, standard input and several sockets in `vsib_send` and `vsib_recv`; `vsib_proxy` altogether.
- ReceiverRing.ReceiverSafety: interrupts and write failures end neither thread; in a lapped run, what main makes of buffers after the first wrong one.
- Framing.FillBuffers: what a header that does not fit overwrites.
- RdmaHandshake.TransferCompletes: runs with TRANSFER_SIZE, or a second transfer on one connection, where the two sides end on different conditions.
- Xfers, the block variant and several clients in the write client; liveness of its condition variable, which one signal shares between two kinds of waiter.
- PwcControl.Pwc.CommandSet: `set_utc_start` is accepted and delivered, but its effect on the header is not modelled; waiting is a precondition, and only a transition of the system model.
- PwcControl.HeaderDelivered: a text is written and copied in one step each; copies of half-written texts appear only as further texts written.
- PwcTransfer.TransferData: the data block never refuses bytes; the error function's verdict is an input.
- AsciiHeader.Buffer.HeaderSet: what a text that does not fit overwrites.
- AsciiHeader.GetIsLine: values are tokens; numeric formats of `ascii_header_get` would add only parsing of numbers.
- AsciiHeader.GetOtherAfterSet: a keyword with nothing behind it on its own line, whose value then comes from a later line that may change; the same for GetOtherAfterDel and HeaderMarker.GetOtherIff.
- HeaderWire.WireRoundTrip: BYTES_PER_SECOND, which the client adds after decoding, and the nexus's loop over nodes.
- Events.OffsetMonotone: exact integers instead of 64-bit ones, and a decimal fraction with its denominator instead of `powf`.
- Events.TriggersFused: `qsort` is any permutation sorted by start, not an algorithm.
- Event metadata other than the bounds, the data and N_EVENTS, and the numbering of their keys.
- Events.Extract: seeks are exact and reads are full, as long as the data is there.
- DiskJoin.CopyAll: files with a header and at least one byte; header keys missing, `seek_bytes`, and files re-added while running.
- DiskJoin.DiskDb.CopyRun: a run of no bytes, for which a size of zero means no limit.
- DiskTiling.DbDisk.Observe: opening and writing never fail, not even for a size that wrapped around, and the observation's start time does not change; exact integers instead of 64-bit ones.
- Interleave.WriteBlock: the number of chunks is given; that an output block is a multiple of the resolution is checked by the source before the loop.
- Interleave.Merge: starts after `input_thread` has aligned the polarisations.
- `ipcbuf`, `ipcio`, `multilog`, `nexus`, `disk_array`, `sock` and `tmutil` are not part of this model.
