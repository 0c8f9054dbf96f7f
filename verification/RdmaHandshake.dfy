/** Block transfer from dada_dbib to dada_ibdb over one RDMA connection, no TRANSFER_SIZE.
    A SEND consumes the oldest receive posted by the peer; posting a receive clears its buffer. */
module RdmaHandshake {
  import opened Common

  const READY := 1
  const BYTES_TO_XFER := 2
  const BYTES_XFERRED := 3

  /** Block size, RDMA chunk size, the sender's blocks (memory and valid length), the address of the
      block that the receiver's data block hands out for each, and the header. */
  datatype Config = Config(bufsz: nat, chunk: nat, mems: seq<seq<byte>>, lens: seq<nat>,
                           va: seq<nat>, header: seq<byte>)

  /** A data block reader sees full blocks, then possibly one partial block before end of data. */
  ghost predicate WellFormed(c: Config) {
    && 0 < c.chunk && 0 < c.bufsz && c.bufsz % c.chunk == 0
    && |c.mems| == |c.lens| == |c.va|
    && (forall i :: 0 <= i < |c.lens| ==> 0 < c.lens[i] <= c.bufsz && |c.mems[i]| == c.bufsz)
    && (forall i :: 0 <= i < |c.lens| - 1 ==> c.lens[i] == c.bufsz)
  }

  ghost function Payload(c: Config): seq<seq<byte>>
    requires WellFormed(c)
  {
    seq(|c.lens|, i requires 0 <= i < |c.lens| => c.mems[i][..c.lens[i]])
  }

  // ---------------------------------------------------------------- endpoints

  datatype Target = SyncFrom | HeaderMb
  datatype Packet = Sync(key: nat, val: nat) | HeaderPacket(bytes: seq<byte>)

  /** Receives posted and completed, and the contents of sync_from and header_mb. */
  datatype Endpoint = Endpoint(posted: seq<Target>, arrived: seq<Target>,
                               key: nat, val: nat, header: seq<byte>)

  function Post(e: Endpoint, t: Target): Endpoint {
    match t
    case SyncFrom => e.(posted := e.posted + [t], key := 0, val := 0)
    case HeaderMb => e.(posted := e.posted + [t], header := [])
  }

  /** None when the message finds no receive, or one for the other kind of message. */
  function Deliver(e: Endpoint, p: Packet): Option<Endpoint> {
    if e.posted == [] then None
    else match (e.posted[0], p)
      case (SyncFrom, Sync(k, v)) =>
        Some(e.(posted := e.posted[1..], arrived := e.arrived + [SyncFrom], key := k, val := v))
      case (HeaderMb, HeaderPacket(b)) =>
        Some(e.(posted := e.posted[1..], arrived := e.arrived + [HeaderMb], header := b))
      case _ => None
  }

  // ---------------------------------------------------------------- RDMA writes

  /** Bytes moved for a block: whole chunks. */
  function WireBytes(bytes: nat, chunk: nat): nat
    requires chunk > 0
  {
    (bytes / chunk + (if bytes % chunk != 0 then 1 else 0)) * chunk
  }

  /** Rounding up to chunks never leaves the remote block, because chunks tile a block. */
  lemma WireFits(bytes: nat, chunk: nat, bufsz: nat)
    requires 0 < chunk && bufsz % chunk == 0 && bytes <= bufsz
    ensures bytes <= WireBytes(bytes, chunk) <= bufsz
    ensures WireBytes(bytes, chunk) < bytes + chunk && WireBytes(bytes, chunk) % chunk == 0
  {
    var q, m := bytes / chunk, bufsz / chunk;
    var k := q + (if bytes % chunk != 0 then 1 else 0);
    RoundsUp(bytes, chunk, q, bytes % chunk, k);
    assert bufsz == chunk * m;
    ChunksFit(k, m, chunk, bytes);
  }

  lemma RoundsUp(bytes: nat, chunk: nat, q: nat, r: nat, k: nat)
    requires bytes == chunk * q + r && r < chunk && k == q + (if r != 0 then 1 else 0)
    ensures bytes <= k * chunk < bytes + chunk && k * chunk % chunk == 0
  {
    assert k * chunk == chunk * q + (if r != 0 then chunk else 0);
    ModUnique(k * chunk, chunk, k, 0);
  }

  lemma ChunksFit(k: nat, m: nat, chunk: nat, bytes: nat)
    requires k * chunk < bytes + chunk && bytes <= chunk * m
    ensures k * chunk <= chunk * m
  {
    var d := k - m;
    assert k * chunk == chunk * m + chunk * d;
    MulBound(chunk, d);
  }

  method PostSends(src: array<byte>, bytes: nat, chunk: nat, dst: array<byte>)
    requires 0 < chunk && src != dst && src.Length == dst.Length
    requires bytes <= src.Length && src.Length % chunk == 0
    modifies dst
    ensures WireBytes(bytes, chunk) <= src.Length
    ensures dst[..] == src[..WireBytes(bytes, chunk)] + old(dst[..])[WireBytes(bytes, chunk)..]
    ensures dst[..bytes] == src[..bytes]
  {
    WireFits(bytes, chunk, src.Length);
    var chunks := bytes / chunk;
    if bytes % chunk != 0 { chunks := chunks + 1; }
    ghost var total := WireBytes(bytes, chunk);
    var i, addr := 0, 0;
    while i < chunks
      invariant i <= chunks && addr == i * chunk && total == chunks * chunk
      invariant addr <= total
      invariant forall j :: 0 <= j < addr ==> dst[j] == src[j]
      invariant forall j :: addr <= j < dst.Length ==> dst[j] == old(dst[j])
    {
      ChunkFits(i, chunks, chunk);
      forall j | addr <= j < addr + chunk { dst[j] := src[j]; }
      i, addr := i + 1, addr + chunk;
    }
  }

  lemma ChunkFits(i: nat, chunks: nat, chunk: nat)
    requires i < chunks
    ensures (i + 1) * chunk == i * chunk + chunk <= chunks * chunk
  {
    assert (chunks - i - 1) * chunk == chunks * chunk - (i + 1) * chunk;
    MulBound(chunk, chunks - i - 1);
  }

  // ---------------------------------------------------------------- the two programs

  datatype SenderPc =
    | WaitReadyHdr | PostReady | SendHdr                                   // dbib_send
    | WaitReady | PostAddr | SendBytes | WaitAddr | Rdma | PostNextReady | SendXferred  // dbib_send_block
    | CloseWait | CloseSend | SenderDone                                   // dbib_close

  datatype ReceiverPc =
    | Open | SendReadyHdr | WaitHdr | PostBytes                            // dada_ibdb_open, _recv
    | SendReady | WaitBytes | PostXferred | SendAddr | WaitXferred | PostNextBytes  // _recv_block
    | CloseReady | CloseBytes | ReceiverDone                               // dada_ibdb_close

  /** `i` and `k` count blocks sent and accepted; `got` is what the receiver's data block holds. */
  datatype Sys = Sys(s: Endpoint, r: Endpoint, spc: SenderPc, rpc: ReceiverPc, i: nat, k: nat,
                     remote: map<nat, seq<byte>>, rbytes: nat, got: seq<byte>, header: seq<byte>,
                     fault: bool)

  function Init(c: Config): Sys {
    Sys(Endpoint([SyncFrom], [], 0, 0, []), Endpoint([], [], 0, 0, []), WaitReadyHdr, Open, 0, 0,
        map a | a in c.va :: seq(c.bufsz, _ => 0), 0, [], [], false)
  }

  predicate SenderWaits(p: SenderPc) {
    p.WaitReadyHdr? || p.WaitReady? || p.WaitAddr? || p.CloseWait?
  }

  predicate ReceiverWaits(p: ReceiverPc) {
    p.WaitHdr? || p.WaitBytes? || p.WaitXferred? || p.CloseBytes?
  }

  predicate SenderEnabled(x: Sys) {
    !x.fault && !x.spc.SenderDone? && (SenderWaits(x.spc) ==> x.s.arrived != [])
  }

  predicate ReceiverEnabled(x: Sys) {
    !x.fault && !x.rpc.ReceiverDone? && (ReceiverWaits(x.rpc) ==> x.r.arrived != [])
  }

  /** recv_message: the completion must be for the buffer waited on, and the key must match. */
  function Taken(e: Endpoint, t: Target, key: nat): Option<Endpoint> {
    if e.arrived == [] || e.arrived[0] != t || (key > 0 && e.key != key) then None
    else Some(e.(arrived := e.arrived[1..]))
  }

  function SenderTakes(x: Sys, key: nat, next: SenderPc): Sys {
    match Taken(x.s, SyncFrom, key)
    case None => x.(fault := true)
    case Some(e) => x.(s := e, spc := next)
  }

  function SenderSends(x: Sys, p: Packet, next: SenderPc): Sys {
    match Deliver(x.r, p)
    case None => x.(fault := true)
    case Some(e) => x.(r := e, spc := next)
  }

  function ReceiverTakes(x: Sys, t: Target, key: nat, next: ReceiverPc): Sys {
    match Taken(x.r, t, key)
    case None => x.(fault := true)
    case Some(e) => x.(r := e, rpc := next)
  }

  function ReceiverSends(x: Sys, p: Packet, next: ReceiverPc): Sys {
    match Deliver(x.s, p)
    case None => x.(fault := true)
    case Some(e) => x.(s := e, rpc := next)
  }

  /** The reader loop calls dbib_send_block while blocks remain, then dbib_close. */
  function NextBlock(c: Config, i: nat): SenderPc { if i < |c.lens| then WaitReady else CloseWait }

  ghost function SenderNext(c: Config, x: Sys): Sys
    requires WellFormed(c)
  {
    match x.spc
    case WaitReadyHdr => SenderTakes(x, READY, PostReady)
    case PostReady => x.(s := Post(x.s, SyncFrom), spc := SendHdr)
    case SendHdr => SenderSends(x, HeaderPacket(c.header), NextBlock(c, 0))
    case WaitReady => if x.s.val != 0 then x.(fault := true) else SenderTakes(x, READY, PostAddr)
    case PostAddr => x.(s := Post(x.s, SyncFrom), spc := SendBytes)
    case SendBytes =>
      if x.i < |c.lens| then SenderSends(x, Sync(BYTES_TO_XFER, c.lens[x.i]), WaitAddr)
      else x.(fault := true)
    case WaitAddr => SenderTakes(x, 0, Rdma)
    case Rdma =>
      if x.i < |c.lens| && x.s.key in x.remote && |x.remote[x.s.key]| == c.bufsz
         && WireBytes(c.lens[x.i], c.chunk) <= c.bufsz
      then
        var w := WireBytes(c.lens[x.i], c.chunk);
        x.(remote := x.remote[x.s.key := c.mems[x.i][..w] + x.remote[x.s.key][w..]], spc := PostNextReady)
      else x.(fault := true)
    case PostNextReady => x.(s := Post(x.s, SyncFrom), spc := SendXferred)
    case SendXferred =>
      if x.i < |c.lens|
      then SenderSends(x.(i := x.i + 1), Sync(BYTES_XFERRED, c.lens[x.i]), NextBlock(c, x.i + 1))
      else x.(fault := true)
    case CloseWait => SenderTakes(x, READY, CloseSend)
    case CloseSend => SenderSends(x, Sync(BYTES_TO_XFER, 0), SenderDone)
    case SenderDone => x
  }

  ghost function ReceiverNext(c: Config, x: Sys): Sys
    requires WellFormed(c)
  {
    match x.rpc
    case Open => x.(r := Post(x.r, HeaderMb), rpc := SendReadyHdr)
    case SendReadyHdr => ReceiverSends(x, Sync(READY, 0), WaitHdr)
    case WaitHdr => ReceiverTakes(x, HeaderMb, 0, PostBytes)
    case PostBytes => x.(r := Post(x.r, SyncFrom), header := x.r.header, rpc := SendReady)
    case SendReady => ReceiverSends(x, Sync(READY, 0), WaitBytes)
    case WaitBytes =>
      // zero bytes set xfer_ending: the block loop ends and close has nothing to do
      ReceiverTakes(x, SyncFrom, BYTES_TO_XFER, if x.r.val == 0 then ReceiverDone else PostXferred)
    case PostXferred => x.(r := Post(x.r, SyncFrom), rpc := SendAddr)
    case SendAddr =>
      if x.k < |c.va| then ReceiverSends(x, Sync(c.va[x.k], 0), WaitXferred) else x.(fault := true)
    case WaitXferred => ReceiverTakes(x.(rbytes := x.r.val), SyncFrom, BYTES_XFERRED, PostNextBytes)
    case PostNextBytes =>
      if x.k < |c.va| && c.va[x.k] in x.remote && x.rbytes <= |x.remote[c.va[x.k]]| then
        x.(r := Post(x.r, SyncFrom), got := x.got + x.remote[c.va[x.k]][..x.rbytes], k := x.k + 1,
           rpc := if x.rbytes < c.bufsz then CloseReady else SendReady)
      else x.(fault := true)
    case CloseReady => ReceiverSends(x, Sync(READY, 0), CloseBytes)
    case CloseBytes =>
      if x.r.val != 0 then x.(fault := true) else ReceiverTakes(x, SyncFrom, BYTES_TO_XFER, ReceiverDone)
    case ReceiverDone => x
  }

  ghost predicate Next(c: Config, x: Sys, y: Sys)
    requires WellFormed(c)
  {
    || (SenderEnabled(x) && y == SenderNext(c, x))
    || (ReceiverEnabled(x) && y == ReceiverNext(c, x))
  }

  ghost predicate Run(c: Config, tr: seq<Sys>) {
    && WellFormed(c) && |tr| > 0 && tr[0] == Init(c)
    && forall j :: 0 <= j < |tr| - 1 ==> Next(c, tr[j], tr[j + 1])
  }

  // ---------------------------------------------------------------- invariant

  predicate Bare(e: Endpoint) { e.posted == [] && e.arrived == [] }
  predicate Armed(e: Endpoint, t: Target) { e.posted == [t] && e.arrived == [] }
  predicate Holding(e: Endpoint, t: Target) { e.posted == [] && e.arrived == [t] }

  predicate HoldingSync(e: Endpoint, key: nat, val: nat) {
    Holding(e, SyncFrom) && e.key == key && e.val == val
  }

  /** The remote block of the transfer in progress holds the valid bytes of the sender's block. */
  ghost predicate Landed(c: Config, x: Sys)
    requires WellFormed(c)
  {
    && x.k < |c.lens| && c.va[x.k] in x.remote && c.lens[x.k] <= |x.remote[c.va[x.k]]|
    && x.remote[c.va[x.k]][..c.lens[x.k]] == c.mems[x.k][..c.lens[x.k]]
  }

  /** How far each side can be from the other, and which receives are posted or completed then. */
  ghost predicate Phase(c: Config, x: Sys)
    requires WellFormed(c)
  {
    var n := |c.lens|;
    match x.spc
    case WaitReadyHdr =>
      && x.i == x.k == 0
      && (|| (x.rpc.Open? && Armed(x.s, SyncFrom) && Bare(x.r))
          || (x.rpc.SendReadyHdr? && Armed(x.s, SyncFrom) && Armed(x.r, HeaderMb))
          || (x.rpc.WaitHdr? && HoldingSync(x.s, READY, 0) && Armed(x.r, HeaderMb)))
    case PostReady => x.i == x.k == 0 && x.rpc.WaitHdr? && Bare(x.s) && Armed(x.r, HeaderMb)
    case SendHdr => x.i == x.k == 0 && x.rpc.WaitHdr? && Armed(x.s, SyncFrom) && Armed(x.r, HeaderMb)
    case PostAddr => x.i == x.k < n && x.rpc.WaitBytes? && Bare(x.s) && Armed(x.r, SyncFrom)
    case SendBytes => x.i == x.k < n && x.rpc.WaitBytes? && Armed(x.s, SyncFrom) && Armed(x.r, SyncFrom)
    case WaitAddr =>
      && x.i == x.k < n
      && (|| (x.rpc.WaitBytes? && Armed(x.s, SyncFrom) && HoldingSync(x.r, BYTES_TO_XFER, c.lens[x.i]))
          || (x.rpc.PostXferred? && Armed(x.s, SyncFrom) && Bare(x.r))
          || (x.rpc.SendAddr? && Armed(x.s, SyncFrom) && Armed(x.r, SyncFrom))
          || (x.rpc.WaitXferred? && Holding(x.s, SyncFrom) && x.s.key == c.va[x.k] && Armed(x.r, SyncFrom)))
    case Rdma => x.i == x.k < n && x.rpc.WaitXferred? && Bare(x.s) && x.s.key == c.va[x.k] && Armed(x.r, SyncFrom)
    case PostNextReady => x.i == x.k < n && x.rpc.WaitXferred? && Bare(x.s) && Armed(x.r, SyncFrom) && Landed(c, x)
    case SendXferred =>
      x.i == x.k < n && x.rpc.WaitXferred? && Armed(x.s, SyncFrom) && Armed(x.r, SyncFrom) && Landed(c, x)
    case CloseSend => x.i == x.k == n && (x.rpc.WaitBytes? || x.rpc.CloseBytes?) && Bare(x.s) && Armed(x.r, SyncFrom)
    case SenderDone =>
      && x.i == x.k == n && Bare(x.s)
      && (|| ((x.rpc.WaitBytes? || x.rpc.CloseBytes?) && HoldingSync(x.r, BYTES_TO_XFER, 0))
          || (x.rpc.ReceiverDone? && Bare(x.r)))
    case _ =>      // WaitReady, CloseWait
      && x.i <= n && x.spc == NextBlock(c, x.i)
      && (|| (x.rpc.WaitHdr? && x.i == x.k == 0 && Armed(x.s, SyncFrom) && Holding(x.r, HeaderMb) && x.r.header == c.header)
          || (x.rpc.PostBytes? && x.i == x.k == 0 && Armed(x.s, SyncFrom) && Bare(x.r) && x.r.header == c.header)
          || (x.rpc.SendReady? && x.i == x.k && Armed(x.s, SyncFrom) && Armed(x.r, SyncFrom))
          || (x.rpc.CloseReady? && x.i == x.k == n && Armed(x.s, SyncFrom) && Armed(x.r, SyncFrom))
          || ((x.rpc.WaitBytes? || (x.rpc.CloseBytes? && x.i == n)) && x.i == x.k
              && HoldingSync(x.s, READY, 0) && Armed(x.r, SyncFrom))
          || (x.rpc.WaitXferred? && x.i == x.k + 1 && Armed(x.s, SyncFrom)
              && HoldingSync(x.r, BYTES_XFERRED, c.lens[x.k]) && Landed(c, x))
          || (x.rpc.PostNextBytes? && x.i == x.k + 1 && Armed(x.s, SyncFrom) && Bare(x.r)
              && x.rbytes == c.lens[x.k] && Landed(c, x)))
  }

  ghost predicate Inv(c: Config, x: Sys) {
    && WellFormed(c) && !x.fault && Phase(c, x)
    && (forall a :: a in c.va ==> a in x.remote && |x.remote[a]| == c.bufsz)
    && x.k <= |c.lens| && x.got == Flatten(Payload(c)[..x.k])
    && (x.rpc.Open? || x.rpc.SendReadyHdr? || x.rpc.WaitHdr? || x.rpc.PostBytes? || x.header == c.header)
  }

  predicate SenderPosts(p: SenderPc) { p.PostReady? || p.PostAddr? || p.PostNextReady? }

  predicate ReceiverPosts(p: ReceiverPc) { p.Open? || p.PostBytes? || p.PostXferred? || p.PostNextBytes? }

  lemma SenderTakeKeeps(c: Config, x: Sys)
    requires Inv(c, x) && SenderEnabled(x) && SenderWaits(x.spc)
    ensures Inv(c, SenderNext(c, x))
  {
  }

  lemma SenderPostKeeps(c: Config, x: Sys)
    requires Inv(c, x) && SenderEnabled(x) && SenderPosts(x.spc)
    ensures Inv(c, SenderNext(c, x))
  {
  }

  lemma SenderRdmaKeeps(c: Config, x: Sys)
    requires Inv(c, x) && SenderEnabled(x) && x.spc.Rdma?
    ensures Inv(c, SenderNext(c, x))
  {
    WireFits(c.lens[x.i], c.chunk, c.bufsz);
    var w, len := WireBytes(c.lens[x.i], c.chunk), c.lens[x.i];
    assert c.va[x.k] in c.va;
    var block := c.mems[x.i][..w] + x.remote[x.s.key][w..];
    assert block[..len] == c.mems[x.i][..len];
  }

  lemma SenderSendKeeps(c: Config, x: Sys)
    requires Inv(c, x) && SenderEnabled(x)
    requires x.spc.SendHdr? || x.spc.SendBytes? || x.spc.SendXferred? || x.spc.CloseSend?
    ensures Inv(c, SenderNext(c, x))
  {
  }

  lemma ReceiverTakeKeeps(c: Config, x: Sys)
    requires Inv(c, x) && ReceiverEnabled(x) && ReceiverWaits(x.rpc)
    ensures Inv(c, ReceiverNext(c, x))
  {
  }

  lemma ReceiverPostKeeps(c: Config, x: Sys)
    requires Inv(c, x) && ReceiverEnabled(x) && ReceiverPosts(x.rpc)
    ensures Inv(c, ReceiverNext(c, x))
  {
    if x.rpc.PostNextBytes? {
      FlattenTake(Payload(c), x.k);
    }
  }

  lemma ReceiverSendKeeps(c: Config, x: Sys)
    requires Inv(c, x) && ReceiverEnabled(x) && !ReceiverWaits(x.rpc) && !ReceiverPosts(x.rpc)
    ensures Inv(c, ReceiverNext(c, x))
  {
  }

  lemma StepKeeps(c: Config, x: Sys, y: Sys)
    requires Inv(c, x) && Next(c, x, y)
    ensures Inv(c, y)
  {
    if SenderEnabled(x) && y == SenderNext(c, x) {
      if SenderWaits(x.spc) { SenderTakeKeeps(c, x); }
      else if SenderPosts(x.spc) { SenderPostKeeps(c, x); }
      else if x.spc.Rdma? { SenderRdmaKeeps(c, x); }
      else { SenderSendKeeps(c, x); }
    } else {
      if ReceiverWaits(x.rpc) { ReceiverTakeKeeps(c, x); }
      else if ReceiverPosts(x.rpc) { ReceiverPostKeeps(c, x); }
      else { ReceiverSendKeeps(c, x); }
    }
  }

  lemma {:induction false} RunInv(c: Config, tr: seq<Sys>, j: nat)
    requires Run(c, tr) && j < |tr|
    ensures Inv(c, tr[j])
  {
    if j > 0 {
      RunInv(c, tr, j - 1);
      assert Next(c, tr[j - 1], tr[j - 1 + 1]);
      StepKeeps(c, tr[j - 1], tr[j]);
    }
  }

  /** In every reachable state: no message was sent without a matching posted receive and no
      unexpected key or value was read, each side has at most one receive outstanding, and the
      receiver's data block holds exactly the valid bytes of the blocks accepted so far. */
  lemma HandshakeSafety(c: Config, tr: seq<Sys>, j: nat)
    requires Run(c, tr) && j < |tr|
    ensures var x := tr[j];
      && !x.fault
      && |x.s.posted| + |x.s.arrived| <= 1 && |x.r.posted| + |x.r.arrived| <= 1
      && x.k <= x.i <= x.k + 1 && x.i <= |c.lens|
      && x.got == Flatten(Payload(c)[..x.k])
  {
    RunInv(c, tr, j);
  }

  /** Neither side gets stuck. */
  lemma HandshakeProgress(c: Config, x: Sys)
    requires Inv(c, x)
    ensures SenderEnabled(x) || ReceiverEnabled(x) || (x.spc.SenderDone? && x.rpc.ReceiverDone?)
  {
  }

  function SenderRank(p: SenderPc): nat {
    match p
    case WaitReadyHdr => 12 case PostReady => 11 case SendHdr => 10 case WaitReady => 9 case PostAddr => 8
    case SendBytes => 7 case WaitAddr => 6 case Rdma => 5 case PostNextReady => 4 case SendXferred => 3
    case CloseWait => 2 case CloseSend => 1 case SenderDone => 0
  }

  function ReceiverRank(p: ReceiverPc): nat {
    match p
    case Open => 13 case SendReadyHdr => 12 case WaitHdr => 11 case PostBytes => 10 case SendReady => 9
    case WaitBytes => 8 case PostXferred => 7 case SendAddr => 6 case WaitXferred => 5 case PostNextBytes => 4
    case CloseReady => 3 case CloseBytes => 2 case ReceiverDone => 0
  }

  ghost function Work(c: Config, x: Sys): int {
    8 * (|c.lens| - x.i) + SenderRank(x.spc) + 8 * (|c.lens| - x.k) + ReceiverRank(x.rpc)
  }

  lemma SenderWork(c: Config, x: Sys)
    requires WellFormed(c) && SenderEnabled(x) && !SenderNext(c, x).fault
    ensures Work(c, SenderNext(c, x)) < Work(c, x)
  {
  }

  lemma ReceiverWork(c: Config, x: Sys)
    requires WellFormed(c) && ReceiverEnabled(x) && !ReceiverNext(c, x).fault
    ensures Work(c, ReceiverNext(c, x)) < Work(c, x)
  {
  }

  lemma WorkDecreases(c: Config, x: Sys, y: Sys)
    requires Inv(c, x) && Next(c, x, y) && !y.fault
    ensures Work(c, y) < Work(c, x)
  {
    if SenderEnabled(x) && y == SenderNext(c, x) {
      SenderWork(c, x);
    } else {
      ReceiverWork(c, x);
    }
  }

  lemma WorkBound(c: Config, x: Sys)
    requires Inv(c, x)
    ensures 0 <= Work(c, x)
  {
    assert x.i <= |c.lens| && x.k <= |c.lens|;
  }

  lemma {:induction false} RunLength(c: Config, tr: seq<Sys>, j: nat)
    requires Run(c, tr) && j < |tr|
    ensures Inv(c, tr[j]) && j + Work(c, tr[j]) <= 16 * |c.lens| + 25
  {
    RunInv(c, tr, j);
    if j == 0 {
      assert tr[0].i == tr[0].k == 0;
    } else {
      RunLength(c, tr, j - 1);
      assert Next(c, tr[j - 1], tr[j - 1 + 1]);
      WorkDecreases(c, tr[j - 1], tr[j]);
    }
  }

  ghost predicate Halted(c: Config, x: Sys)
    requires WellFormed(c)
  {
    forall y :: !Next(c, x, y)
  }

  /** Whether the last block is full, partial or there is no data: every run is finite, and a run
      that cannot be extended has finished both programs, with header and data delivered. */
  lemma TransferCompletes(c: Config, tr: seq<Sys>)
    requires Run(c, tr)
    ensures |tr| <= 16 * |c.lens| + 26
    ensures var x := tr[|tr| - 1];
      Halted(c, x) ==> x.spc.SenderDone? && x.rpc.ReceiverDone?
                       && x.got == Flatten(Payload(c)) && x.header == c.header && x.i == x.k == |c.lens|
    ensures |Payload(c)| == |c.lens| && forall i :: 0 <= i < |c.lens| ==> Payload(c)[i] == c.mems[i][..c.lens[i]]
  {
    var x := tr[|tr| - 1];
    RunLength(c, tr, |tr| - 1);
    WorkBound(c, x);
    HandshakeProgress(c, x);
    assert SenderEnabled(x) ==> Next(c, x, SenderNext(c, x));
    assert ReceiverEnabled(x) ==> Next(c, x, ReceiverNext(c, x));
    assert Payload(c)[..|c.lens|] == Payload(c);
  }
}
