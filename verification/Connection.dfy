/** The output path and life cycle of a TCP connection (TcpConnection.cpp) as a state machine over
    atomic steps of the loop thread and of any number of other threads. A step of another thread is
    one atomic access: the state check of `Send`, its enqueueing, the compare-and-swap of
    `Shutdown`, its enqueueing. Handlers of the loop thread read the shared state once and are one
    step each. Module TcpConnections ties the methods of the class to these steps. */
module Connection {
  import opened Buffers

  datatype State = Connecting | Connected | Disconnecting | Disconnected {
    function Rank(): nat {
      match this
      case Connecting => 0
      case Connected => 1
      case Disconnecting => 2
      case Disconnected => 3
    }
  }

  /** What the loop has been asked to run later. */
  datatype Functor = SendFn(data: seq<byte>) | ShutdownFn | WriteCompleteFn | HighWaterFn(size: nat)

  /** The outcome of write(2): a count, or an errno. `PeerGone` is EPIPE or ECONNRESET. */
  datatype WriteResult = Wrote(n: nat) | WouldBlock | PeerGone | OtherError

  /** Which user callbacks are set, and the high-water mark. */
  datatype Config = Config(writeComplete: bool, highWater: bool, mark: nat)

  /** One payload that reached `SendInLoop`, and whether it entered the stream. */
  datatype Entry = Entry(data: seq<byte>, kept: bool)

  /** `sent` are the bytes the socket has accepted, `shut` says that its write half was shut down,
      `log` are the payloads in the order of `SendInLoop`. `inSend` and `inShutdown` are the calls of
      other threads that have passed their check but not yet enqueued. */
  datatype Conn = Conn(cfg: Config, state: State, out: seq<byte>, writing: bool, shut: bool, sent: seq<byte>,
                       log: seq<Entry>, queue: seq<Functor>, inSend: map<int, seq<byte>>, inShutdown: bool)

  function Initial(cfg: Config): Conn {
    Conn(cfg, Connecting, [], false, false, [], [], [], map[], false)
  }

  /** The bytes of the kept payloads, in order. */
  function Kept(log: seq<Entry>): seq<byte> {
    if log == [] then []
    else
      var last := log[|log| - 1];
      Kept(log[..|log| - 1]) + if last.kept then last.data else []
  }

  // ---------- steps of the loop thread ----------

  function ShutdownInLoop(c: Conn): Conn {
    if c.writing then c else c.(shut := true)
  }

  /** A payload can be written directly only if nothing is queued before it. */
  predicate Direct(c: Conn) { !c.writing && c.out == [] }

  /** What write(2) may return: no more than was offered, and after the write half is shut down no
      byte at all. */
  predicate Possible(c: Conn, len: nat, w: WriteResult) {
    && (w.Wrote? ==> w.n <= len)
    && (c.shut && 0 < len ==> w.PeerGone?)
  }

  /** The direct attempt: the state after it, how much was written, and whether the peer is gone. */
  function TryWrite(c: Conn, data: seq<byte>, w: WriteResult): (Conn, nat, bool)
    requires Direct(c) ==> Possible(c, |data|, w)
  {
    if !Direct(c) then (c, 0, false)
    else
      match w
      case Wrote(n) =>
        var done := n == |data| && c.cfg.writeComplete;
        (c.(sent := c.sent + data[..n], queue := if done then c.queue + [WriteCompleteFn] else c.queue), n, false)
      case PeerGone => (c, 0, true)
      case _ => (c, 0, false)
  }

  /** The unsent rest goes to the output buffer, with write interest; crossing the high-water mark is
      reported. */
  function QueueRest(c: Conn, rest: seq<byte>): Conn {
    var size := |c.out| + |rest|;
    var high := c.cfg.mark <= size && |c.out| < c.cfg.mark && c.cfg.highWater;
    c.(out := c.out + rest, writing := true, queue := if high then c.queue + [HighWaterFn(size)] else c.queue)
  }

  function SendInLoop(c: Conn, data: seq<byte>, w: WriteResult): Conn
    requires Direct(c) ==> Possible(c, |data|, w)
  {
    if c.state == Disconnected then c.(log := c.log + [Entry(data, false)])
    else
      var (c1, nwrote, fault) := TryWrite(c, data, w);
      var c2 := c1.(log := c.log + [Entry(data, !fault)]);
      if fault || nwrote == |data| then c2 else QueueRest(c2, data[nwrote..])
  }

  /** The socket has accepted the first `n` bytes of the buffer. */
  function TakeWritten(c: Conn, n: nat): Conn
    requires n <= |c.out|
  {
    c.(sent := c.sent + c.out[..n], out := c.out[n..])
  }

  /** The buffer has just been drained: write interest goes, and a deferred shutdown is carried out. */
  function Drained(c: Conn): Conn {
    var c' := c.(writing := false, queue := if c.cfg.writeComplete then c.queue + [WriteCompleteFn] else c.queue);
    if c'.state == Disconnecting then ShutdownInLoop(c') else c'
  }

  function HandleWrite(c: Conn, w: WriteResult): Conn
    requires c.writing ==> Possible(c, |c.out|, w)
  {
    if !c.writing || !w.Wrote? then c
    else
      var c' := TakeWritten(c, w.n);
      if c'.out != [] then c' else Drained(c')
  }

  // ---------- the machine ----------

  datatype Action =
    | Establish
    | SendHere(data: seq<byte>, w: WriteResult)
    | SendCheck(thread: int, data: seq<byte>)
    | SendPost(thread: int)
    | ShutdownHere
    | ShutdownSet
    | ShutdownPost
    | RunQueued(w: WriteResult)
    | Writable(w: WriteResult)
    | Close
    | Destroy

  /** When a step can happen. Destroying a connection that is still disconnecting leaves it as it is
      (and then fails an assertion: see `StepIntoDestroyed` of the class). */
  predicate Enabled(c: Conn, a: Action) {
    match a
    case Establish => c.state == Connecting
    case SendHere(data, w) => Direct(c) ==> Possible(c, |data|, w)
    case SendCheck(t, data) => t !in c.inSend
    case SendPost(t) => t in c.inSend
    case ShutdownHere => true
    case ShutdownSet => true
    case ShutdownPost => c.inShutdown
    case RunQueued(w) =>
      && c.queue != []
      && (c.queue[0].SendFn? && Direct(c) ==> Possible(c, |c.queue[0].data|, w))
    case Writable(w) => c.writing ==> Possible(c, |c.out|, w)
    case Close => c.state == Connected || c.state == Disconnecting
    case Destroy => c.state != Connecting
  }

  function RunFunctor(c: Conn, f: Functor, w: WriteResult): Conn
    requires f.SendFn? && Direct(c) ==> Possible(c, |f.data|, w)
  {
    match f
    case SendFn(data) => SendInLoop(c, data, w)
    case ShutdownFn => ShutdownInLoop(c)
    case WriteCompleteFn => c
    case HighWaterFn(_) => c
  }

  function Step(c: Conn, a: Action): Conn
    requires Enabled(c, a)
  {
    match a
    case Establish => c.(state := Connected)
    case SendHere(data, w) => if c.state == Connected then SendInLoop(c, data, w) else c
    case SendCheck(t, data) => if c.state == Connected then c.(inSend := c.inSend[t := data]) else c
    case SendPost(t) => c.(queue := c.queue + [SendFn(c.inSend[t])], inSend := c.inSend - {t})
    case ShutdownHere => if c.state == Connected then ShutdownInLoop(c.(state := Disconnecting)) else c
    case ShutdownSet => if c.state == Connected then c.(state := Disconnecting, inShutdown := true) else c
    case ShutdownPost => c.(queue := c.queue + [ShutdownFn], inShutdown := false)
    case RunQueued(w) => RunFunctor(c.(queue := c.queue[1..]), c.queue[0], w)
    case Writable(w) => HandleWrite(c, w)
    case Close => c.(state := Disconnected, writing := false)
    case Destroy => if c.state == Connected then c.(state := Disconnected, writing := false) else c
  }

  ghost predicate Moves(c: Conn, a: Action, c': Conn) { Enabled(c, a) && c' == Step(c, a) }

  ghost predicate MovesAt(cs: seq<Conn>, acts: seq<Action>, i: nat)
    requires i < |acts| < |cs|
  {
    Moves(cs[i], acts[i], cs[i + 1])
  }

  ghost predicate IsRun(cs: seq<Conn>, acts: seq<Action>) {
    && |cs| == |acts| + 1 && cs[0] == Initial(cs[0].cfg)
    && forall i :: 0 <= i < |acts| ==> MovesAt(cs, acts, i)
  }

  // ---------- the invariant ----------

  /** Nothing is lost, duplicated or reordered: what the socket accepted, followed by what is still
      buffered, is exactly the kept payloads. */
  ghost predicate Conserved(c: Conn) { Kept(c.log) == c.sent + c.out }

  ghost predicate WriteInterest(c: Conn) {
    if c.state == Disconnected then !c.writing else c.writing <==> c.out != []
  }

  /** Once the write half is shut down on a live connection, it is disconnecting and has nothing
      left to send. */
  ghost predicate ShutWhenDrained(c: Conn) {
    c.shut && c.state != Disconnected ==> c.state == Disconnecting && c.out == []
  }

  /** A shutdown is asked for only after the state has left `Connected`... */
  ghost predicate ShutdownJustified(c: Conn) {
    c.inShutdown || ShutdownFn in c.queue ==> c.state == Disconnecting || c.state == Disconnected
  }

  /** ... and is never forgotten: somebody is about to enqueue it, it is queued, it was carried out,
      or unsent data is armed and will trigger it when it drains. */
  ghost predicate ShutdownRemembered(c: Conn) {
    c.state == Disconnecting ==> c.inShutdown || ShutdownFn in c.queue || c.shut || c.writing
  }

  ghost predicate Fresh(c: Conn) {
    c.state == Connecting ==> c.out == [] && !c.writing && !c.shut && c.queue == [] && c.inSend == map[] && !c.inShutdown
  }

  ghost predicate Inv(c: Conn) {
    && Conserved(c) && WriteInterest(c) && ShutWhenDrained(c)
    && ShutdownJustified(c) && ShutdownRemembered(c) && Fresh(c)
  }

  lemma KeptSnoc(log: seq<Entry>, e: Entry)
    ensures Kept(log + [e]) == Kept(log) + if e.kept then e.data else []
  {
    assert (log + [e])[..|log|] == log;
  }

  /** Whether the payload of a step of `SendInLoop` enters the stream. */
  predicate Accepts(c: Conn, w: WriteResult) {
    c.state != Disconnected && !(Direct(c) && w.PeerGone?)
  }

  /** A payload enters the stream whole or not at all, and it stays out exactly when the connection
      is gone or a direct write reports the peer gone. */
  lemma PayloadWholeOrAbsent(c: Conn, data: seq<byte>, w: WriteResult)
    requires Direct(c) ==> Possible(c, |data|, w)
    ensures var c' := SendInLoop(c, data, w);
            && c'.log == c.log + [Entry(data, Accepts(c, w))]
            && c'.sent + c'.out == if Accepts(c, w) then c.sent + c.out + data else c.sent + c.out
  {
    var nwrote := if Direct(c) && w.Wrote? then w.n else 0;
    if Accepts(c, w) {
      Splice(c.sent, c.out, data, nwrote);
    } else if c.state != Disconnected {
      assert data[..0] == [];
    }
  }

  /** Writing a prefix directly and buffering the rest is writing behind what is buffered, because
      one of the two is empty. */
  lemma Splice(sent: seq<byte>, out: seq<byte>, data: seq<byte>, n: nat)
    requires n <= |data| && (n == 0 || out == [])
    ensures (sent + data[..n]) + (out + data[n..]) == sent + out + data
    ensures n == |data| ==> data[..n] == data && (sent + data) + out == sent + out + data
  {
    assert data[..n] + data[n..] == data;
  }

  lemma SendConserves(c: Conn, data: seq<byte>, w: WriteResult)
    requires Conserved(c) && (Direct(c) ==> Possible(c, |data|, w))
    ensures Conserved(SendInLoop(c, data, w))
  {
    PayloadWholeOrAbsent(c, data, w);
    KeptSnoc(c.log, Entry(data, Accepts(c, w)));
  }

  /** Sending leaves the life cycle alone and asks for no shutdown. */
  lemma SendKeepsLifeCycle(c: Conn, data: seq<byte>, w: WriteResult)
    requires Direct(c) ==> Possible(c, |data|, w)
    ensures var c' := SendInLoop(c, data, w);
            && c'.state == c.state && c'.shut == c.shut && c'.inShutdown == c.inShutdown && c'.inSend == c.inSend
            && (ShutdownFn in c'.queue <==> ShutdownFn in c.queue)
  {
  }

  lemma SendKeepsInterest(c: Conn, data: seq<byte>, w: WriteResult)
    requires WriteInterest(c) && ShutWhenDrained(c)
    requires Direct(c) ==> Possible(c, |data|, w)
    ensures var c' := SendInLoop(c, data, w);
            WriteInterest(c') && ShutWhenDrained(c') && (c.writing ==> c'.writing)
  {
    SendKeepsLifeCycle(c, data, w);
    if c.state != Disconnected {
      var (c1, nwrote, fault) := TryWrite(c, data, w);
      assert nwrote < |data| ==> data[nwrote..] != [];
    }
  }

  lemma WriteKeepsInv(c: Conn, w: WriteResult)
    requires Inv(c) && (c.writing ==> Possible(c, |c.out|, w))
    ensures Inv(HandleWrite(c, w))
  {
    if c.writing && w.Wrote? {
      assert c.out == c.out[..w.n] + c.out[w.n..];
      assert c.sent + c.out == (c.sent + c.out[..w.n]) + c.out[w.n..];
    }
  }

  lemma QueuedKeepsInv(c: Conn, w: WriteResult)
    requires Inv(c) && Enabled(c, RunQueued(w))
    ensures Inv(Step(c, RunQueued(w)))
  {
    var f, c1 := c.queue[0], c.(queue := c.queue[1..]);
    assert c.queue == [f] + c1.queue;
    if f.SendFn? {
      SendConserves(c1, f.data, w);
      SendKeepsInterest(c1, f.data, w);
      SendKeepsLifeCycle(c1, f.data, w);
    }
  }

  lemma StepKeepsInv(c: Conn, a: Action)
    requires Inv(c) && Enabled(c, a)
    ensures Inv(Step(c, a))
  {
    match a
    case SendHere(data, w) =>
      if c.state == Connected {
        SendConserves(c, data, w);
        SendKeepsInterest(c, data, w);
        SendKeepsLifeCycle(c, data, w);
      }
    case RunQueued(w) => QueuedKeepsInv(c, w);
    case Writable(w) => WriteKeepsInv(c, w);
    case _ =>
  }

  /** The invariant holds throughout every run, over all interleavings. */
  lemma {:induction false} RunsKeepInv(cs: seq<Conn>, acts: seq<Action>, i: nat)
    requires IsRun(cs, acts) && i <= |acts|
    ensures Inv(cs[i]) && Kept(cs[i].log) == cs[i].sent + cs[i].out
    ensures cs[i].state != Disconnected ==> (cs[i].writing <==> cs[i].out != [])
  {
    if i != 0 {
      RunsKeepInv(cs, acts, i - 1);
      assert MovesAt(cs, acts, i - 1);
      StepKeepsInv(cs[i - 1], acts[i - 1]);
    }
  }

  // ---------- what the invariant buys ----------

  /** The state only moves forward, the accepted bytes only grow at the end, and they do not grow at
      all once the write half is shut. */
  ghost predicate Forward(c: Conn, c': Conn) {
    && c.state.Rank() <= c'.state.Rank()
    && c.sent <= c'.sent
    && (c.shut ==> c'.shut && c'.sent == c.sent)
  }

  lemma WriteMovesForward(c: Conn, w: WriteResult)
    requires Inv(c) && (c.writing ==> Possible(c, |c.out|, w))
    ensures Forward(c, HandleWrite(c, w))
  {
  }

  lemma TryMovesForward(c: Conn, data: seq<byte>, w: WriteResult, c': Conn)
    requires (Direct(c) ==> Possible(c, |data|, w)) && c' == TryWrite(c, data, w).0
    ensures Forward(c, c') && c'.state == c.state && c'.shut == c.shut
  {
    if Direct(c) && w.Wrote? && c.shut { assert data[..w.n] == []; }
  }

  lemma SendMovesForward(c: Conn, data: seq<byte>, w: WriteResult)
    requires Direct(c) ==> Possible(c, |data|, w)
    ensures Forward(c, SendInLoop(c, data, w))
  {
    TryMovesForward(c, data, w, TryWrite(c, data, w).0);
  }

  lemma StepMovesForward(c: Conn, a: Action)
    requires Inv(c) && Enabled(c, a)
    ensures Forward(c, Step(c, a))
  {
    match a
    case SendHere(data, w) => SendMovesForward(c, data, w);
    case RunQueued(w) =>
      var c1 := c.(queue := c.queue[1..]);
      if c.queue[0].SendFn? { SendMovesForward(c1, c.queue[0].data, w); }
    case Writable(w) => WriteMovesForward(c, w);
    case _ =>
  }

  lemma RunStepMovesForward(cs: seq<Conn>, acts: seq<Action>, k: nat)
    requires IsRun(cs, acts) && k < |acts|
    ensures Forward(cs[k], cs[k + 1])
  {
    RunsKeepInv(cs, acts, k);
    assert MovesAt(cs, acts, k);
    StepMovesForward(cs[k], acts[k]);
  }

  lemma ForwardTrans(c: Conn, d: Conn, e: Conn)
    requires Forward(c, d) && Forward(d, e)
    ensures Forward(c, e)
  {
  }

  lemma {:induction false} RunsMoveForward(cs: seq<Conn>, acts: seq<Action>, i: nat, j: nat)
    requires IsRun(cs, acts) && i <= j <= |acts|
    ensures Forward(cs[i], cs[j])
  {
    if i < j {
      RunsMoveForward(cs, acts, i, j - 1);
      RunStepMovesForward(cs, acts, j - 1);
      ForwardTrans(cs[i], cs[j - 1], cs[j]);
    }
  }

  /** In every run the write half of a live connection is shut only in `Disconnecting` and only when
      the socket has accepted every byte of every kept payload. */
  lemma ShutdownIsGraceful(cs: seq<Conn>, acts: seq<Action>, i: nat)
    requires IsRun(cs, acts) && i <= |acts| && cs[i].shut && cs[i].state != Disconnected
    ensures cs[i].state == Disconnecting && cs[i].sent == Kept(cs[i].log) && cs[i].out == []
  {
    RunsKeepInv(cs, acts, i);
    assert cs[i].sent + [] == cs[i].sent;
  }

  /** While the peer is alive (write reports it gone only because our own half is shut), a queued
      non-empty `Send` is kept exactly when the connection is still there and its write half has
      not been shut down before the payload's turn. */
  lemma QueuedSendKeptIff(c: Conn, w: WriteResult)
    requires Inv(c) && Enabled(c, RunQueued(w)) && c.queue[0].SendFn? && c.queue[0].data != []
    requires w.PeerGone? ==> c.shut
    ensures Step(c, RunQueued(w)).log == c.log + [Entry(c.queue[0].data, c.state != Disconnected && !c.shut)]
  {
  }

  /** The connection is gone or its write half is shut down. */
  predicate Ended(c: Conn) { c.state == Disconnected || c.shut }

  /** The steps that shut the write half down: a shutdown that finds nothing armed, and a write that
      drains the buffer of a disconnecting connection. */
  predicate Shuts(c: Conn, a: Action) {
    match a
    case ShutdownHere => c.state == Connected && !c.writing
    case RunQueued(w) => c.queue != [] && c.queue[0].ShutdownFn? && !c.writing
    case Writable(w) => c.writing && w == Wrote(|c.out|) && c.state == Disconnecting
    case _ => false
  }

  /** The steps that end the outgoing stream: these, a close, and a destruction while connected. */
  predicate Ends(c: Conn, a: Action) { Shuts(c, a) || a.Close? || (a.Destroy? && c.state == Connected) }

  /** Where a step takes the life cycle. */
  function NextState(s: State, a: Action): State {
    if a.Establish? then Connected
    else if a.Close? || (a.Destroy? && s == Connected) then Disconnected
    else if (a.ShutdownHere? || a.ShutdownSet?) && s == Connected then Disconnecting
    else s
  }

  lemma HereLifeCycle(c: Conn, data: seq<byte>, w: WriteResult, c': Conn)
    requires Moves(c, SendHere(data, w), c')
    ensures c'.state == c.state && c'.shut == c.shut
  {
    if c.state == Connected { SendKeepsLifeCycle(c, data, w); }
  }

  lemma RunLifeCycle(c: Conn, w: WriteResult, c': Conn)
    requires Moves(c, RunQueued(w), c')
    ensures c'.state == c.state && (c'.shut <==> c.shut || Shuts(c, RunQueued(w)))
  {
    if c.queue[0].SendFn? { SendKeepsLifeCycle(c.(queue := c.queue[1..]), c.queue[0].data, w); }
  }

  lemma WriteLifeCycle(c: Conn, w: WriteResult, c': Conn)
    requires Moves(c, Writable(w), c')
    ensures c'.state == c.state && (c'.shut <==> c.shut || Shuts(c, Writable(w)))
  {
    if c.writing && w.Wrote? { Rest(c.out, w.n); }
  }

  /** The state changes by these steps and no others, and the write half is shut down by those. */
  lemma StepLifeCycle(c: Conn, a: Action, c': Conn)
    requires Moves(c, a, c')
    ensures c'.state == NextState(c.state, a) && (c'.shut <==> c.shut || Shuts(c, a))
  {
    match a
    case SendHere(data, w) => HereLifeCycle(c, data, w, c');
    case RunQueued(w) => RunLifeCycle(c, w, c');
    case Writable(w) => WriteLifeCycle(c, w, c');
    case _ =>
  }

  ghost predicate NothingEnds(cs: seq<Conn>, acts: seq<Action>, j: nat)
    requires j <= |acts| <= |cs|
  {
    forall k :: 0 <= k < j ==> !Ends(cs[k], acts[k])
  }

  lemma {:induction false} EndedIff(cs: seq<Conn>, acts: seq<Action>, j: nat)
    requires IsRun(cs, acts) && j <= |acts|
    ensures Ended(cs[j]) <==> !NothingEnds(cs, acts, j)
  {
    if j != 0 {
      EndedIff(cs, acts, j - 1);
      assert MovesAt(cs, acts, j - 1);
      StepLifeCycle(cs[j - 1], acts[j - 1], cs[j]);
    }
  }

  /** How many functors the loop runs from step `i` up to step `j`. */
  function Ran(acts: seq<Action>, i: nat, j: nat): (n: nat)
    requires i <= j <= |acts|
    decreases j
  {
    if i == j then 0 else Ran(acts, i, j - 1) + if acts[j - 1].RunQueued? then 1 else 0
  }

  /** The queue loses its front to `RunQueued` only, and gains at the back only. */
  lemma QueueMoves(c: Conn, a: Action)
    requires Enabled(c, a)
    ensures if a.RunQueued? then c.queue[1..] <= Step(c, a).queue else c.queue <= Step(c, a).queue
  {
    QueueGains(c, a, Step(c, a));
  }

  lemma PositionMoves(c: Conn, a: Action, c': Conn, q: nat)
    requires Moves(c, a, c') && q < |c.queue| && (a.RunQueued? ==> 0 < q)
    ensures var q' := if a.RunQueued? then q - 1 else q;
            q' < |c'.queue| && c'.queue[q'] == c.queue[q]
  {
    QueueMoves(c, a);
    assert 0 < q ==> c.queue[1..][q - 1] == c.queue[q];
  }

  /** What is queued at position `p` in step `i` moves up by one with every functor that is run. */
  lemma {:induction false} QueueIsFifo(cs: seq<Conn>, acts: seq<Action>, i: nat, j: nat, p: nat)
    requires IsRun(cs, acts) && i <= j <= |acts| && p < |cs[i].queue| && Ran(acts, i, j) <= p
    ensures p - Ran(acts, i, j) < |cs[j].queue| && cs[j].queue[p - Ran(acts, i, j)] == cs[i].queue[p]
  {
    if i < j {
      QueueIsFifo(cs, acts, i, j - 1, p);
      assert MovesAt(cs, acts, j - 1);
      PositionMoves(cs[j - 1], acts[j - 1], cs[j], p - Ran(acts, i, j - 1));
    }
  }

  /** A non-empty payload that another thread enqueues at step `i` gets its turn at step `j`, when all
      that was queued before it has run. While the peer is alive it is then kept if and only if no step
      before its turn has ended the stream. */
  lemma PostedSendKeptIff(cs: seq<Conn>, acts: seq<Action>, i: nat, j: nat)
    requires IsRun(cs, acts) && i < j < |acts|
    requires acts[i].SendPost? && acts[i].thread in cs[i].inSend && cs[i].inSend[acts[i].thread] != []
    requires acts[j].RunQueued? && Ran(acts, i + 1, j) == |cs[i].queue|
    requires acts[j].w.PeerGone? ==> cs[j].shut
    ensures cs[j + 1].log == cs[j].log + [Entry(cs[i].inSend[acts[i].thread], NothingEnds(cs, acts, j))]
  {
    assert MovesAt(cs, acts, i) && MovesAt(cs, acts, j);
    QueueIsFifo(cs, acts, i + 1, j, |cs[i].queue|);
    RunsKeepInv(cs, acts, j);
    QueuedSendKeptIff(cs[j], acts[j].w);
    EndedIff(cs, acts, j);
  }

  // ---------- what the socket accepted ----------

  /** The call of write(2) a step makes, if any: what is offered, and the outcome. */
  datatype Write = NoWrite | Write(offered: seq<byte>, w: WriteResult)

  function WriteOf(c: Conn, a: Action): Write {
    match a
    case SendHere(data, w) => if c.state == Connected && Direct(c) then Write(data, w) else NoWrite
    case RunQueued(w) =>
      if c.queue != [] && c.queue[0].SendFn? && c.state != Disconnected && Direct(c) then Write(c.queue[0].data, w)
      else NoWrite
    case Writable(w) => if c.writing then Write(c.out, w) else NoWrite
    case _ => NoWrite
  }

  /** The bytes the socket takes in a step: the first `n` of those offered when write returns `n`. */
  function Taken(c: Conn, a: Action): seq<byte>
    requires Enabled(c, a)
  {
    match WriteOf(c, a)
    case Write(offered, Wrote(n)) => offered[..n]
    case _ => []
  }

  /** A direct write takes exactly what write returned, and only the rest is buffered; nothing is
      written directly behind buffered data. */
  lemma SendCountsExactly(c: Conn, data: seq<byte>, w: WriteResult)
    requires Direct(c) ==> Possible(c, |data|, w)
    ensures var c' := SendInLoop(c, data, w);
            if c.state != Disconnected && Direct(c) && w.Wrote? then
              c'.sent == c.sent + data[..w.n] && c'.out == data[w.n..]
            else
              c'.sent == c.sent
  {
  }

  lemma StepTakes(c: Conn, a: Action)
    requires Enabled(c, a)
    ensures Step(c, a).sent == c.sent + Taken(c, a)
  {
    match a
    case SendHere(data, w) => if c.state == Connected { SendCountsExactly(c, data, w); }
    case RunQueued(w) =>
      if c.queue[0].SendFn? { SendCountsExactly(c.(queue := c.queue[1..]), c.queue[0].data, w); }
    case _ =>
  }

  function Accepted(cs: seq<Conn>, acts: seq<Action>, j: nat): seq<byte>
    requires IsRun(cs, acts) && j <= |acts|
  {
    if j == 0 then []
    else
      assert MovesAt(cs, acts, j - 1);
      Accepted(cs, acts, j - 1) + Taken(cs[j - 1], acts[j - 1])
  }

  /** In every run `sent` is what the socket took, write by write. */
  lemma {:induction false} SentIsAccepted(cs: seq<Conn>, acts: seq<Action>, j: nat)
    requires IsRun(cs, acts) && j <= |acts|
    ensures cs[j].sent == Accepted(cs, acts, j)
  {
    if j != 0 {
      SentIsAccepted(cs, acts, j - 1);
      assert MovesAt(cs, acts, j - 1);
      StepTakes(cs[j - 1], acts[j - 1]);
    }
  }

  // ---------- what is enqueued ----------

  /** A write takes all that it was offered. */
  predicate Completes(c: Conn, a: Action) {
    match WriteOf(c, a)
    case Write(offered, w) => w == Wrote(|offered|)
    case NoWrite => false
  }

  /** What a step from `c` to `c'` enqueues: what another thread posts, the write-complete callback when
      a write takes all that is left, and the high-water callback when the buffer crosses its mark. */
  function Enqueued(c: Conn, a: Action, c': Conn): seq<Functor> {
    if a.SendPost? then (if a.thread in c.inSend then [SendFn(c.inSend[a.thread])] else [])
    else if a.ShutdownPost? then [ShutdownFn]
    else if c.cfg.writeComplete && Completes(c, a) then [WriteCompleteFn]
    else if c.cfg.highWater && |c.out| < c.cfg.mark <= |c'.out| then [HighWaterFn(|c'.out|)]
    else []
  }

  lemma SendEnqueues(c: Conn, data: seq<byte>, w: WriteResult)
    requires Direct(c) ==> Possible(c, |data|, w)
    ensures var c' := SendInLoop(c, data, w);
            c'.queue == c.queue +
              if c.state != Disconnected && Direct(c) && w == Wrote(|data|) then
                (if c.cfg.writeComplete then [WriteCompleteFn] else [])
              else if c.cfg.highWater && |c.out| < c.cfg.mark <= |c'.out| then [HighWaterFn(|c'.out|)] else []
  {
  }

  lemma WriteEnqueues(c: Conn, w: WriteResult)
    requires c.writing ==> Possible(c, |c.out|, w)
    ensures |HandleWrite(c, w).out| <= |c.out|
    ensures HandleWrite(c, w).queue ==
            if c.writing && w == Wrote(|c.out|) && c.cfg.writeComplete then c.queue + [WriteCompleteFn] else c.queue
  {
    if c.writing && w.Wrote? {
      Rest(c.out, w.n);
      DrainedQueue(TakeWritten(c, w.n));
    }
  }

  lemma Rest(out: seq<byte>, n: nat)
    requires n <= |out|
    ensures |out[n..]| == |out| - n && (out[n..] == [] <==> n == |out|)
  {
  }

  lemma DrainedQueue(c: Conn)
    ensures Drained(c).queue == if c.cfg.writeComplete then c.queue + [WriteCompleteFn] else c.queue
    ensures Drained(c).out == c.out && Drained(c).log == c.log && Drained(c).sent == c.sent
  {
  }

  lemma RunGains(c: Conn, w: WriteResult, c': Conn)
    requires Moves(c, RunQueued(w), c')
    ensures c'.queue == c.queue[1..] + Enqueued(c, RunQueued(w), c')
  {
    if c.queue[0].SendFn? { SendEnqueues(c.(queue := c.queue[1..]), c.queue[0].data, w); }
  }

  lemma HereGains(c: Conn, data: seq<byte>, w: WriteResult, c': Conn)
    requires Moves(c, SendHere(data, w), c')
    ensures c'.queue == c.queue + Enqueued(c, SendHere(data, w), c')
  {
    if c.state == Connected { SendEnqueues(c, data, w); }
  }

  lemma WritableGains(c: Conn, w: WriteResult, c': Conn)
    requires Moves(c, Writable(w), c')
    ensures c'.queue == c.queue + Enqueued(c, Writable(w), c')
  {
    WriteEnqueues(c, w);
  }

  /** The queue loses its front to `RunQueued`, and gains exactly these. */
  lemma QueueGains(c: Conn, a: Action, c': Conn)
    requires Moves(c, a, c')
    ensures c'.queue == (if a.RunQueued? then c.queue[1..] else c.queue) + Enqueued(c, a, c')
  {
    match a
    case SendHere(data, w) => HereGains(c, data, w, c');
    case RunQueued(w) => RunGains(c, w, c');
    case Writable(w) => WritableGains(c, w, c');
    case _ =>
  }

  // ---------- what enters the log ----------

  /** What another thread's `Send` finds connected is what it later posts. */
  lemma {:induction false} CheckedSendIsHeld(cs: seq<Conn>, acts: seq<Action>, i: nat, j: nat)
    requires IsRun(cs, acts) && i < j <= |acts| && acts[i].SendCheck? && cs[i].state == Connected
    requires forall k :: i < k < j ==> acts[k] != SendPost(acts[i].thread)
    ensures acts[i].thread in cs[j].inSend && cs[j].inSend[acts[i].thread] == acts[i].data
  {
    assert MovesAt(cs, acts, j - 1);
    if i + 1 < j {
      CheckedSendIsHeld(cs, acts, i, j - 1);
      StepInSend(cs[j - 1], acts[j - 1], cs[j]);
    }
  }

  lemma HereKeepsInSend(c: Conn, data: seq<byte>, w: WriteResult, c': Conn)
    requires Moves(c, SendHere(data, w), c')
    ensures c'.inSend == c.inSend
  {
    if c.state == Connected { SendKeepsLifeCycle(c, data, w); }
  }

  lemma RunKeepsInSend(c: Conn, w: WriteResult, c': Conn)
    requires Moves(c, RunQueued(w), c')
    ensures c'.inSend == c.inSend
  {
    if c.queue[0].SendFn? { SendKeepsLifeCycle(c.(queue := c.queue[1..]), c.queue[0].data, w); }
  }

  /** The payloads held by other threads change only by their own checks and posts. */
  lemma StepInSend(c: Conn, a: Action, c': Conn)
    requires Moves(c, a, c')
    ensures c'.inSend ==
            if a.SendCheck? && c.state == Connected then c.inSend[a.thread := a.data]
            else if a.SendPost? then c.inSend - {a.thread}
            else c.inSend
  {
    match a
    case SendHere(data, w) => HereKeepsInSend(c, data, w, c');
    case RunQueued(w) => RunKeepsInSend(c, w, c');
    case _ =>
  }

  /** How often payload `x` is in a log, and how often it waits in a queue. */
  function Logged(log: seq<Entry>, x: seq<byte>): nat {
    if log == [] then 0 else Logged(log[..|log| - 1], x) + One(log[|log| - 1].data == x)
  }

  function Waiting(q: seq<Functor>, x: seq<byte>): nat {
    if q == [] then 0 else Waiting(q[..|q| - 1], x) + One(q[|q| - 1] == SendFn(x))
  }

  function One(b: bool): nat { if b then 1 else 0 }

  lemma LoggedSnoc(log: seq<Entry>, e: Entry, x: seq<byte>)
    ensures Logged(log + [e], x) == Logged(log, x) + One(e.data == x)
  {
    assert (log + [e])[..|log|] == log;
  }

  lemma WaitingSnoc(q: seq<Functor>, f: Functor, x: seq<byte>)
    ensures Waiting(q + [f], x) == Waiting(q, x) + One(f == SendFn(x))
  {
    assert (q + [f])[..|q|] == q;
  }

  lemma {:induction false} WaitingFirst(q: seq<Functor>, x: seq<byte>)
    requires q != []
    ensures Waiting(q, x) == One(q[0] == SendFn(x)) + Waiting(q[1..], x)
  {
    if |q| > 1 {
      WaitingFirst(q[..|q| - 1], x);
      assert q[..|q| - 1][1..] == q[1..][..|q| - 2];
    }
  }

  /** What another thread's `Send` posts, and what the loop thread's own `Send` logs at once: the latter
      only when connected. */
  function PostedBy(c: Conn, a: Action, x: seq<byte>): nat {
    One(a.SendPost? && a.thread in c.inSend && c.inSend[a.thread] == x)
  }

  function SentBy(c: Conn, a: Action, x: seq<byte>): nat {
    One(a.SendHere? && c.state == Connected && a.data == x)
  }

  /** What the loop takes from the front of the queue. */
  function RunBy(c: Conn, a: Action, x: seq<byte>): nat {
    One(a.RunQueued? && c.queue != [] && c.queue[0] == SendFn(x))
  }

  lemma SendLogs(c: Conn, data: seq<byte>, w: WriteResult, x: seq<byte>)
    requires Direct(c) ==> Possible(c, |data|, w)
    ensures Logged(SendInLoop(c, data, w).log, x) == Logged(c.log, x) + One(data == x)
    ensures Waiting(SendInLoop(c, data, w).queue, x) == Waiting(c.queue, x)
  {
    PayloadWholeOrAbsent(c, data, w);
    LoggedSnoc(c.log, Entry(data, Accepts(c, w)), x);
    SendEnqueues(c, data, w);
    WaitingSnoc(c.queue, WriteCompleteFn, x);
    WaitingSnoc(c.queue, HighWaterFn(|SendInLoop(c, data, w).out|), x);
  }

  /** The log gains what the loop takes from the queue and what is sent on the loop thread, and nothing
      else... */
  lemma LogFlows(c: Conn, a: Action, c': Conn, x: seq<byte>)
    requires Moves(c, a, c')
    ensures Logged(c'.log, x) == Logged(c.log, x) + RunBy(c, a, x) + SentBy(c, a, x)
  {
    match a
    case SendHere(data, w) => HereFlows(c, data, w, c', x);
    case RunQueued(w) => RunFlows(c, w, c', x);
    case _ => assert c'.log == c.log;
  }

  /** ... and the queue gains what is posted. */
  lemma QueueFlows(c: Conn, a: Action, c': Conn, x: seq<byte>)
    requires Moves(c, a, c')
    ensures Waiting(c'.queue, x) + RunBy(c, a, x) == Waiting(c.queue, x) + PostedBy(c, a, x)
  {
    match a
    case SendHere(data, w) => HereFlows(c, data, w, c', x);
    case SendPost(t) => PostFlows(c, t, c', x);
    case ShutdownPost => WaitingSnoc(c.queue, ShutdownFn, x);
    case RunQueued(w) => RunFlows(c, w, c', x);
    case Writable(w) => WriteFlows(c, w, x);
    case _ => assert c'.queue == c.queue;
  }

  lemma PostFlows(c: Conn, t: int, c': Conn, x: seq<byte>)
    requires Moves(c, SendPost(t), c')
    ensures Waiting(c'.queue, x) == Waiting(c.queue, x) + One(c.inSend[t] == x)
  {
    WaitingSnoc(c.queue, SendFn(c.inSend[t]), x);
  }

  lemma WriteFlows(c: Conn, w: WriteResult, x: seq<byte>)
    requires c.writing ==> Possible(c, |c.out|, w)
    ensures HandleWrite(c, w).log == c.log && Waiting(HandleWrite(c, w).queue, x) == Waiting(c.queue, x)
  {
    WriteEnqueues(c, w);
    WaitingSnoc(c.queue, WriteCompleteFn, x);
  }

  lemma HereFlows(c: Conn, data: seq<byte>, w: WriteResult, c': Conn, x: seq<byte>)
    requires Moves(c, SendHere(data, w), c')
    ensures Logged(c'.log, x) == Logged(c.log, x) + One(c.state == Connected && data == x)
    ensures Waiting(c'.queue, x) == Waiting(c.queue, x)
  {
    if c.state == Connected { SendLogs(c, data, w, x); }
  }

  lemma RunFlows(c: Conn, w: WriteResult, c': Conn, x: seq<byte>)
    requires Moves(c, RunQueued(w), c')
    ensures Logged(c'.log, x) == Logged(c.log, x) + One(c.queue[0] == SendFn(x))
    ensures Waiting(c'.queue, x) + One(c.queue[0] == SendFn(x)) == Waiting(c.queue, x)
  {
    WaitingFirst(c.queue, x);
    if c.queue[0].SendFn? { SendLogs(c.(queue := c.queue[1..]), c.queue[0].data, w, x); }
  }

  /** How often payload `x` is given to the loop before step `j`. */
  function Given(cs: seq<Conn>, acts: seq<Action>, j: nat, x: seq<byte>): nat
    requires j <= |acts| <= |cs|
  {
    if j == 0 then 0
    else Given(cs, acts, j - 1, x) + PostedBy(cs[j - 1], acts[j - 1], x) + SentBy(cs[j - 1], acts[j - 1], x)
  }

  /** In every run each payload given to the loop is either waiting or was logged, and as often as it was
      given. */
  lemma {:induction false} EachPayloadOnce(cs: seq<Conn>, acts: seq<Action>, j: nat, x: seq<byte>)
    requires IsRun(cs, acts) && j <= |acts|
    ensures Logged(cs[j].log, x) + Waiting(cs[j].queue, x) == Given(cs, acts, j, x)
  {
    if j != 0 {
      EachPayloadOnce(cs, acts, j - 1, x);
      assert MovesAt(cs, acts, j - 1);
      LogFlows(cs[j - 1], acts[j - 1], cs[j], x);
      QueueFlows(cs[j - 1], acts[j - 1], cs[j], x);
    }
  }

  /** Once the connection has left `Connected` for good, no `Send` gives the loop anything whose check
      comes later: the loop thread's own does nothing, and another thread posts only what it held. */
  lemma {:induction false} LateSendsAreIgnored(cs: seq<Conn>, acts: seq<Action>, i: nat, j: nat)
    requires IsRun(cs, acts) && i <= j <= |acts| && cs[i].state.Rank() >= 2
    ensures forall t :: t in cs[j].inSend ==> t in cs[i].inSend && cs[j].inSend[t] == cs[i].inSend[t]
    ensures j < |acts| ==> forall x :: SentBy(cs[j], acts[j], x) == 0
    ensures j < |acts| && acts[j].SendHere? ==> cs[j + 1] == cs[j]
  {
    RunsMoveForward(cs, acts, i, j);
    if j < |acts| {
      assert MovesAt(cs, acts, j);
      LateStep(cs[j], acts[j], cs[j + 1]);
    }
    if i < j {
      LateSendsAreIgnored(cs, acts, i, j - 1);
      RunsMoveForward(cs, acts, i, j - 1);
      assert MovesAt(cs, acts, j - 1);
      LateStep(cs[j - 1], acts[j - 1], cs[j]);
    }
  }

  lemma LateStep(c: Conn, a: Action, c': Conn)
    requires Moves(c, a, c') && c.state.Rank() >= 2
    ensures (forall x :: SentBy(c, a, x) == 0) && (a.SendHere? ==> c' == c)
    ensures forall t :: t in c'.inSend ==> t in c.inSend && c'.inSend[t] == c.inSend[t]
  {
    StepInSend(c, a, c');
  }

  /** A `Send` on the loop thread of a connected connection is kept while the peer is alive. */
  lemma SendHereKept(c: Conn, data: seq<byte>, w: WriteResult)
    requires Inv(c) && Enabled(c, SendHere(data, w)) && c.state == Connected
    requires w.PeerGone? ==> c.shut
    ensures Step(c, SendHere(data, w)).log == c.log + [Entry(data, true)]
  {
  }

  lemma RefusedOnceShut(c: Conn, data: seq<byte>, w: WriteResult)
    requires c.shut && Direct(c) && c.state != Disconnected && data != []
    requires Enabled(c, RunQueued(w)) && c.queue[0] == SendFn(data)
    ensures Step(c, RunQueued(w)).log == c.log + [Entry(data, false)]
  {
  }

  lemma PostSend(c: Conn, t: int, data: seq<byte>) returns (c1: Conn, c2: Conn)
    requires c.state == Connected && t !in c.inSend
    ensures Moves(c, SendCheck(t, data), c1) && Moves(c1, SendPost(t), c2)
    ensures c2 == c.(queue := c.queue + [SendFn(data)])
  {
    c1 := Step(c, SendCheck(t, data));
    c2 := Step(c1, SendPost(t));
    assert c1.inSend - {t} == c.inSend;
  }

  lemma PostShutdown(c: Conn) returns (c1: Conn, c2: Conn)
    requires c.state == Connected && !c.inShutdown
    ensures Moves(c, ShutdownSet, c1) && Moves(c1, ShutdownPost, c2)
    ensures c2 == c.(state := Disconnecting, queue := c.queue + [ShutdownFn])
  {
    c1 := Step(c, ShutdownSet);
    c2 := Step(c1, ShutdownPost);
  }

  /** The write that drains the buffer of a disconnecting connection shuts it down, whatever is queued. */
  lemma DrainShuts(c: Conn, c': Conn)
    requires c.state == Disconnecting && c.writing && c.out != [] && !c.shut
    requires c' == Step(c, Writable(Wrote(|c.out|)))
    ensures c'.shut && Direct(c') && c'.state == Disconnecting && c'.log == c.log && c.queue <= c'.queue
  {
  }

  /** A `Send` can be overtaken by the end of the stream, even when it was enqueued before the
      `Shutdown` of the same thread: from any connected state with unsent data and an idle loop, the
      buffer can drain first, which shuts the write half down, and the payload can then only be
      refused. */
  lemma SendCanBeOvertaken(c: Conn, t: int, data: seq<byte>)
      returns (c1: Conn, c2: Conn, c3: Conn, c4: Conn, c5: Conn)
    requires Inv(c) && c.state == Connected && c.writing && c.queue == [] && t !in c.inSend && data != []
    ensures Moves(c, SendCheck(t, data), c1) && Moves(c1, SendPost(t), c2)
    ensures Moves(c2, ShutdownSet, c3) && Moves(c3, ShutdownPost, c4)
    ensures Moves(c4, Writable(Wrote(|c.out|)), c5) && c5.shut
    ensures forall w :: Enabled(c5, RunQueued(w)) ==> Step(c5, RunQueued(w)).log == c.log + [Entry(data, false)]
  {
    c1, c2 := PostSend(c, t, data);
    c3, c4 := PostShutdown(c2);
    c5 := Step(c4, Writable(Wrote(|c.out|)));
    DrainShuts(c4, c5);
    assert c4.queue == [SendFn(data)] + [ShutdownFn];
    forall w | Enabled(c5, RunQueued(w)) ensures Step(c5, RunQueued(w)).log == c.log + [Entry(data, false)] {
      RefusedOnceShut(c5, data, w);
    }
  }

  /** Such a state is reachable whatever the configuration. */
  lemma UnsentDataIsReachable(cfg: Config) returns (cs: seq<Conn>, acts: seq<Action>)
    ensures IsRun(cs, acts) && cs[0] == Initial(cfg)
    ensures var c := cs[|acts|]; c.state == Connected && c.writing && c.queue == [] && c.inSend == map[]
  {
    var c0 := Initial(cfg);
    var c1 := Step(c0, Establish);
    var send := SendHere([1, 2], Wrote(1));
    var c2 := Step(c1, send);
    assert [1, 2][1..] == [2] && c2.out == [2];
    if c2.queue == [] {
      cs, acts := [c0, c1, c2], [Establish, send];
    } else {
      // the high-water callback is queued, and is run first
      var run := RunQueued(WouldBlock);
      assert c2.queue == [HighWaterFn(1)];
      cs, acts := [c0, c1, c2, Step(c2, run)], [Establish, send, run];
    }
    assert forall i :: 0 <= i < |acts| ==> MovesAt(cs, acts, i);
  }
}
