/** TcpConnection.cpp: the connection object over its two buffers. Each method is tied to one step of
    the state machine of module Connection, so the theorems about its runs are about these methods.
    The socket's write half, the loop's queue and the pending calls of other threads are fields. */
module TcpConnections {
  import opened Buffers
  import opened Connection

  class TcpConnection {
    const cfg: Config
    const inputBuffer: Buffer
    const outputBuffer: Buffer
    var state: State
    var reading: bool
    var writing: bool
    var writeShut: bool
    var queue: seq<Functor>
    var inSend: map<int, seq<byte>>
    var inShutdown: bool

    ghost var sent: seq<byte>
    ghost var log: seq<Entry>

    ghost predicate Valid()
      reads this, inputBuffer, outputBuffer
    {
      && inputBuffer.Valid() && outputBuffer.Valid()
      && inputBuffer != outputBuffer && inputBuffer.data != outputBuffer.data
      && (reading <==> state == Connected || state == Disconnecting)
    }

    /** The state of the machine this object is in. */
    ghost function View(): Conn
      requires Valid()
      reads this, inputBuffer, outputBuffer, outputBuffer.data
    {
      Conn(cfg, state, outputBuffer.Contents(), writing, writeShut, sent, log, queue, inSend, inShutdown)
    }

    constructor (cfg: Config)
      ensures Valid() && fresh(inputBuffer) && fresh(outputBuffer)
      ensures fresh(inputBuffer.data) && fresh(outputBuffer.data)
      ensures View() == Initial(cfg) && inputBuffer.Contents() == []
    {
      this.cfg := cfg;
      inputBuffer := new Buffer(1024);
      outputBuffer := new Buffer(1024);
      state, reading, writing, writeShut := Connecting, false, false, false;
      queue, inSend, inShutdown := [], map[], false;
      sent, log := [], [];
    }

    method StepIntoEstablished()
      requires Valid() && Enabled(View(), Establish)
      modifies this`state, this`reading
      ensures Valid() && View() == Step(old(View()), Establish)
    {
      state := Connected;
      reading := true;
    }

    /** The first block of `SendInLoop`: if nothing is queued, try writing directly. */
    method TryWrite(data: seq<byte>, w: WriteResult) returns (nwrote: nat, fault: bool)
      requires Valid() && (Direct(View()) ==> Possible(View(), |data|, w))
      modifies this`queue, this`sent
      ensures Valid() && (View(), nwrote, fault) == Connection.TryWrite(old(View()), data, w)
    {
      nwrote, fault := 0, false;
      if !writing && outputBuffer.ReadableBytes() == 0 {
        match w {
          case Wrote(n) =>
            nwrote := n;
            sent := sent + data[..n];
            if n == |data| && cfg.writeComplete {
              queue := queue + [WriteCompleteFn];
            }
          case PeerGone =>
            fault := true;
          case _ =>
        }
      }
    }

    /** The last block of `SendInLoop`. */
    method QueueRest(rest: seq<byte>)
      requires Valid()
      modifies this`queue, this`writing, outputBuffer, outputBuffer.data
      ensures Valid() && View() == Connection.QueueRest(old(View()), rest)
      ensures outputBuffer.data == old(outputBuffer.data) || fresh(outputBuffer.data)
      ensures inputBuffer.Contents() == old(inputBuffer.Contents())
    {
      var oldLen := outputBuffer.ReadableBytes();
      if oldLen + |rest| >= cfg.mark && oldLen < cfg.mark && cfg.highWater {
        queue := queue + [HighWaterFn(oldLen + |rest|)];
      }
      outputBuffer.Append(rest);
      if !writing {
        writing := true;
      }
    }

    /** One direct write attempt, then the rest, if any, goes to the output buffer. */
    method SendInLoop(data: seq<byte>, w: WriteResult)
      requires Valid() && (Direct(View()) ==> Possible(View(), |data|, w))
      modifies this, outputBuffer, outputBuffer.data
      ensures Valid() && View() == Connection.SendInLoop(old(View()), data, w)
      ensures outputBuffer.data == old(outputBuffer.data) || fresh(outputBuffer.data)
      ensures inputBuffer.Contents() == old(inputBuffer.Contents())
    {
      if state == Disconnected {
        log := log + [Entry(data, false)];
        return;
      }
      var nwrote, fault := TryWrite(data, w);
      ghost var c1 := View();
      log := log + [Entry(data, !fault)];
      assert View() == c1.(log := c1.log + [Entry(data, !fault)]);
      var remaining := |data| - nwrote;
      if !fault && remaining > 0 {
        QueueRest(data[nwrote..]);
      }
    }

    /** `Send` on the loop thread. */
    method SendHere(data: seq<byte>, w: WriteResult)
      requires Valid() && Enabled(View(), Action.SendHere(data, w))
      modifies this, outputBuffer, outputBuffer.data
      ensures Valid() && View() == Step(old(View()), Action.SendHere(data, w))
      ensures outputBuffer.data == old(outputBuffer.data) || fresh(outputBuffer.data)
    {
      if state == Connected {
        SendInLoop(data, w);
      }
    }

    /** `Send` on another thread, up to and including its check of the state. */
    method SendCheck(thread: int, data: seq<byte>)
      requires Valid() && Enabled(View(), Action.SendCheck(thread, data))
      modifies this`inSend
      ensures Valid() && View() == Step(old(View()), Action.SendCheck(thread, data))
    {
      if state == Connected {
        inSend := inSend[thread := data];
      }
    }

    /** `Send` on another thread: the enqueueing of the saved payload. */
    method SendPost(thread: int)
      requires Valid() && Enabled(View(), Action.SendPost(thread))
      modifies this`inSend, this`queue
      ensures Valid() && View() == Step(old(View()), Action.SendPost(thread))
    {
      queue := queue + [SendFn(inSend[thread])];
      inSend := inSend - {thread};
    }

    method HandleWrite(w: WriteResult)
      requires Valid() && Enabled(View(), Writable(w))
      modifies this, outputBuffer
      ensures Valid() && View() == Step(old(View()), Writable(w))
      ensures outputBuffer.data == old(outputBuffer.data)
    {
      if writing && w.Wrote? {
        TakeWritten(w.n);
        if outputBuffer.ReadableBytes() == 0 {
          Drained();
        }
      }
    }

    method TakeWritten(n: nat)
      requires Valid() && n <= |View().out|
      modifies this`sent, outputBuffer
      ensures Valid() && View() == Connection.TakeWritten(old(View()), n)
      ensures outputBuffer.data == old(outputBuffer.data)
    {
      sent := sent + outputBuffer.Contents()[..n];
      outputBuffer.Retrieve(n);
    }

    /** The last block of `HandleWrite`. */
    method Drained()
      requires Valid()
      modifies this`writing, this`queue, this`writeShut
      ensures Valid() && View() == Connection.Drained(old(View()))
    {
      writing := false;
      if cfg.writeComplete {
        queue := queue + [WriteCompleteFn];
      }
      if state == Disconnecting {
        ShutdownInLoop();
      }
    }

    method ShutdownInLoop()
      requires Valid()
      modifies this`writeShut
      ensures Valid() && View() == Connection.ShutdownInLoop(old(View()))
    {
      if !writing {
        writeShut := true;
      }
    }

    /** `Shutdown` on the loop thread. */
    method ShutdownHere()
      requires Valid()
      modifies this`state, this`writeShut
      ensures Valid() && View() == Step(old(View()), Action.ShutdownHere)
    {
      if state == Connected {
        state := Disconnecting;
        ShutdownInLoop();
      }
    }

    /** `Shutdown` on another thread: the compare-and-swap. */
    method ShutdownSet()
      requires Valid()
      modifies this`state, this`inShutdown
      ensures Valid() && View() == Step(old(View()), Action.ShutdownSet)
    {
      if state == Connected {
        state := Disconnecting;
        inShutdown := true;
      }
    }

    /** `Shutdown` on another thread: the enqueueing. */
    method ShutdownPost()
      requires Valid() && Enabled(View(), Action.ShutdownPost)
      modifies this`queue, this`inShutdown
      ensures Valid() && View() == Step(old(View()), Action.ShutdownPost)
    {
      queue := queue + [ShutdownFn];
      inShutdown := false;
    }

    /** The loop runs the next queued functor. User callbacks are separate steps. */
    method RunQueued(w: WriteResult)
      requires Valid() && Enabled(View(), Action.RunQueued(w))
      modifies this, outputBuffer, outputBuffer.data
      ensures Valid() && View() == Step(old(View()), Action.RunQueued(w))
      ensures outputBuffer.data == old(outputBuffer.data) || fresh(outputBuffer.data)
    {
      var f := queue[0];
      queue := queue[1..];
      match f {
        case SendFn(data) => SendInLoop(data, w);
        case ShutdownFn => ShutdownInLoop();
        case _ =>
      }
    }

    method HandleClose()
      requires Valid() && Enabled(View(), Close)
      modifies this`state, this`reading, this`writing
      ensures Valid() && View() == Step(old(View()), Close) && !reading
    {
      reading, writing := false, false;
      state := Disconnected;
    }

    /** End of file closes the connection; anything else leaves the output path alone. */
    method HandleRead(r: ReadResult)
      requires Valid() && Enabled(View(), Close) && (r.Got? ==> |r.bytes| <= inputBuffer.ReadLimit())
      modifies this`state, this`reading, this`writing, inputBuffer, inputBuffer.data
      ensures Valid()
      ensures View() == if r == Got([]) then Step(old(View()), Close) else old(View())
      ensures inputBuffer.Contents() == old(inputBuffer.Contents()) + if r.Got? then r.bytes else []
      ensures inputBuffer.data == old(inputBuffer.data) || fresh(inputBuffer.data)
    {
      var n := inputBuffer.ReadFd(r);
      if n == 0 {
        HandleClose();
      }
    }

    /** `assertHolds` is the outcome of the assertion of `Channel::Remove` that the channel has no
        interest left: it fails if and only if the connection is still disconnecting. */
    method StepIntoDestroyed() returns (assertHolds: bool)
      requires Valid() && Inv(View()) && Enabled(View(), Destroy)
      modifies this`state, this`reading, this`writing
      ensures Valid() && View() == Step(old(View()), Destroy)
      ensures assertHolds <==> old(state) != Disconnecting
    {
      if state == Connected {
        state := Disconnected;
        reading, writing := false, false;
      }
      assertHolds := !reading && !writing;
    }
  }
}
