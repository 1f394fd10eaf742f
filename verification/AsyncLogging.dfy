/** base/AsyncLogging.cpp: double buffering between any number of producers and one back thread, as
    a state machine over the sections that hold the mutex and the steps the back thread takes without
    it. A buffer is the sequence of bytes it holds: each is owned by exactly one pointer. Module
    AsyncLoggers ties the methods of the class to these steps. */
module LoggerProtocol {

  datatype Option<T> = None | Some(value: T)

  type Buf = seq<char>

  /** The size of a large buffer (base/LogStream.h). */
  const CAP: nat := 4000 * 1024

  /** A batch of more buffers than this keeps only its first `SURVIVORS`. */
  const OVERLOAD: nat := 25
  const SURVIVORS: nat := 2

  /** `Reset` of a recycled buffer, and a new buffer. */
  const EMPTY: Option<Buf> := Some([])

  function Avail(b: Buf): int { CAP - |b| }

  /** `FixedBuffer::Append` ignores what does not fit. */
  function FixedAppend(b: Buf, line: seq<char>): Buf {
    if Avail(b) > |line| then b + line else b
  }

  /** What a null pointer yields; no run dereferences one (AssertsHold). */
  function Deref(b: Option<Buf>): Buf {
    if b.Some? then b.value else []
  }

  /** What the log file receives: a buffer, or the notice that `dropped` buffers are missing. */
  datatype Entry = Data(buf: Buf) | Notice(dropped: nat)

  /** A buffer that has left the logger. */
  datatype Piece = Piece(buf: Buf, written: bool)

  /** Where the back thread is: not there, created, at the head of its loop, in the loop before its
      critical section, after it, writing the batch. */
  datatype Pc = Off | Starting | Top | Waiting | Dropping | Writing

  /** `written` counts the buffers of `toWrite` already written, `doomed` are the buffers dropped from
      the batch. `file`, `handled` and `appended` are histories: `handled` lists what has left the
      logger, `appended` the bytes of all lines shorter than a buffer. */
  datatype Logger = Logger(running: bool, pc: Pc, current: Option<Buf>, next: Option<Buf>, buffers: seq<Buf>,
                           new1: Option<Buf>, new2: Option<Buf>, toWrite: seq<Buf>, written: nat, doomed: seq<Buf>,
                           file: seq<Entry>, handled: seq<Piece>, appended: seq<char>)

  const INITIAL := Logger(false, Off, EMPTY, EMPTY, [], None, None, [], 0, [], [], [], [])

  datatype Action = Append(line: seq<char>) | Start | Stop | Begin | CheckRunning | Take | Drop | WriteOne | Recycle

  /** `Take` may happen at any time: the wait before it ends by a notification, a timeout or at once.
      Starting again before the previous back thread has ended is not modelled. */
  predicate Enabled(s: Logger, a: Action) {
    match a
    case Append(_) => true
    case Start => s.running || s.pc == Off
    case Stop => true
    case Begin => s.pc == Starting
    case CheckRunning => s.pc == Top
    case Take => s.pc == Waiting
    case Drop => s.pc == Dropping
    case WriteOne => s.pc == Writing && s.written < |s.toWrite|
    case Recycle => s.pc == Writing && s.written >= |s.toWrite|
  }

  function Accepted(line: seq<char>): seq<char> {
    if |line| < CAP then line else []
  }

  /** A full current buffer is queued and replaced by the spare one, or by a new one. */
  function Rotated(s: Logger): Logger {
    s.(buffers := s.buffers + [Deref(s.current)],
       current := if s.next.Some? then s.next else EMPTY,
       next := None)
  }

  function Appended(s: Logger, line: seq<char>): Logger {
    var t := if Avail(Deref(s.current)) > |line| then s else Rotated(s);
    t.(current := Some(FixedAppend(Deref(t.current), line)), appended := s.appended + Accepted(line))
  }

  /** A missing spare of the producers is replaced by the second spare of the back thread. */
  function NextFilled(s: Logger): Logger {
    if s.next.None? then s.(next := s.new2, new2 := None) else s
  }

  /** The current buffer joins the full ones, all go to the batch, and the first spare takes its place. */
  function Swapped(s: Logger): Logger {
    s.(toWrite := s.buffers + [Deref(s.current)], buffers := [], current := s.new1, new1 := None)
  }

  function Taken(s: Logger): Logger {
    NextFilled(Swapped(s)).(pc := Dropping, written := 0)
  }

  function Dropped(s: Logger): Logger {
    if |s.toWrite| > OVERLOAD then
      s.(pc := Writing, file := s.file + [Notice(|s.toWrite| - SURVIVORS)],
         toWrite := s.toWrite[..SURVIVORS], doomed := s.toWrite[SURVIVORS..])
    else s.(pc := Writing)
  }

  function Wrote(s: Logger): Logger
    requires s.written < |s.toWrite|
  {
    var b := s.toWrite[s.written];
    s.(file := s.file + [Data(b)], handled := s.handled + [Piece(b, true)], written := s.written + 1)
  }

  function AsPieces(q: seq<Buf>, written: bool): (r: seq<Piece>)
    ensures |r| == |q|
  {
    seq(|q|, i requires 0 <= i < |q| => Piece(q[i], written))
  }

  /** The last buffer of the batch, cut to two, becomes the first spare; if the second spare was given
      away, the one before it takes its place. */
  function Recycled(s: Logger): Logger {
    s.(pc := Top, new1 := EMPTY, new2 := if s.new2.None? then EMPTY else s.new2,
       toWrite := [], written := 0, doomed := [], handled := s.handled + AsPieces(s.doomed, false))
  }

  function Step(s: Logger, a: Action): Logger
    requires Enabled(s, a)
  {
    match a
    case Append(line) => Appended(s, line)
    case Start => if s.running then s else s.(running := true, pc := Starting)
    case Stop => s.(running := false)
    case Begin => s.(pc := Top, new1 := EMPTY, new2 := EMPTY)
    case CheckRunning => if s.running then s.(pc := Waiting) else s.(pc := Off, new1 := None, new2 := None)
    case Take => Taken(s)
    case Drop => Dropped(s)
    case WriteOne => Wrote(s)
    case Recycle => Recycled(s)
  }

  ghost predicate Moves(s: Logger, a: Action, s': Logger) { Enabled(s, a) && s' == Step(s, a) }

  ghost predicate MovesAt(ss: seq<Logger>, acts: seq<Action>, i: nat)
    requires i < |acts| < |ss|
  {
    Moves(ss[i], acts[i], ss[i + 1])
  }

  ghost predicate IsRun(ss: seq<Logger>, acts: seq<Action>) {
    && |ss| == |acts| + 1 && ss[0] == INITIAL
    && forall i :: 0 <= i < |acts| ==> MovesAt(ss, acts, i)
  }

  // ---------- concatenation ----------

  function Cat(q: seq<Buf>): Buf {
    if q == [] then [] else Cat(q[..|q| - 1]) + q[|q| - 1]
  }

  function Bytes(h: seq<Piece>): Buf {
    if h == [] then [] else Bytes(h[..|h| - 1]) + h[|h| - 1].buf
  }

  lemma CatSnoc(q: seq<Buf>, b: Buf)
    ensures Cat(q + [b]) == Cat(q) + b
  {
    assert (q + [b])[..|q|] == q;
  }

  lemma Assoc(a: Buf, b: Buf, c: Buf)
    ensures (a + b) + c == a + (b + c)
  {
  }

  lemma SplitSnoc(q: seq<Buf>, r: seq<Buf>)
    requires r != []
    ensures q + r == (q + r[..|r| - 1]) + [r[|r| - 1]]
  {
  }

  lemma {:induction false} CatSplit(q: seq<Buf>, r: seq<Buf>)
    ensures Cat(q + r) == Cat(q) + Cat(r)
  {
    if r == [] {
      assert q + r == q;
    } else {
      var n := |r| - 1;
      CatSplit(q, r[..n]);
      CatSnoc(q + r[..n], r[n]);
      SplitSnoc(q, r);
      Assoc(Cat(q), Cat(r[..n]), r[n]);
    }
  }

  lemma CatFirst(q: seq<Buf>)
    requires q != []
    ensures Cat(q) == q[0] + Cat(q[1..])
  {
    CatSplit([q[0]], q[1..]);
    assert [q[0]] + q[1..] == q;
    CatSnoc([], q[0]);
    assert [] + [q[0]] == [q[0]];
  }

  lemma BytesSnoc(h: seq<Piece>, p: Piece)
    ensures Bytes(h + [p]) == Bytes(h) + p.buf
  {
    assert (h + [p])[..|h|] == h;
  }

  lemma PiecesSnoc(h: seq<Piece>, q: seq<Buf>, written: bool)
    requires q != []
    ensures var n := |q| - 1;
            h + AsPieces(q, written) == (h + AsPieces(q[..n], written)) + [Piece(q[n], written)]
  {
  }

  lemma {:induction false} BytesOfPieces(h: seq<Piece>, q: seq<Buf>, written: bool)
    ensures Bytes(h + AsPieces(q, written)) == Bytes(h) + Cat(q)
  {
    if q == [] {
      assert h + AsPieces(q, written) == h;
    } else {
      var n := |q| - 1;
      BytesOfPieces(h, q[..n], written);
      BytesSnoc(h + AsPieces(q[..n], written), Piece(q[n], written));
      PiecesSnoc(h, q, written);
      Assoc(Bytes(h), Cat(q[..n]), q[n]);
    }
  }

  /** The buffers in the log file, without the notices. */
  function Stored(file: seq<Entry>): seq<Buf> {
    if file == [] then []
    else
      var e := file[|file| - 1];
      if e.Data? then Stored(file[..|file| - 1]) + [e.buf] else Stored(file[..|file| - 1])
  }

  function Kept(h: seq<Piece>): seq<Buf> {
    if h == [] then []
    else
      var p := h[|h| - 1];
      if p.written then Kept(h[..|h| - 1]) + [p.buf] else Kept(h[..|h| - 1])
  }

  lemma StoredSnoc(file: seq<Entry>, e: Entry)
    ensures Stored(file + [e]) == if e.Data? then Stored(file) + [e.buf] else Stored(file)
  {
    assert (file + [e])[..|file|] == file;
  }

  lemma KeptSnoc(h: seq<Piece>, p: Piece)
    ensures Kept(h + [p]) == if p.written then Kept(h) + [p.buf] else Kept(h)
  {
    assert (h + [p])[..|h|] == h;
  }

  lemma {:induction false} KeptSkipsDropped(h: seq<Piece>, q: seq<Buf>)
    ensures Kept(h + AsPieces(q, false)) == Kept(h)
  {
    if q == [] {
      assert h + AsPieces(q, false) == h;
    } else {
      var n := |q| - 1;
      KeptSkipsDropped(h, q[..n]);
      KeptSnoc(h + AsPieces(q[..n], false), Piece(q[n], false));
      PiecesSnoc(h, q, false);
    }
  }

  // ---------- the invariant ----------

  /** The asserts of the source, and no null pointer where one would be dereferenced. */
  ghost predicate AssertsHold(s: Logger, a: Action)
    requires Enabled(s, a)
  {
    match a
    case Append(line) =>
      s.current.Some? && (|line| < CAP ==> Avail(Deref(s.current)) > |line| || Avail(Deref(Rotated(s).current)) > |line|)
    case Take => s.new1 == EMPTY && s.new2 == EMPTY && s.toWrite == [] && s.current.Some?
    case Drop => s.toWrite != []
    case Recycle => s.new1.None? && s.toWrite != [] && (s.new2.None? ==> |s.toWrite| > 1)
    case _ => true
  }

  /** What producers and the back thread share. */
  ghost predicate SharedOk(s: Logger) {
    && s.current.Some? && |s.current.value| < CAP
    && (s.next == EMPTY || s.next.None?) && (s.next.None? ==> s.buffers != [])
  }

  ghost predicate SparesOk(s: Logger) {
    match s.pc
    case Top => s.new1 == EMPTY && s.new2 == EMPTY
    case Waiting => s.new1 == EMPTY && s.new2 == EMPTY
    case Dropping => s.new1.None? && (s.new2 == EMPTY || (s.new2.None? && |s.toWrite| > 1))
    case Writing => s.new1.None? && (s.new2 == EMPTY || (s.new2.None? && |s.toWrite| > 1))
    case _ => true
  }

  ghost predicate BatchOk(s: Logger) {
    match s.pc
    case Dropping => s.toWrite != [] && s.written == 0 && s.doomed == []
    case Writing => s.toWrite != [] && s.written <= |s.toWrite| && (s.doomed != [] ==> |s.toWrite| == SURVIVORS)
    case _ => s.toWrite == [] && s.written == 0 && s.doomed == []
  }

  function Unwritten(s: Logger): seq<Buf> {
    if s.written <= |s.toWrite| then s.toWrite[s.written..] else []
  }

  /** The bytes of the batch that have not been written, and those not yet taken. */
  function InBatch(s: Logger): Buf { Cat(Unwritten(s)) + Cat(s.doomed) }

  function InBuffers(s: Logger): Buf { Cat(s.buffers) + Deref(s.current) }

  /** All appended bytes, in order: those of the buffers that have left, of the rest of the batch, of
      the buffers dropped from it, of the full buffers and of the current one. */
  ghost predicate Conserved(s: Logger) {
    s.appended == Bytes(s.handled) + (InBatch(s) + InBuffers(s))
  }

  /** The file holds, besides notices, exactly the buffers that count as written. */
  ghost predicate FileMatches(s: Logger) { Stored(s.file) == Kept(s.handled) }

  ghost predicate Shape(s: Logger) { SharedOk(s) && SparesOk(s) && BatchOk(s) }

  ghost predicate Inv(s: Logger) { Shape(s) && Conserved(s) && FileMatches(s) }

  /** The assert of `Append` holds exactly for lines shorter than a buffer. */
  lemma LineFitsIff(s: Logger, line: seq<char>)
    requires SharedOk(s)
    ensures |line| < CAP <==> Avail(Deref(s.current)) > |line| || Avail(Deref(Rotated(s).current)) > |line|
  {
  }

  lemma StepKeepsShape(s: Logger, a: Action)
    requires Shape(s) && Enabled(s, a)
    ensures AssertsHold(s, a) && Shape(Step(s, a))
  {
  }

  lemma AppendAddsLine(s: Logger, line: seq<char>)
    requires SharedOk(s)
    ensures InBuffers(Appended(s, line)) == InBuffers(s) + Accepted(line)
  {
    var b, b' := s.current.value, Deref(Appended(s, line).current);
    Assoc(Cat(s.buffers), b, Accepted(line));
    if Avail(b) <= |line| {
      CatSnoc(s.buffers, b);
      assert b' == Accepted(line);
    } else {
      assert b' == b + Accepted(line);
    }
  }

  lemma AppendConserves(s: Logger, line: seq<char>)
    requires SharedOk(s) && Conserved(s)
    ensures Conserved(Appended(s, line))
  {
    var t := Appended(s, line);
    AppendAddsLine(s, line);
    Assoc(InBatch(s), InBuffers(s), Accepted(line));
    Assoc(Bytes(s.handled), InBatch(s) + InBuffers(s), Accepted(line));
    assert InBatch(t) == InBatch(s);
  }

  lemma TakeConserves(s: Logger)
    requires Shape(s) && Conserved(s) && s.pc == Waiting
    ensures Conserved(Taken(s))
  {
    TakeMovesBuffers(s, Taken(s));
    Units(InBuffers(s));
  }

  /** The bytes that were in the buffers are in the batch. */
  lemma TakeMovesBuffers(s: Logger, t: Logger)
    requires Shape(s) && s.pc == Waiting && t == Taken(s)
    ensures InBatch(s) == [] && InBatch(t) == InBuffers(s) && InBuffers(t) == []
  {
    CatSnoc(s.buffers, s.current.value);
    Whole(t.toWrite);
    Units(Cat(t.toWrite));
  }

  lemma Whole(q: seq<Buf>)
    ensures q[0..] == q
  {
  }

  lemma Units(b: Buf)
    ensures [] + b == b && b + [] == b
  {
  }

  lemma CutAt(q: seq<Buf>, n: nat)
    requires n <= |q|
    ensures q == q[..n] + q[n..]
    ensures q[0..] == q && q[..n][0..] == q[..n]
  {
  }

  lemma DropKeepsBatch(s: Logger)
    requires BatchOk(s) && s.pc == Dropping
    ensures InBatch(Dropped(s)) == InBatch(s)
  {
    var q := s.toWrite;
    if |q| > OVERLOAD {
      CutAt(q, SURVIVORS);
      CatSplit(q[..SURVIVORS], q[SURVIVORS..]);
      assert Cat(q) + Cat([]) == Cat(q);
    }
  }

  lemma DropConserves(s: Logger)
    requires Shape(s) && Conserved(s) && FileMatches(s) && s.pc == Dropping
    ensures Conserved(Dropped(s)) && FileMatches(Dropped(s))
  {
    DropKeepsBatch(s);
    assert InBuffers(Dropped(s)) == InBuffers(s);
    if |s.toWrite| > OVERLOAD {
      StoredSnoc(s.file, Notice(|s.toWrite| - SURVIVORS));
    }
  }

  lemma TailOf(q: seq<Buf>, w: nat)
    requires w < |q|
    ensures q[w..][0] == q[w] && q[w..][1..] == q[w + 1..]
  {
  }

  lemma WriteTakesFirst(s: Logger)
    requires BatchOk(s) && Enabled(s, WriteOne)
    ensures InBatch(s) == s.toWrite[s.written] + InBatch(Step(s, WriteOne))
  {
    var t := Step(s, WriteOne);
    TailOf(s.toWrite, s.written);
    CatFirst(Unwritten(s));
    Assoc(s.toWrite[s.written], Cat(Unwritten(t)), Cat(s.doomed));
  }

  lemma WriteConserves(s: Logger)
    requires Shape(s) && Conserved(s) && Enabled(s, WriteOne)
    ensures Conserved(Step(s, WriteOne))
  {
    var b, t := s.toWrite[s.written], Step(s, WriteOne);
    WriteTakesFirst(s);
    BytesSnoc(s.handled, Piece(b, true));
    assert InBuffers(t) == InBuffers(s);
    Assoc(b, InBatch(t), InBuffers(t));
    Assoc(Bytes(s.handled), b, InBatch(t) + InBuffers(t));
  }

  lemma WriteMatches(s: Logger)
    requires FileMatches(s) && Enabled(s, WriteOne)
    ensures FileMatches(Step(s, WriteOne))
  {
    var b := s.toWrite[s.written];
    KeptSnoc(s.handled, Piece(b, true));
    StoredSnoc(s.file, Data(b));
  }

  lemma RecycleConserves(s: Logger)
    requires Shape(s) && Conserved(s) && FileMatches(s) && Enabled(s, Recycle)
    ensures Conserved(Recycled(s)) && FileMatches(Recycled(s))
  {
    var t := Recycled(s);
    BytesOfPieces(s.handled, s.doomed, false);
    KeptSkipsDropped(s.handled, s.doomed);
    assert InBatch(s) == Cat(s.doomed) && InBatch(t) == [];
    Assoc(Bytes(s.handled), Cat(s.doomed), InBuffers(s));
    assert InBatch(t) + InBuffers(t) == InBuffers(s);
  }

  lemma StepKeepsInv(s: Logger, a: Action)
    requires Inv(s) && Enabled(s, a)
    ensures AssertsHold(s, a) && Inv(Step(s, a))
  {
    StepKeepsShape(s, a);
    StepConserves(s, a);
  }

  lemma StepConserves(s: Logger, a: Action)
    requires Inv(s) && Enabled(s, a)
    ensures Conserved(Step(s, a)) && FileMatches(Step(s, a))
  {
    match a
    case Append(line) => AppendConserves(s, line);
    case Take => TakeConserves(s);
    case Drop => DropConserves(s);
    case WriteOne => WriteConserves(s); WriteMatches(s);
    case Recycle => RecycleConserves(s);
    case _ => assert InBatch(Step(s, a)) == InBatch(s) && InBuffers(Step(s, a)) == InBuffers(s);
  }

  /** The invariant holds throughout every run, over all arrival patterns. */
  lemma {:induction false} RunsKeepInv(ss: seq<Logger>, acts: seq<Action>, i: nat)
    requires IsRun(ss, acts) && i <= |acts|
    ensures Inv(ss[i])
  {
    if i != 0 {
      RunsKeepInv(ss, acts, i - 1);
      assert MovesAt(ss, acts, i - 1);
      StepKeepsInv(ss[i - 1], acts[i - 1]);
    }
  }

  /** No assert of the source fails in any run, and no null pointer is dereferenced. */
  lemma AssertsNeverFail(ss: seq<Logger>, acts: seq<Action>, i: nat)
    requires IsRun(ss, acts) && i < |acts|
    ensures Enabled(ss[i], acts[i]) && AssertsHold(ss[i], acts[i])
  {
    RunsKeepInv(ss, acts, i);
    assert MovesAt(ss, acts, i);
    StepKeepsInv(ss[i], acts[i]);
  }

  /** Whenever there is no back thread, what was appended and has not left the logger is still in its
      full buffers and its current one: stopping writes none of it. */
  lemma StoppedHoldsTheRest(ss: seq<Logger>, acts: seq<Action>, i: nat)
    requires IsRun(ss, acts) && i <= |acts| && ss[i].pc == Off
    ensures ss[i].appended == Bytes(ss[i].handled) + InBuffers(ss[i])
  {
    RunsKeepInv(ss, acts, i);
    assert InBatch(ss[i]) + InBuffers(ss[i]) == InBuffers(ss[i]);
  }

  // ---------- the fate of a batch ----------

  function Survivors(batch: seq<Buf>): seq<Buf> {
    if |batch| > OVERLOAD then batch[..SURVIVORS] else batch
  }

  function Doomed(batch: seq<Buf>): seq<Buf> {
    if |batch| > OVERLOAD then batch[SURVIVORS..] else []
  }

  function Header(batch: seq<Buf>): seq<Entry> {
    if |batch| > OVERLOAD then [Notice(|batch| - SURVIVORS)] else []
  }

  function AsData(q: seq<Buf>): seq<Entry> {
    seq(|q|, i requires 0 <= i < |q| => Data(q[i]))
  }

  /** What the file and the history of pieces gain from a batch. */
  function FileFate(batch: seq<Buf>): seq<Entry> {
    Header(batch) + AsData(Survivors(batch))
  }

  function Fate(batch: seq<Buf>): seq<Piece> {
    AsPieces(Survivors(batch), true) + AsPieces(Doomed(batch), false)
  }

  /** Between `Take` in state `s0` and `Recycle`. */
  ghost predicate Midway(s0: Logger, s: Logger) {
    var batch := s0.buffers + [Deref(s0.current)];
    match s.pc
    case Dropping => s.toWrite == batch && s.written == 0 && s.doomed == [] && s.handled == s0.handled && s.file == s0.file
    case Writing =>
      && s.toWrite == Survivors(batch) && s.doomed == Doomed(batch) && s.written <= |s.toWrite|
      && s.handled == s0.handled + AsPieces(s.toWrite[..s.written], true)
      && s.file == s0.file + Header(batch) + AsData(s.toWrite[..s.written])
    case _ => false
  }

  lemma OneMore(h: seq<Piece>, f: seq<Entry>, q: seq<Buf>, w: nat)
    requires w < |q|
    ensures h + AsPieces(q[..w + 1], true) == (h + AsPieces(q[..w], true)) + [Piece(q[w], true)]
    ensures f + AsData(q[..w + 1]) == (f + AsData(q[..w])) + [Data(q[w])]
  {
  }

  lemma MidwayStep(s0: Logger, s: Logger, a: Action)
    requires Midway(s0, s) && Enabled(s, a) && a != Recycle
    ensures Midway(s0, Step(s, a))
  {
    var t := Step(s, a);
    match a
    case Drop =>
      assert AsPieces(t.toWrite[..0], true) == [] && AsData(t.toWrite[..0]) == [];
    case WriteOne =>
      var w := s.written;
      OneMore(s0.handled, s0.file + Header(s0.buffers + [Deref(s0.current)]), s.toWrite, w);
    case _ =>
  }

  lemma {:induction false} BatchIsMidway(ss: seq<Logger>, acts: seq<Action>, i: nat, j: nat)
    requires IsRun(ss, acts) && i < j <= |acts| && acts[i] == Take
    requires forall k :: i < k < j ==> acts[k] != Recycle
    ensures Midway(ss[i], ss[j])
  {
    assert MovesAt(ss, acts, j - 1);
    if i + 1 < j {
      BatchIsMidway(ss, acts, i, j - 1);
      MidwayStep(ss[i], ss[j - 1], acts[j - 1]);
    } else {
      RunsKeepInv(ss, acts, i);
    }
  }

  lemma MidwayEnds(s0: Logger, s: Logger)
    requires Midway(s0, s) && Enabled(s, Recycle)
    ensures var batch := s0.buffers + [Deref(s0.current)];
            Recycled(s).handled == s0.handled + Fate(batch) && Recycled(s).file == s0.file + FileFate(batch)
  {
    assert s.toWrite[..|s.toWrite|] == s.toWrite;
  }

  /** The batch taken in state `s0` is being written. */
  ghost predicate WritingBatch(s0: Logger, s: Logger) {
    match s.pc
    case Writing => Inv(s) && Midway(s0, s)
    case _ => false
  }

  lemma WritingStarts(s0: Logger)
    requires Inv(s0) && Enabled(s0, Take)
    ensures AssertsHold(s0, Take) && WritingBatch(s0, Dropped(Taken(s0)))
  {
    StepKeepsInv(s0, Take);
    DropStarts(s0, Taken(s0));
  }

  lemma DropStarts(s0: Logger, s: Logger)
    requires Inv(s) && Midway(s0, s) && Enabled(s, Drop)
    ensures WritingBatch(s0, Dropped(s))
  {
    StepKeepsInv(s, Drop);
    MidwayStep(s0, s, Drop);
  }

  lemma WritingKeepsAppend(s0: Logger, s: Logger, line: seq<char>)
    requires WritingBatch(s0, s)
    ensures AssertsHold(s, Append(line)) && WritingBatch(s0, Appended(s, line))
  {
    StepKeepsInv(s, Append(line));
    MidwayStep(s0, s, Append(line));
  }

  lemma WritingKeepsWrite(s0: Logger, s: Logger)
    requires WritingBatch(s0, s) && s.written < |s.toWrite|
    ensures WritingBatch(s0, Wrote(s))
  {
    StepKeepsInv(s, WriteOne);
    MidwayStep(s0, s, WriteOne);
  }

  lemma WritingEnds(s0: Logger, s: Logger)
    requires WritingBatch(s0, s) && Enabled(s, Recycle)
    ensures var batch := s0.buffers + [Deref(s0.current)];
            && AssertsHold(s, Recycle) && Inv(Recycled(s))
            && Recycled(s).handled == s0.handled + Fate(batch) && Recycled(s).file == s0.file + FileFate(batch)
  {
    StepKeepsInv(s, Recycle);
    MidwayEnds(s0, s);
  }

  /** Whatever producers do meanwhile, the batch taken at step `i` is written whole and in order; only
      if it has more than 25 buffers, a notice is written and all but its first two are lost. */
  lemma BatchFate(ss: seq<Logger>, acts: seq<Action>, i: nat, j: nat)
    requires IsRun(ss, acts) && i < j < |acts| && acts[i] == Take && acts[j] == Recycle
    requires forall k :: i < k < j ==> acts[k] != Recycle
    ensures var batch := ss[i].buffers + [Deref(ss[i].current)];
            ss[j + 1].handled == ss[i].handled + Fate(batch) && ss[j + 1].file == ss[i].file + FileFate(batch)
  {
    BatchIsMidway(ss, acts, i, j);
    assert MovesAt(ss, acts, j);
    MidwayEnds(ss[i], ss[j]);
  }

  ghost predicate NoOverload(ss: seq<Logger>, acts: seq<Action>) {
    forall k :: 0 <= k < |acts| && acts[k] == Drop ==> k < |ss| && |ss[k].toWrite| <= OVERLOAD
  }

  ghost predicate AllWritten(h: seq<Piece>) { forall i :: 0 <= i < |h| ==> h[i].written }

  lemma {:induction false} AllWrittenKept(h: seq<Piece>)
    requires AllWritten(h)
    ensures Bytes(h) == Cat(Kept(h))
  {
    if h != [] {
      var n := |h| - 1;
      AllWrittenKept(h[..n]);
      CatSnoc(Kept(h[..n]), h[n].buf);
    }
  }

  lemma {:induction false} NothingDroppedYet(ss: seq<Logger>, acts: seq<Action>, i: nat)
    requires IsRun(ss, acts) && NoOverload(ss, acts) && i <= |acts|
    ensures AllWritten(ss[i].handled) && ss[i].doomed == []
  {
    if i != 0 {
      NothingDroppedYet(ss, acts, i - 1);
      assert MovesAt(ss, acts, i - 1);
    }
  }

  /** Without an overload the log file, the rest of the batch and the buffers are all that was
      appended, in order. */
  lemma NothingLostWithoutOverload(ss: seq<Logger>, acts: seq<Action>, i: nat)
    requires IsRun(ss, acts) && NoOverload(ss, acts) && i <= |acts|
    ensures ss[i].appended == Cat(Stored(ss[i].file)) + (Cat(Unwritten(ss[i])) + InBuffers(ss[i]))
  {
    RunsKeepInv(ss, acts, i);
    NothingDroppedYet(ss, acts, i);
    AllWrittenKept(ss[i].handled);
    assert InBatch(ss[i]) == Cat(Unwritten(ss[i]));
  }

  /** In plain terms: a batch of up to 25 buffers goes to the file whole and in order, with no notice. */
  lemma SmallBatchFate(batch: seq<Buf>)
    requires |batch| <= 25
    ensures |FileFate(batch)| == |batch| && Stored(FileFate(batch)) == batch
  {
    StoredData(batch);
    assert FileFate(batch) == AsData(batch);
  }

  /** Of a larger one the file gets a notice of how many buffers are missing, and the first two. */
  lemma LargeBatchFate(batch: seq<Buf>)
    requires |batch| > 25
    ensures FileFate(batch) == [Notice(|batch| - 2), Data(batch[0]), Data(batch[1])]
  {
  }

  /** Either way all its bytes leave the logger in order. */
  lemma FateBytes(batch: seq<Buf>)
    ensures Bytes(Fate(batch)) == Cat(batch)
  {
    BytesOfPieces(AsPieces(Survivors(batch), true), Doomed(batch), false);
    BytesOfPieces([], Survivors(batch), true);
    assert [] + AsPieces(Survivors(batch), true) == AsPieces(Survivors(batch), true);
    Units(Cat(Survivors(batch)));
    CatSplit(Survivors(batch), Doomed(batch));
    FateCovers(batch);
  }

  lemma FateCovers(batch: seq<Buf>)
    ensures Survivors(batch) + Doomed(batch) == batch
  {
  }

  lemma {:induction false} StoredData(q: seq<Buf>)
    ensures Stored(AsData(q)) == q
  {
    if q != [] {
      var n := |q| - 1;
      StoredData(q[..n]);
      StoredSnoc(AsData(q[..n]), Data(q[n]));
      assert AsData(q) == AsData(q[..n]) + [Data(q[n])];
    }
  }

  // ---------- how many bytes make an overload ----------

  /** Any two neighbours hold at least as many bytes together as a buffer has room for. */
  ghost predicate Dense(q: seq<Buf>) {
    |q| < 2 || (|q[|q| - 2]| + |q[|q| - 1]| >= CAP && Dense(q[..|q| - 1]))
  }

  /** The buffers that the next `Take` would make its batch. */
  function NextBatch(s: Logger): seq<Buf> { s.buffers + [Deref(s.current)] }

  ghost predicate ShortLines(acts: seq<Action>) {
    forall k :: 0 <= k < |acts| && acts[k].Append? ==> |acts[k].line| < CAP
  }

  /** An append leaves the full buffers alone if and only if the current one has room for the line. */
  lemma RotatesIff(s: Logger, line: seq<char>)
    ensures Appended(s, line).buffers == s.buffers <==> |line| < CAP - |Deref(s.current)|
    ensures |line| < CAP - |Deref(s.current)| ==> Deref(Appended(s, line).current) == Deref(s.current) + line
    ensures |line| >= CAP - |Deref(s.current)| ==> Appended(s, line).buffers == NextBatch(s)
  {
    if |line| >= CAP - |Deref(s.current)| {
      assert |Appended(s, line).buffers| == |s.buffers| + 1;
    }
  }

  lemma DenseLast(q: seq<Buf>, b: Buf, b': Buf)
    requires Dense(q + [b]) && |b| <= |b'|
    ensures Dense(q + [b'])
  {
    assert (q + [b])[..|q|] == q && (q + [b'])[..|q|] == q;
  }

  lemma DenseSnoc(q: seq<Buf>, b: Buf)
    requires Dense(q) && (q != [] ==> |q[|q| - 1]| + |b| >= CAP)
    ensures Dense(q + [b])
  {
    assert (q + [b])[..|q|] == q;
  }

  lemma AppendKeepsDense(s: Logger, line: seq<char>)
    requires SharedOk(s) && Dense(NextBatch(s)) && |line| < CAP
    ensures Dense(NextBatch(Appended(s, line)))
  {
    var t := Appended(s, line);
    RotatesIff(s, line);
    if |line| < CAP - |Deref(s.current)| {
      DenseLast(s.buffers, Deref(s.current), Deref(t.current));
    } else {
      DenseSnoc(NextBatch(s), Deref(t.current));
    }
  }

  /** With lines shorter than a buffer this holds throughout every run. */
  lemma {:induction false} BuffersAreDense(ss: seq<Logger>, acts: seq<Action>, i: nat)
    requires IsRun(ss, acts) && ShortLines(acts) && i <= |acts|
    ensures Dense(NextBatch(ss[i]))
  {
    if i != 0 {
      BuffersAreDense(ss, acts, i - 1);
      RunsKeepInv(ss, acts, i - 1);
      assert MovesAt(ss, acts, i - 1);
      StepKeepsDense(ss[i - 1], acts[i - 1], ss[i]);
    }
  }

  lemma StepKeepsDense(s: Logger, a: Action, s': Logger)
    requires Moves(s, a, s') && Shape(s) && Dense(NextBatch(s)) && (a.Append? ==> |a.line| < CAP)
    ensures Dense(NextBatch(s'))
  {
    match a
    case Append(line) => AppendKeepsDense(s, line);
    case Take => assert NextBatch(s') == [[]];
    case _ => assert NextBatch(s') == NextBatch(s);
  }

  /** So `n` buffers hold at least half of `n` times their room. */
  lemma {:induction false} DenseBytes(q: seq<Buf>)
    requires Dense(q)
    ensures |Cat(q)| >= (|q| / 2) * CAP
    decreases |q|
  {
    if |q| >= 2 {
      var n := |q| - 1;
      var rest := q[..n][..n - 1];
      DenseBytes(rest);
      assert q[..n][n - 1] == q[n - 1];
      assert |Cat(q)| == |Cat(rest)| + |q[n - 1]| + |q[n]|;
      assert |q| / 2 == |rest| / 2 + 1;
    }
  }

  /** Since the last `Take`, or the start, the buffers have gained exactly the bytes appended. */
  lemma {:induction false} BuffersSinceTake(ss: seq<Logger>, acts: seq<Action>, i: nat, j: nat)
    requires IsRun(ss, acts) && i <= j <= |acts| && (i == 0 || acts[i - 1] == Take)
    requires forall k :: i <= k < j ==> acts[k] != Take
    ensures ss[j].appended == ss[i].appended + InBuffers(ss[j])
  {
    if i == j {
      if i != 0 {
        RunsKeepInv(ss, acts, i - 1);
        assert MovesAt(ss, acts, i - 1);
        TakeMovesBuffers(ss[i - 1], ss[i]);
      }
      assert InBuffers(ss[i]) == [];
      Units(ss[i].appended);
    } else {
      BuffersSinceTake(ss, acts, i, j - 1);
      RunsKeepInv(ss, acts, j - 1);
      assert MovesAt(ss, acts, j - 1);
      StepFills(ss[j - 1], acts[j - 1], ss[j], ss[i].appended);
    }
  }

  lemma StepFills(s: Logger, a: Action, s': Logger, before: seq<char>)
    requires Moves(s, a, s') && Shape(s) && a != Take && s.appended == before + InBuffers(s)
    ensures s'.appended == before + InBuffers(s')
  {
    if a.Append? {
      AppendAddsLine(s, a.line);
      Assoc(before, InBuffers(s), Accepted(a.line));
    } else {
      assert InBuffers(s') == InBuffers(s);
    }
  }

  /** A batch that loses buffers takes at least 13 buffers' worth of bytes appended since the previous
      `Take`, or since the start. */
  lemma OverloadNeedsBytes(ss: seq<Logger>, acts: seq<Action>, i: nat, j: nat)
    requires IsRun(ss, acts) && ShortLines(acts) && i <= j < |acts| && (i == 0 || acts[i - 1] == Take)
    requires acts[j] == Take && forall k :: i <= k < j ==> acts[k] != Take
    requires |NextBatch(ss[j])| > 25
    ensures |ss[j].appended| - |ss[i].appended| >= 13 * CAP
  {
    BuffersAreDense(ss, acts, j);
    DenseBytes(NextBatch(ss[j]));
    BuffersSinceTake(ss, acts, i, j);
    CatSnoc(ss[j].buffers, Deref(ss[j].current));
    assert |NextBatch(ss[j])| / 2 >= 13;
    HalfTimes(|NextBatch(ss[j])| / 2);
  }

  lemma HalfTimes(n: nat)
    requires n >= 13
    ensures n * CAP >= 13 * CAP
  {
  }

  // ---------- starting and stopping ----------

  ghost predicate NotStopped(acts: seq<Action>, i: nat, j: nat)
    requires j <= |acts|
  {
    forall k :: i < k < j ==> acts[k] != Stop
  }

  /** The logger is running exactly if it was started and not stopped since. */
  lemma {:induction false} RunningIff(ss: seq<Logger>, acts: seq<Action>, j: nat)
    requires IsRun(ss, acts) && j <= |acts|
    ensures ss[j].running <==> exists i: nat :: i < j && acts[i] == Start && NotStopped(acts, i, j)
  {
    if j != 0 {
      RunningIff(ss, acts, j - 1);
      assert MovesAt(ss, acts, j - 1);
      if acts[j - 1] == Start {
        assert NotStopped(acts, j - 1, j);
      } else if ss[j].running {
        var i: nat :| i < j - 1 && acts[i] == Start && NotStopped(acts, i, j - 1);
        assert NotStopped(acts, i, j);
      }
      if i: nat :| i < j - 1 && acts[i] == Start && NotStopped(acts, i, j) {
        assert NotStopped(acts, i, j - 1);
      }
    }
  }

  /** The back thread goes on to another batch if the logger runs, and ends if and only if it was stopped. */
  lemma BackThreadEndsIff(ss: seq<Logger>, acts: seq<Action>, j: nat)
    requires IsRun(ss, acts) && j < |acts| && acts[j] == CheckRunning
    ensures ss[j + 1].pc == Off <==> !exists i: nat :: i < j && acts[i] == Start && NotStopped(acts, i, j)
    ensures ss[j + 1].pc == Off || ss[j + 1].pc == Waiting
  {
    RunningIff(ss, acts, j);
    assert MovesAt(ss, acts, j);
  }

  /** Nothing but that check ends it. */
  lemma OnlyCheckEnds(ss: seq<Logger>, acts: seq<Action>, j: nat)
    requires IsRun(ss, acts) && j < |acts| && ss[j].pc != Off && ss[j + 1].pc == Off
    ensures acts[j] == CheckRunning
  {
    assert MovesAt(ss, acts, j);
  }

  /** How far the back thread is from its end. */
  function Rank(pc: Pc): nat {
    match pc
    case Waiting => 0
    case Dropping => 1
    case Writing => 2
    case Starting => 3
    case Top => 3
    case Off => 4
  }

  /** Once stopped, the back thread only moves on towards its end: it takes a batch at most if it was
      already waiting for one. */
  lemma {:induction false} StopEndsAfterThisPass(ss: seq<Logger>, acts: seq<Action>, i: nat, j: nat)
    requires IsRun(ss, acts) && i <= j <= |acts| && !ss[i].running
    requires forall k :: i <= k < j ==> acts[k] != Start
    ensures !ss[j].running && Rank(ss[i].pc) <= Rank(ss[j].pc)
    ensures j < |acts| && acts[j] == Take ==> ss[i].pc == Waiting && ss[j + 1].pc == Dropping
  {
    if j < |acts| { assert MovesAt(ss, acts, j); }
    if i < j {
      StopEndsAfterThisPass(ss, acts, i, j - 1);
      assert MovesAt(ss, acts, j - 1);
    }
  }

  /** The back thread asserts that the logger is running. After a start in a stopped logger that
      holds if and only if nobody stops it before the thread begins. */
  lemma {:induction false} BeginAssertIff(ss: seq<Logger>, acts: seq<Action>, i: nat, j: nat)
    requires IsRun(ss, acts) && i < j <= |acts| && acts[i] == Start && !ss[i].running
    requires forall k :: i < k < j ==> acts[k] != Begin
    ensures ss[j].pc == Starting
    ensures ss[j].running <==> forall k :: i < k < j ==> acts[k] != Stop
  {
    assert MovesAt(ss, acts, j - 1);
    if i + 1 < j {
      BeginAssertIff(ss, acts, i, j - 1);
    }
  }

  /** It can fail: a start and a stop before the thread begins. */
  lemma BeginAssertCanFail() returns (ss: seq<Logger>, acts: seq<Action>)
    ensures IsRun(ss, acts) && |acts| == 3 && acts[2] == Begin && !ss[2].running
  {
    acts := [Start, Stop, Begin];
    var s1 := Step(INITIAL, Start);
    var s2 := Step(s1, Stop);
    ss := [INITIAL, s1, s2, Step(s2, Begin)];
    assert forall i :: 0 <= i < |acts| ==> MovesAt(ss, acts, i);
  }
}

module AsyncLoggers {
  import opened LoggerProtocol

  /** One method per section that holds the mutex and per step of the back thread, each of them
      exactly one step; `WriteBuffers` and `Pass` compose them, with the lines that arrive meanwhile as
      a parameter. */
  class AsyncLogger {
    var running: bool
    var pc: Pc
    var currentBuffer: Option<Buf>
    var nextBuffer: Option<Buf>
    var buffers: seq<Buf>

    /** The variables of the back thread. */
    var newBuffer1: Option<Buf>
    var newBuffer2: Option<Buf>
    var buffersToWrite: seq<Buf>
    var written: nat

    /** Histories. */
    ghost var doomed: seq<Buf>
    ghost var file: seq<Entry>
    ghost var handled: seq<Piece>
    ghost var appended: seq<char>

    ghost function View(): Logger
      reads this
    {
      Logger(running, pc, currentBuffer, nextBuffer, buffers, newBuffer1, newBuffer2, buffersToWrite, written,
             doomed, file, handled, appended)
    }

    ghost predicate Valid()
      reads this
    {
      Inv(View())
    }

    constructor ()
      ensures Valid() && View() == INITIAL
    {
      running, pc, currentBuffer, nextBuffer, buffers := false, Off, EMPTY, EMPTY, [];
      newBuffer1, newBuffer2, buffersToWrite, written := None, None, [], 0;
      doomed, file, handled, appended := [], [], [], [];
    }

    method Append(line: seq<char>)
      requires AssertsHold(View(), Action.Append(line))
      modifies this`currentBuffer, this`nextBuffer, this`buffers, this`appended
      ensures View() == Appended(old(View()), line)
      ensures buffers == old(buffers) <==> |line| < CAP - |old(currentBuffer).value|
    {
      RotatesIff(View(), line);
      if Avail(currentBuffer.value) <= |line| {
        buffers := buffers + [currentBuffer.value];
        if nextBuffer.Some? {
          currentBuffer, nextBuffer := nextBuffer, None;
        } else {
          currentBuffer := EMPTY;
        }
        assert |line| < CAP ==> Avail(currentBuffer.value) > |line|;
      }
      currentBuffer := Some(FixedAppend(currentBuffer.value, line));
      appended := appended + Accepted(line);
    }

    method Start()
      requires Enabled(View(), Action.Start)
      modifies this`running, this`pc
      ensures View() == Step(old(View()), Action.Start)
    {
      if !running {
        running, pc := true, Starting;
      }
    }

    /** `Stop` up to waiting for the back thread. */
    method Stop()
      modifies this`running
      ensures View() == Step(old(View()), Action.Stop)
    {
      running := false;
    }

    /** The start of the back thread. */
    method Begin()
      requires Enabled(View(), Action.Begin)
      modifies this`pc, this`newBuffer1, this`newBuffer2
      ensures View() == Step(old(View()), Action.Begin)
    {
      pc, newBuffer1, newBuffer2 := Top, EMPTY, EMPTY;
    }

    method CheckRunning() returns (more: bool)
      requires Enabled(View(), Action.CheckRunning)
      modifies this`pc, this`newBuffer1, this`newBuffer2
      ensures View() == Step(old(View()), Action.CheckRunning) && more == running
    {
      more := running;
      if more {
        pc := Waiting;
      } else {
        pc, newBuffer1, newBuffer2 := Off, None, None;
      }
    }

    /** The critical section of the back thread. */
    method TakeBatch()
      requires Enabled(View(), Take) && AssertsHold(View(), Take)
      modifies this`pc, this`currentBuffer, this`nextBuffer, this`buffers, this`newBuffer1, this`newBuffer2,
               this`buffersToWrite, this`written
      ensures View() == Taken(old(View()))
    {
      SwapBuffers();
      FillNext();
      pc, written := Dropping, 0;
    }

    method SwapBuffers()
      requires currentBuffer.Some?
      modifies this`currentBuffer, this`buffers, this`newBuffer1, this`buffersToWrite
      ensures View() == Swapped(old(View()))
    {
      buffersToWrite, buffers := buffers + [currentBuffer.value], [];
      currentBuffer, newBuffer1 := newBuffer1, None;
    }

    method FillNext()
      modifies this`nextBuffer, this`newBuffer2
      ensures View() == NextFilled(old(View()))
    {
      if nextBuffer.None? {
        nextBuffer, newBuffer2 := newBuffer2, None;
      }
    }

    method DropOverload()
      requires Enabled(View(), Drop)
      modifies this`pc, this`buffersToWrite, this`doomed, this`file
      ensures View() == Dropped(old(View()))
    {
      if |buffersToWrite| > OVERLOAD {
        file := file + [Notice(|buffersToWrite| - SURVIVORS)];
        doomed := buffersToWrite[SURVIVORS..];
        buffersToWrite := buffersToWrite[..SURVIVORS];
      }
      pc := Writing;
    }

    method WriteNext()
      requires Enabled(View(), WriteOne)
      modifies this`file, this`handled, this`written
      ensures View() == Wrote(old(View()))
    {
      var b := buffersToWrite[written];
      file := file + [Data(b)];
      handled := handled + [Piece(b, true)];
      written := written + 1;
    }

    /** Resizes the batch to two and takes the spare buffers from its back. */
    method RecycleBuffers()
      requires Enabled(View(), Recycle) && AssertsHold(View(), Recycle)
      modifies this`pc, this`newBuffer1, this`newBuffer2, this`buffersToWrite, this`written, this`doomed, this`handled
      ensures View() == Recycled(old(View()))
    {
      TakeSpares();
      buffersToWrite, written, pc := [], 0, Top;
      ForgetDoomed();
    }

    ghost method ForgetDoomed()
      modifies this`handled, this`doomed
      ensures View() == old(View()).(handled := old(handled) + AsPieces(old(doomed), false), doomed := [])
    {
      handled, doomed := handled + AsPieces(doomed, false), [];
    }

    /** The batch, cut to two, gives up its last buffer, and the one before it if that is needed. */
    method TakeSpares()
      requires buffersToWrite != [] && (newBuffer2.None? ==> |buffersToWrite| > 1)
      modifies this`newBuffer1, this`newBuffer2, this`buffersToWrite
      ensures newBuffer1 == EMPTY && newBuffer2 == if old(newBuffer2).None? then EMPTY else old(newBuffer2)
    {
      if |buffersToWrite| > 2 {
        buffersToWrite := buffersToWrite[..2];
      }
      newBuffer1, buffersToWrite := EMPTY, buffersToWrite[..|buffersToWrite| - 1];
      if newBuffer2.None? {
        newBuffer2, buffersToWrite := EMPTY, buffersToWrite[..|buffersToWrite| - 1];
      }
    }

    /** Lines that arrive while the batch taken in state `start` is written. */
    method AppendAll(lines: seq<seq<char>>, ghost start: Logger)
      requires WritingBatch(start, View())
      modifies this`currentBuffer, this`nextBuffer, this`buffers, this`appended
      ensures WritingBatch(start, View())
    {
      for i := 0 to |lines|
        invariant WritingBatch(start, View())
      {
        WritingKeepsAppend(start, View(), lines[i]);
        Append(lines[i]);
      }
    }

    /** `arrivals[k]` are the lines that arrive while the `k`-th buffer is written. */
    method WriteBuffers(arrivals: seq<seq<seq<char>>>, ghost start: Logger)
      requires WritingBatch(start, View())
      modifies this`file, this`handled, this`written, this`currentBuffer, this`nextBuffer, this`buffers, this`appended
      ensures WritingBatch(start, View()) && written >= |buffersToWrite|
    {
      var i := 0;
      while written < |buffersToWrite|
        invariant WritingBatch(start, View())
        decreases |buffersToWrite| - written
      {
        WriteMeanwhile(if i < |arrivals| then arrivals[i] else [], start);
        i := i + 1;
      }
    }

    method WriteMeanwhile(lines: seq<seq<char>>, ghost start: Logger)
      requires WritingBatch(start, View()) && written < |buffersToWrite|
      modifies this`file, this`handled, this`written, this`currentBuffer, this`nextBuffer, this`buffers, this`appended
      ensures WritingBatch(start, View()) && written == old(written) + 1
    {
      WritingKeepsWrite(start, View());
      WriteNext();
      AppendAll(lines, start);
    }

    /** The body of the loop of the back thread, whatever lines arrive while it runs. */
    method Pass(arrivals: seq<seq<seq<char>>>)
      requires Valid() && Enabled(View(), Take)
      modifies this
      ensures Valid() && pc == Top
      ensures file == old(file) + FileFate(old(buffers) + [Deref(old(currentBuffer))])
      ensures handled == old(handled) + Fate(old(buffers) + [Deref(old(currentBuffer))])
    {
      ghost var start := View();
      WritingStarts(start);
      TakeBatch();
      DropOverload();
      WriteBuffers(arrivals, start);
      WritingEnds(start, View());
      RecycleBuffers();
    }
  }
}
