/** EventLoop.cpp and Bridge.cpp: the queue of pending callbacks, the wake-up through an eventfd
    counter and the loop, as a state machine over the interleaved atomic steps of the loop thread and
    of any number of other threads. Module EventLoops ties the methods of the class to these steps. */
module LoopProtocol {

  /** The loop thread; every other number is another thread. */
  const LOOP: int := 0

  /** The largest value of an eventfd counter. */
  const COUNTER_MAX: nat := 0xffff_ffff_ffff_fffe

  /** A queued callback. `epoch` is how many times the queue had been swapped out when it was pushed;
      `outside` says that the loop thread pushed it while not inside `Loop()`. */
  datatype Callback = Callback(id: int, epoch: nat, outside: bool)

  /** Where the loop thread is: outside `Loop()`, about to read `quit_`, in poll, running the handlers
      of active channels, about to swap the queue, running the swapped batch. */
  datatype Phase = Idle | Checking | Polling | Handling | Swapping | Draining {
    function Rank(): nat {
      match this
      case Polling => 0
      case Handling => 1
      case Swapping => 2
      case Draining => 3
      case Checking => 4
      case Idle => 5
    }
  }

  /** `waking` are the threads that have pushed or set `quit` and not yet written their wake-up,
      `bridgeActive` says that poll has reported the eventfd and its handler has not yet run. `pushed`
      and `executed` are histories, `swaps` counts the swaps of the queue. */
  datatype Loop = Loop(phase: Phase, quit: bool, calling: bool, counter: nat, waking: set<int>, bridgeActive: bool,
                       pending: seq<Callback>, batch: seq<Callback>, executed: seq<Callback>, pushed: seq<Callback>,
                       swaps: nat)

  const INITIAL := Loop(Idle, false, false, 0, {}, false, [], [], [], [], 0)

  datatype Action =
    | Push(thread: int, id: int)
    | SetQuit(thread: int)
    | WakeUp(thread: int)
    | Enter
    | CheckQuit
    | PollReturns(bridge: bool)
    | ReadBridge
    | BeginDrain
    | Swap
    | RunNext
    | EndDrain

  /** Steps of other threads, or of user code that the loop thread is running. */
  predicate External(a: Action) { a.Push? || a.SetQuit? || a.WakeUp? }

  /** Code outside the loop itself runs on the loop thread only in these phases. */
  predicate UserCode(p: Phase) { p == Idle || p == Handling || p == Draining }

  /** A thread makes one call at a time, so it pushes only after its last wake-up was written. Poll
      reports the eventfd only if its counter is positive, and every active handler runs. */
  predicate Enabled(s: Loop, a: Action) {
    match a
    case Push(t, _) => t !in s.waking && (t == LOOP ==> UserCode(s.phase))
    case SetQuit(t) => t !in s.waking && (t == LOOP ==> UserCode(s.phase))
    case WakeUp(t) => t in s.waking
    case Enter => s.phase == Idle
    case CheckQuit => s.phase == Checking
    case PollReturns(bridge) => s.phase == Polling && (bridge ==> 0 < s.counter)
    case ReadBridge => s.phase == Handling && s.bridgeActive
    case BeginDrain => s.phase == Handling && !s.bridgeActive
    case Swap => s.phase == Swapping
    case RunNext => s.phase == Draining && LOOP !in s.waking && s.batch != []
    case EndDrain => s.phase == Draining && LOOP !in s.waking && s.batch == []
  }

  function Pushed(s: Loop, t: int, id: int): Loop {
    var cb := Callback(id, s.swaps, t == LOOP && s.phase == Idle);
    s.(pending := s.pending + [cb], pushed := s.pushed + [cb],
       waking := if t != LOOP || s.calling then s.waking + {t} else s.waking)
  }

  /** Writing to a full eventfd fails and leaves it full. Reading resets it. */
  function Step(s: Loop, a: Action): Loop
    requires Enabled(s, a)
  {
    match a
    case Push(t, id) => Pushed(s, t, id)
    case SetQuit(t) => s.(quit := true, waking := if t != LOOP then s.waking + {t} else s.waking)
    case WakeUp(t) =>
      s.(waking := s.waking - {t}, counter := if s.counter < COUNTER_MAX then s.counter + 1 else s.counter)
    case Enter => s.(phase := Checking, quit := false)
    case CheckQuit => s.(phase := if s.quit then Idle else Polling)
    case PollReturns(bridge) => s.(phase := Handling, bridgeActive := bridge)
    case ReadBridge => s.(counter := 0, bridgeActive := false)
    case BeginDrain => s.(phase := Swapping, calling := true)
    case Swap => s.(phase := Draining, batch := s.pending, pending := [], swaps := s.swaps + 1)
    case RunNext => s.(executed := s.executed + [s.batch[0]], batch := s.batch[1..])
    case EndDrain => s.(phase := Checking, calling := false)
  }

  ghost predicate Moves(s: Loop, a: Action, s': Loop) { Enabled(s, a) && s' == Step(s, a) }

  ghost predicate MovesAt(ss: seq<Loop>, acts: seq<Action>, i: nat)
    requires i < |acts| < |ss|
  {
    Moves(ss[i], acts[i], ss[i + 1])
  }

  ghost predicate IsRun(ss: seq<Loop>, acts: seq<Action>) {
    && |ss| == |acts| + 1 && ss[0] == INITIAL
    && forall i :: 0 <= i < |acts| ==> MovesAt(ss, acts, i)
  }

  // ---------- the invariant ----------

  /** The next poll returns at once, or some thread is about to make it return. */
  ghost predicate Signalled(s: Loop) { 0 < s.counter || exists t :: t in s.waking }

  ghost predicate AllOutside(q: seq<Callback>) { forall i :: 0 <= i < |q| ==> q[i].outside }

  /** Unless the loop is between leaving poll and swapping the queue, whatever is pending was
      signalled, except for what the loop thread pushed outside `Loop()`. */
  ghost predicate PendingSignalled(s: Loop) {
    s.phase != Handling && s.phase != Swapping && !Signalled(s) ==> AllOutside(s.pending)
  }

  ghost predicate QuitSignalled(s: Loop) { s.phase == Polling && s.quit ==> Signalled(s) }

  /** Nothing is lost, duplicated or reordered. */
  ghost predicate Conserved(s: Loop) { s.pushed == s.executed + s.batch + s.pending }

  ghost predicate PhaseAgrees(s: Loop) {
    && (s.calling <==> s.phase == Swapping || s.phase == Draining)
    && (s.batch != [] ==> s.phase == Draining)
    && (s.bridgeActive ==> s.phase == Handling && 0 < s.counter)
    && (LOOP in s.waking ==> s.phase == Draining)
  }

  ghost predicate HaveEpoch(q: seq<Callback>, epoch: int) { forall i :: 0 <= i < |q| ==> q[i].epoch == epoch }

  ghost predicate Epochs(s: Loop) { HaveEpoch(s.pending, s.swaps) && HaveEpoch(s.batch, s.swaps - 1) }

  ghost predicate Inv(s: Loop) {
    PendingSignalled(s) && QuitSignalled(s) && Conserved(s) && PhaseAgrees(s) && Epochs(s) && s.counter <= COUNTER_MAX
  }

  lemma PushKeepsInv(s: Loop, t: int, id: int)
    requires Inv(s) && Enabled(s, Push(t, id))
    ensures Inv(Pushed(s, t, id))
  {
    var s' := Pushed(s, t, id);
    assert s'.pushed == s.executed + s.batch + (s.pending + [Callback(id, s.swaps, t == LOOP && s.phase == Idle)]);
    if s'.waking != s.waking { assert t in s'.waking; }
  }

  lemma StepKeepsInv(s: Loop, a: Action)
    requires Inv(s) && Enabled(s, a)
    ensures Inv(Step(s, a))
  {
    match a
    case Push(t, id) => PushKeepsInv(s, t, id);
    case SetQuit(t) => assert t != LOOP ==> t in Step(s, a).waking;
    case RunNext => assert s.batch == [s.batch[0]] + s.batch[1..];
    case _ =>
  }

  /** The invariant holds throughout every run, over all interleavings. */
  lemma {:induction false} RunsKeepInv(ss: seq<Loop>, acts: seq<Action>, i: nat)
    requires IsRun(ss, acts) && i <= |acts|
    ensures Inv(ss[i]) && ss[i].executed <= ss[i].pushed
  {
    if i != 0 {
      RunsKeepInv(ss, acts, i - 1);
      assert MovesAt(ss, acts, i - 1);
      StepKeepsInv(ss[i - 1], acts[i - 1]);
    }
  }

  // ---------- no wake-up is lost ----------

  /** The loop may block although it has something to do, and nobody is about to wake it. */
  ghost predicate Stuck(s: Loop) {
    s.phase == Polling && !Signalled(s) && (s.pending != [] || s.quit)
  }

  /** The loop thread enqueues only inside `Loop()`, from the callbacks it runs. */
  ghost predicate NoOutsidePush(ss: seq<Loop>, acts: seq<Action>) {
    forall i :: 0 <= i < |acts| && acts[i].Push? && acts[i].thread == LOOP ==> i < |ss| && ss[i].phase != Idle
  }

  lemma {:induction false} HistoryIsInside(ss: seq<Loop>, acts: seq<Action>, i: nat)
    requires IsRun(ss, acts) && NoOutsidePush(ss, acts) && i <= |acts|
    ensures forall k :: 0 <= k < |ss[i].pushed| ==> !ss[i].pushed[k].outside
  {
    if i != 0 {
      HistoryIsInside(ss, acts, i - 1);
      assert MovesAt(ss, acts, i - 1);
      if acts[i - 1].Push? { assert acts[i - 1].thread == LOOP ==> ss[i - 1].phase != Idle; }
    }
  }

  /** No wake-up is lost: in poll with a callback pending or `quit` set, the counter is positive or
      another thread is about to write it. */
  lemma NoLostWakeUp(ss: seq<Loop>, acts: seq<Action>, i: nat)
    requires IsRun(ss, acts) && NoOutsidePush(ss, acts) && i <= |acts|
    ensures !Stuck(ss[i])
    ensures ss[i].phase == Polling && (ss[i].pending != [] || ss[i].quit) && ss[i].counter == 0 ==>
              exists t :: t in ss[i].waking && t != LOOP
  {
    RunsKeepInv(ss, acts, i);
    HistoryIsInside(ss, acts, i);
    var s := ss[i];
    if s.phase == Polling && (s.pending != [] || s.quit) && s.counter == 0 {
      if s.pending != [] {
        assert s.pushed[|s.executed| + |s.batch|] == s.pending[0];
      }
      assert Signalled(s);
      var t :| t in s.waking;
      assert t != LOOP;
    }
  }

  /** Without that restriction a stuck loop has only callbacks pending that the loop thread pushed
      outside `Loop()`. */
  lemma StuckOnlyByOutsidePush(ss: seq<Loop>, acts: seq<Action>, i: nat)
    requires IsRun(ss, acts) && i <= |acts| && Stuck(ss[i])
    ensures ss[i].pending != [] && AllOutside(ss[i].pending)
  {
    RunsKeepInv(ss, acts, i);
  }

  /** Another thread pushes or quits, and will write a wake-up. */
  predicate Rouses(a: Action) { (a.Push? || a.SetQuit?) && a.thread != LOOP }

  ghost predicate NotYetPolling(ss: seq<Loop>, i: nat, j: nat)
    requires j <= |ss|
  {
    forall k :: i < k < j ==> ss[k].phase == Idle || ss[k].phase == Checking
  }

  /** On the way to poll nothing is read off the counter, so a signal lasts. */
  lemma {:induction false} SignalLasts(ss: seq<Loop>, acts: seq<Action>, i: nat, j: nat)
    requires IsRun(ss, acts) && i < j <= |acts| && NotYetPolling(ss, i, j)
    requires acts[i].Push? && acts[i].thread == LOOP && ss[i].phase == Idle
    ensures ss[j].pending != []
    ensures Signalled(ss[j]) <==> Signalled(ss[i]) || exists k :: i < k < j && Rouses(acts[k])
  {
    var s, a, s' := ss[j - 1], acts[j - 1], ss[j];
    assert MovesAt(ss, acts, j - 1);
    RunsKeepInv(ss, acts, j - 1);
    if i + 1 < j {
      SignalLasts(ss, acts, i, j - 1);
      StepSignals(s, a);
    }
  }

  lemma StepSignals(s: Loop, a: Action)
    requires Enabled(s, a) && (s.phase == Idle || s.phase == Checking) && PhaseAgrees(s)
    ensures Signalled(Step(s, a)) <==> Signalled(s) || Rouses(a)
  {
    var s' := Step(s, a);
    if (a.Push? || a.SetQuit?) && a.thread != LOOP { assert a.thread in s'.waking; }
    if t :| t in s.waking { assert t in s'.waking || 0 < s'.counter; }
  }

  /** What the loop thread pushes outside `Loop()` gets stuck when it next reaches poll if and only if
      nothing is signalled at the push and no other thread pushes or quits before the poll. */
  lemma OutsidePushGetsStuckIff(ss: seq<Loop>, acts: seq<Action>, i: nat, j: nat)
    requires IsRun(ss, acts) && i < j <= |acts| && NotYetPolling(ss, i, j) && ss[j].phase == Polling
    requires acts[i].Push? && acts[i].thread == LOOP && ss[i].phase == Idle
    ensures Stuck(ss[j]) <==> !Signalled(ss[i]) && forall k :: i < k < j ==> !Rouses(acts[k])
  {
    SignalLasts(ss, acts, i, j);
  }

  /** It does get stuck: a push before the loop is entered, and nothing else. */
  lemma OutsidePushCanGetStuck(id: int) returns (ss: seq<Loop>, acts: seq<Action>)
    ensures IsRun(ss, acts) && acts == [Push(LOOP, id), Enter, CheckQuit] && Stuck(ss[3])
  {
    acts := [Push(LOOP, id), Enter, CheckQuit];
    var s1 := Step(INITIAL, Push(LOOP, id));
    var s2 := Step(s1, Enter);
    ss := [INITIAL, s1, s2, Step(s2, CheckQuit)];
    assert forall i :: 0 <= i < |acts| ==> MovesAt(ss, acts, i);
  }

  /** The handler of the eventfd never finds it empty. */
  lemma BridgeReadSucceeds(ss: seq<Loop>, acts: seq<Action>, i: nat)
    requires IsRun(ss, acts) && i < |acts| && acts[i] == ReadBridge
    ensures 0 < ss[i].counter && ss[i + 1].counter == 0
  {
    RunsKeepInv(ss, acts, i);
    assert MovesAt(ss, acts, i);
  }

  /** How many wake-ups were written since the eventfd was last read. */
  function WakesSinceRead(acts: seq<Action>, j: nat): nat
    requires j <= |acts|
  {
    if j == 0 || acts[j - 1] == ReadBridge then 0
    else WakesSinceRead(acts, j - 1) + if acts[j - 1].WakeUp? then 1 else 0
  }

  /** The counter is that number, up to its largest value. */
  lemma {:induction false} CounterCountsWakes(ss: seq<Loop>, acts: seq<Action>, j: nat)
    requires IsRun(ss, acts) && j <= |acts|
    ensures ss[j].counter == if WakesSinceRead(acts, j) <= COUNTER_MAX then WakesSinceRead(acts, j) else COUNTER_MAX
  {
    if j != 0 {
      CounterCountsWakes(ss, acts, j - 1);
      assert MovesAt(ss, acts, j - 1);
    }
  }

  // ---------- order, and batches ----------

  /** Callbacks run at most once and in push order, throughout every run. */
  lemma PushesAreConserved(ss: seq<Loop>, acts: seq<Action>, i: nat)
    requires IsRun(ss, acts) && i <= |acts|
    ensures ss[i].pushed == ss[i].executed + ss[i].batch + ss[i].pending
  {
    RunsKeepInv(ss, acts, i);
  }

  ghost predicate Grows(s: Loop, s': Loop) { s.pushed <= s'.pushed && s.executed <= s'.executed && s.swaps <= s'.swaps }

  lemma {:induction false} HistoriesGrow(ss: seq<Loop>, acts: seq<Action>, i: nat, j: nat)
    requires IsRun(ss, acts) && i <= j <= |acts|
    ensures Grows(ss[i], ss[j])
  {
    if i < j {
      HistoriesGrow(ss, acts, i, j - 1);
      assert MovesAt(ss, acts, j - 1);
      assert Grows(ss[j - 1], ss[j]);
    }
  }

  /** The callback pushed at step `i`, if it is the one that runs at step `j`, runs in the first drain
      that swaps the queue after the push: a batch never runs what it enqueues itself. */
  lemma RunsInNextDrain(ss: seq<Loop>, acts: seq<Action>, i: nat, j: nat)
    requires IsRun(ss, acts) && i < |acts| && j < |acts|
    requires acts[i].Push? && acts[j] == RunNext && |ss[j].executed| == |ss[i].pushed|
    ensures i < j && ss[j].batch != [] && ss[j].batch[0].id == acts[i].id && ss[j].swaps == ss[i].swaps + 1
  {
    var s, s' := ss[i], ss[j];
    RunsKeepInv(ss, acts, i);
    RunsKeepInv(ss, acts, j);
    assert MovesAt(ss, acts, i) && MovesAt(ss, acts, j);
    assert s'.pushed[|s'.executed|] == s'.batch[0];
    if j <= i {
      HistoriesGrow(ss, acts, j, i);
      assert false;
    }
    HistoriesGrow(ss, acts, i + 1, j);
    assert ss[i + 1].pushed[|s.pushed|] == s'.pushed[|s.pushed|];
  }

  /** Until the drain begun by the swap at step `i` ends, it works on the callbacks pending at that
      swap and no others. */
  lemma {:induction false} DrainRunsFixedBatch(ss: seq<Loop>, acts: seq<Action>, i: nat, j: nat)
    requires IsRun(ss, acts) && i < j <= |acts| && acts[i] == Swap
    requires forall k :: i < k < j ==> acts[k] != EndDrain
    ensures ss[j].phase == Draining && ss[j].swaps == ss[i].swaps + 1
    ensures ss[j].executed + ss[j].batch == ss[i].executed + ss[i].pending
  {
    assert MovesAt(ss, acts, j - 1);
    if i + 1 == j {
      RunsKeepInv(ss, acts, i);
    } else {
      DrainRunsFixedBatch(ss, acts, i, j - 1);
      if acts[j - 1] == RunNext {
        assert ss[j - 1].batch == [ss[j - 1].batch[0]] + ss[j].batch;
      }
    }
  }

  /** When it ends it has run exactly these. */
  lemma DrainEndsWithBatch(ss: seq<Loop>, acts: seq<Action>, i: nat, j: nat)
    requires IsRun(ss, acts) && i < j < |acts| && acts[i] == Swap && acts[j] == EndDrain
    requires forall k :: i < k < j ==> acts[k] != EndDrain
    ensures ss[j + 1].executed == ss[i].executed + ss[i].pending
  {
    DrainRunsFixedBatch(ss, acts, i, j);
    assert MovesAt(ss, acts, j);
  }

  // ---------- quitting ----------

  /** Once `quit` is set inside `Loop()` the loop thread only moves on towards its end: it finishes the
      current pass, runs at most the one batch that is still to be swapped, and enters poll no more. */
  lemma {:induction false} QuitEndsAfterThisPass(ss: seq<Loop>, acts: seq<Action>, i: nat, j: nat)
    requires IsRun(ss, acts) && i <= j <= |acts| && ss[i].quit
    requires forall k :: i <= k < j ==> acts[k] != Enter
    ensures ss[j].quit && ss[i].phase.Rank() <= ss[j].phase.Rank()
    ensures ss[j].swaps == ss[i].swaps + if ss[i].phase.Rank() <= 2 < ss[j].phase.Rank() then 1 else 0
  {
    if i < j {
      QuitEndsAfterThisPass(ss, acts, i, j - 1);
      assert MovesAt(ss, acts, j - 1);
    }
  }

  ghost predicate NotEntered(acts: seq<Action>, i: nat, j: nat)
    requires j <= |acts|
  {
    forall k :: i < k < j ==> acts[k] != Enter
  }

  /** `quit` is set exactly if somebody asked for it since the loop was last entered: entering the
      loop forgets every earlier request. */
  lemma {:induction false} QuitIsSetIff(ss: seq<Loop>, acts: seq<Action>, j: nat)
    requires IsRun(ss, acts) && j <= |acts|
    ensures ss[j].quit <==> exists i: nat :: i < j && acts[i].SetQuit? && NotEntered(acts, i, j)
  {
    if j != 0 {
      QuitIsSetIff(ss, acts, j - 1);
      assert MovesAt(ss, acts, j - 1);
      if acts[j - 1].SetQuit? {
        assert NotEntered(acts, j - 1, j);
      } else if ss[j].quit {
        var i: nat :| i < j - 1 && acts[i].SetQuit? && NotEntered(acts, i, j - 1);
        assert NotEntered(acts, i, j);
      }
      if i: nat :| i < j - 1 && acts[i].SetQuit? && NotEntered(acts, i, j) {
        assert NotEntered(acts, i, j - 1);
      }
    }
  }

  /** The loop goes on to poll, or is left if and only if somebody asked it to quit since it was last
      entered. */
  lemma LoopIsLeftIff(ss: seq<Loop>, acts: seq<Action>, j: nat)
    requires IsRun(ss, acts) && j < |acts| && acts[j] == CheckQuit
    ensures ss[j + 1].phase == Idle <==> exists i: nat :: i < j && acts[i].SetQuit? && NotEntered(acts, i, j)
    ensures ss[j + 1].phase == Idle || ss[j + 1].phase == Polling
  {
    QuitIsSetIff(ss, acts, j);
    assert MovesAt(ss, acts, j);
  }

  /** Nothing but that check leaves it. */
  lemma OnlyCheckLeaves(ss: seq<Loop>, acts: seq<Action>, j: nat)
    requires IsRun(ss, acts) && j < |acts| && ss[j].phase != Idle && ss[j + 1].phase == Idle
    ensures acts[j] == CheckQuit
  {
    assert MovesAt(ss, acts, j);
  }

  /** Until the next `CheckQuit`, the loop is entered only from outside. */
  lemma {:induction false} QuitUntilCheck(ss: seq<Loop>, acts: seq<Action>, i: nat, j: nat)
    requires IsRun(ss, acts) && i < j <= |acts| && acts[i].SetQuit?
    requires forall k :: i < k < j ==> !acts[k].SetQuit? && acts[k] != CheckQuit
    ensures ss[i].phase != Idle ==> ss[j].quit && ss[j].phase != Idle
    ensures ss[i].phase == Idle ==> ss[j].phase == Idle || !ss[j].quit
  {
    assert MovesAt(ss, acts, j - 1);
    if i + 1 < j {
      QuitUntilCheck(ss, acts, i, j - 1);
    }
  }

  /** The next check of the loop sees a request to quit if and only if it was made inside `Loop()`. */
  lemma QuitIsSeenIff(ss: seq<Loop>, acts: seq<Action>, i: nat, j: nat)
    requires IsRun(ss, acts) && i < j < |acts| && acts[i].SetQuit? && acts[j] == CheckQuit
    requires forall k :: i < k < j ==> !acts[k].SetQuit? && acts[k] != CheckQuit
    ensures ss[j].quit <==> ss[i].phase != Idle
  {
    QuitUntilCheck(ss, acts, i, j);
    assert MovesAt(ss, acts, j);
  }

  /** It can go unseen: another thread quits, and only then the loop is entered. */
  lemma QuitCanBeForgotten(t: int) returns (ss: seq<Loop>, acts: seq<Action>)
    requires t != LOOP
    ensures IsRun(ss, acts) && acts == [SetQuit(t), Enter, CheckQuit] && ss[3].phase == Polling
  {
    acts := [SetQuit(t), Enter, CheckQuit];
    var s1 := Step(INITIAL, SetQuit(t));
    var s2 := Step(s1, Enter);
    ss := [INITIAL, s1, s2, Step(s2, CheckQuit)];
    assert forall i :: 0 <= i < |acts| ==> MovesAt(ss, acts, i);
  }

  /** What is pending when the loop is left stays pending until it is entered again. */
  lemma {:induction false} NothingRunsOutside(ss: seq<Loop>, acts: seq<Action>, i: nat, j: nat)
    requires IsRun(ss, acts) && i <= j <= |acts| && ss[i].phase == Idle
    requires forall k :: i <= k < j ==> acts[k] != Enter
    ensures ss[j].phase == Idle && ss[j].executed == ss[i].executed && ss[i].pending <= ss[j].pending
  {
    if i < j {
      NothingRunsOutside(ss, acts, i, j - 1);
      assert MovesAt(ss, acts, j - 1);
    }
  }

  // ---------- paths ----------

  /** `acts` leads from `s` to `s'`. */
  ghost predicate Leads(s: Loop, acts: seq<Action>, s': Loop)
    decreases |acts|
  {
    if acts == [] then s == s'
    else
      var n := |acts| - 1;
      exists m :: Leads(s, acts[..n], m) && Moves(m, acts[n], s')
  }

  lemma {:induction false} PathsKeepInv(s: Loop, acts: seq<Action>, s': Loop)
    requires Inv(s) && Leads(s, acts, s')
    ensures Inv(s') && s.pushed <= s'.pushed
    decreases |acts|
  {
    if acts != [] {
      var n := |acts| - 1;
      var m :| Leads(s, acts[..n], m) && Moves(m, acts[n], s');
      PathsKeepInv(s, acts[..n], m);
      StepKeepsInv(m, acts[n]);
    }
  }

  /** A path from a swap that has run the whole batch leaves pending exactly what was pushed on it. */
  lemma DrainedContents(atSwap: Loop, rest: seq<Action>, s: Loop)
    requires Inv(atSwap) && Enabled(atSwap, Swap) && Leads(Step(atSwap, Swap), rest, s)
    requires s.phase == Checking && s.executed == atSwap.executed + atSwap.pending
    ensures Inv(s) && atSwap.pushed <= s.pushed && s.pending == s.pushed[|atSwap.pushed|..]
  {
    StepKeepsInv(atSwap, Swap);
    PathsKeepInv(Step(atSwap, Swap), rest, s);
  }

  lemma LeadsSnoc(s: Loop, acts: seq<Action>, m: Loop, a: Action)
    requires Leads(s, acts, m) && Enabled(m, a)
    ensures Leads(s, acts + [a], Step(m, a))
  {
    assert (acts + [a])[..|acts|] == acts;
    assert Moves(m, a, Step(m, a));
  }
}

module EventLoops {
  import opened LoopProtocol

  /** One method per atomic section, each of them exactly one step, so that StepKeepsInv carries
      `Valid` over. The drain, with its loop, is a path of steps; what other threads and the callbacks
      do meanwhile is a parameter. */
  class EventLoop {
    var phase: Phase
    var quit: bool
    var callingPendingCbs: bool
    var pendingCbsQueue: seq<Callback>

    /** The counter of the eventfd of the bridge, and whether poll has put the bridge on the list of
        active channels. */
    var counter: nat
    var bridgeActive: bool

    /** Threads between a push, or setting `quit`, and their wake-up. */
    var waking: set<int>

    var batch: seq<Callback>
    var swaps: nat

    /** Histories. */
    var executed: seq<Callback>
    var pushed: seq<Callback>

    function View(): Loop
      reads this
    {
      Loop(phase, quit, callingPendingCbs, counter, waking, bridgeActive, pendingCbsQueue, batch, executed, pushed, swaps)
    }

    ghost predicate Valid()
      reads this
    {
      Inv(View())
    }

    constructor ()
      ensures Valid() && View() == INITIAL
    {
      phase, quit, callingPendingCbs, pendingCbsQueue := Idle, false, false, [];
      counter, bridgeActive, waking, batch, executed, pushed, swaps := 0, false, {}, [], [], [], 0;
    }

    method EnqueueEventLoop(thread: int, id: int)
      requires Enabled(View(), Push(thread, id))
      modifies this`pendingCbsQueue, this`pushed, this`waking
      ensures View() == Step(old(View()), Push(thread, id))
    {
      var cb := Callback(id, swaps, thread == LOOP && phase == Idle);
      pendingCbsQueue := pendingCbsQueue + [cb];
      pushed := pushed + [cb];
      if thread != LOOP || callingPendingCbs {
        waking := waking + {thread};
      }
    }

    /** On the loop thread the callback runs at once, ahead of the queue. */
    method RunInEventLoop(thread: int, id: int) returns (atOnce: bool)
      requires Enabled(View(), Push(thread, id))
      modifies this`pendingCbsQueue, this`pushed, this`waking
      ensures atOnce == (thread == LOOP)
      ensures View() == if atOnce then old(View()) else Step(old(View()), Push(thread, id))
    {
      atOnce := thread == LOOP;
      if !atOnce {
        EnqueueEventLoop(thread, id);
      }
    }

    /** `Quit` up to its wake-up. */
    method Quit(thread: int)
      requires Enabled(View(), SetQuit(thread))
      modifies this`quit, this`waking
      ensures View() == Step(old(View()), SetQuit(thread))
    {
      quit := true;
      if thread != LOOP {
        waking := waking + {thread};
      }
    }

    method WakeUp(thread: int)
      requires Enabled(View(), Action.WakeUp(thread))
      modifies this`counter, this`waking
      ensures View() == Step(old(View()), Action.WakeUp(thread))
    {
      if counter < COUNTER_MAX {
        counter := counter + 1;
      }
      waking := waking - {thread};
    }

    /** The start of `Loop()`. */
    method Enter()
      requires Enabled(View(), Action.Enter)
      modifies this`phase, this`quit
      ensures View() == Step(old(View()), Action.Enter)
    {
      phase, quit := Checking, false;
    }

    /** The head of the loop: `more` says that there is another pass. */
    method CheckQuit() returns (more: bool)
      requires Enabled(View(), Action.CheckQuit)
      modifies this`phase
      ensures View() == Step(old(View()), Action.CheckQuit) && more == !quit
    {
      more := !quit;
      phase := if more then Polling else Idle;
    }

    method Poll(bridge: bool)
      requires Enabled(View(), PollReturns(bridge))
      modifies this`phase, this`bridgeActive
      ensures View() == Step(old(View()), PollReturns(bridge))
    {
      phase, bridgeActive := Handling, bridge;
    }

    /** The read never fails: `n` is what it found. */
    method HandleWakeUpFdRead() returns (n: nat)
      requires Valid() && Enabled(View(), ReadBridge)
      modifies this`counter, this`bridgeActive
      ensures Valid() && View() == Step(old(View()), ReadBridge) && 0 < n == old(counter)
    {
      StepKeepsInv(View(), ReadBridge);
      n := counter;
      counter, bridgeActive := 0, false;
    }

    /** Steps of other threads and, unless `others`, of user code on the loop thread; those that
        cannot happen now do not. */
    method Interleave(acts: seq<Action>, others: bool, ghost start: Loop, ghost before: seq<Action>)
        returns (ghost trace: seq<Action>)
      requires Leads(start, before, View())
      modifies this`quit, this`counter, this`waking, this`pendingCbsQueue, this`pushed
      ensures Leads(start, trace, View()) && old(pendingCbsQueue) <= pendingCbsQueue
      ensures others && LOOP !in old(waking) ==> LOOP !in waking
    {
      trace := before;
      for i := 0 to |acts|
        invariant Leads(start, trace, View()) && old(pendingCbsQueue) <= pendingCbsQueue
        invariant others && LOOP !in old(waking) ==> LOOP !in waking
      {
        var a := acts[i];
        if Enabled(View(), a) && External(a) && !(others && a.thread == LOOP) {
          LeadsSnoc(start, trace, View(), a);
          trace := trace + [a];
          match a {
            case Push(t, id) => EnqueueEventLoop(t, id);
            case SetQuit(t) => Quit(t);
            case WakeUp(t) => WakeUp(t);
          }
        }
      }
    }

    /** Runs exactly the callbacks that are pending at the swap, in order; what is pushed after it stays
        pending. `beforeSwap` and `afterSwap` are what other threads do between the flag and the swap,
        and between the swap and the first callback; `during[k]` is what happens while the `k`-th
        callback runs. `toSwap` and `rest` are the paths to the state `atSwap` and from the swap on. */
    method HandlePendingCallbacks(beforeSwap: seq<Action>, afterSwap: seq<Action>, during: seq<seq<Action>>)
        returns (ghost toSwap: seq<Action>, ghost atSwap: Loop, ghost rest: seq<Action>)
      requires Valid() && Enabled(View(), BeginDrain)
      modifies this
      ensures Valid() && phase == Checking
      ensures Leads(old(View()), toSwap, atSwap) && Enabled(atSwap, Swap) && Leads(Step(atSwap, Swap), rest, View())
      ensures old(pendingCbsQueue) <= atSwap.pending && executed == old(executed) + atSwap.pending
      ensures atSwap.pushed <= pushed && pendingCbsQueue == pushed[|atSwap.pushed|..] && swaps == old(swaps) + 1
    {
      ghost var start := View();
      toSwap := StartCalling([], start);
      toSwap := Interleave(beforeSwap, true, start, toSwap);
      atSwap := View();
      PathsKeepInv(start, toSwap, atSwap);
      rest := SwapAndRun(afterSwap, during);
    }

    /** The swap and what follows it. */
    method SwapAndRun(afterSwap: seq<Action>, during: seq<seq<Action>>) returns (ghost rest: seq<Action>)
      requires Valid() && phase == Swapping
      modifies this
      ensures Valid() && phase == Checking && Leads(Step(old(View()), Swap), rest, View())
      ensures executed == old(executed) + old(pendingCbsQueue) && swaps == old(swaps) + 1
      ensures old(pushed) <= pushed && pendingCbsQueue == pushed[|old(pushed)|..]
    {
      ghost var atSwap := View();
      SwapPending();
      rest := RunSwapped(afterSwap, during);
      DrainedContents(atSwap, rest, View());
    }

    method RunSwapped(afterSwap: seq<Action>, during: seq<seq<Action>>) returns (ghost rest: seq<Action>)
      requires phase == Draining && callingPendingCbs && LOOP !in waking
      modifies this`executed, this`batch, this`quit, this`counter, this`waking, this`pendingCbsQueue, this`pushed,
               this`phase, this`callingPendingCbs
      ensures Leads(old(View()), rest, View()) && phase == Checking
      ensures executed == old(executed) + old(batch)
    {
      ghost var start := View();
      rest := Interleave(afterSwap, true, start, []);
      rest := RunBatch(during, rest, start);
      rest := StopCalling(rest, start);
    }

    method StartCalling(ghost before: seq<Action>, ghost start: Loop) returns (ghost trace: seq<Action>)
      requires Enabled(View(), BeginDrain) && Leads(start, before, View())
      modifies this`phase, this`callingPendingCbs
      ensures View() == Step(old(View()), BeginDrain) && Leads(start, trace, View())
    {
      LeadsSnoc(start, before, View(), BeginDrain);
      trace := before + [BeginDrain];
      phase, callingPendingCbs := Swapping, true;
    }

    /** The critical section of the drain. */
    method SwapPending()
      requires Enabled(View(), Swap)
      modifies this`phase, this`batch, this`pendingCbsQueue, this`swaps
      ensures View() == Step(old(View()), Swap)
    {
      phase, swaps := Draining, swaps + 1;
      batch, pendingCbsQueue := pendingCbsQueue, [];
    }

    method StopCalling(ghost before: seq<Action>, ghost start: Loop) returns (ghost trace: seq<Action>)
      requires Enabled(View(), EndDrain) && Leads(start, before, View())
      modifies this`phase, this`callingPendingCbs
      ensures View() == Step(old(View()), EndDrain) && Leads(start, trace, View())
    {
      LeadsSnoc(start, before, View(), EndDrain);
      trace := before + [EndDrain];
      phase, callingPendingCbs := Checking, false;
    }

    method RunBatch(during: seq<seq<Action>>, ghost before: seq<Action>, ghost start: Loop) returns (ghost trace: seq<Action>)
      requires phase == Draining && LOOP !in waking && Leads(start, before, View())
      modifies this`executed, this`batch, this`quit, this`counter, this`waking, this`pendingCbsQueue, this`pushed
      ensures LOOP !in waking && Leads(start, trace, View())
      ensures batch == [] && executed == old(executed) + old(batch)
    {
      trace := before;
      ghost var all := batch;
      for i := 0 to |batch|
        invariant LOOP !in waking && Leads(start, trace, View())
        invariant i <= |all| && batch == all[i..] && executed == old(executed) + all[..i]
      {
        trace := RunFirst(if i < |during| then during[i] else [], start, trace);
        assert all[..i + 1] == all[..i] + [all[i]];
      }
    }

    /** Runs the first callback of the batch. If it enqueues, it also writes the wake-up. */
    method RunFirst(during: seq<Action>, ghost start: Loop, ghost before: seq<Action>) returns (ghost trace: seq<Action>)
      requires Enabled(View(), RunNext) && Leads(start, before, View())
      modifies this`executed, this`batch, this`quit, this`counter, this`waking, this`pendingCbsQueue, this`pushed
      ensures LOOP !in waking && Leads(start, trace, View())
      ensures executed == old(executed) + [old(batch)[0]] && batch == old(batch)[1..]
    {
      LeadsSnoc(start, before, View(), RunNext);
      trace := before + [RunNext];
      executed, batch := executed + [batch[0]], batch[1..];
      trace := Interleave(during, false, start, trace);
      if LOOP in waking {
        LeadsSnoc(start, trace, View(), Action.WakeUp(LOOP));
        trace := trace + [Action.WakeUp(LOOP)];
        WakeUp(LOOP);
      }
    }
  }
}
