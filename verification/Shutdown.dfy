/** Serve's exit: four writer goroutines, one cancel, bounded sequential joins, the HTTP drain
    and the defer stack, as a state machine whose steps interleave freely. */
module Shutdown {
  import opened Wrappers

  /** The four joined writers, in join order. */
  const WATCHER := 0
  const FEES := 1
  const PRUNER := 2
  const SEALER := 3
  const WRITERS := 4

  type Writer = i: nat | i < WRITERS

  /** The two bounds: how long each join waits, and how long the HTTP drain may take. */
  datatype Limits = Limits(drain: nat, http: nat)

  /** Who called joinBackgroundWriters: shutdownServer, or the deferred abrupt-exit join. */
  datatype Caller = Orderly | Deferred

  /** The defers registered by the time the writers are live, in registration order. */
  datatype Defer = CloseDb | Cancel | JoinOnce | StopSignals

  /** Where the serve goroutine stands. */
  datatype Pc =
    | Setup                                   // writers live, not yet in the select
    | Serving                                 // blocked in the select
    | Sample(caller: Caller, next: nat)       // reading the done-channels, short-circuited
    | CancelStep(caller: Caller)              // about to cancel
    | Join(caller: Caller, next: nat)         // waiting for writer `next`, or past the last
    | Http(waited: nat)                       // draining HTTP
    | SetFlag                                 // shutdownJoined = true
    | Unwind                                  // running defers, last registered first
    | Exited

  /** waits[i] is how long join i waited, or has waited so far.  live is what the join sampled. */
  datatype State = State(
    pc: Pc,
    defers: seq<Defer>,
    returned: seq<bool>,
    gaveUp: seq<bool>,
    waits: seq<nat>,
    cancelled: bool,
    flag: bool,
    joins: nat,
    live: bool,
    drainedNotice: bool,
    dbClosed: bool,
    abrupt: bool)

  predicate Shaped(s: State) {
    |s.returned| == |s.gaveUp| == |s.waits| == WRITERS
  }

  /** Every writer started; any but the pruner may have returned already (a done-channel of a
      writer that was never configured is closed from the start). */
  predicate Init(s: State) {
    && Shaped(s)
    && s.pc == Setup
    && s.defers == [CloseDb, Cancel, JoinOnce]
    && !s.returned[PRUNER]
    && s.gaveUp == [false, false, false, false] && s.waits == [0, 0, 0, 0]
    && !s.cancelled && !s.flag && s.joins == 0 && !s.live && !s.drainedNotice && !s.dbClosed && !s.abrupt
  }

  /** Unwinding pops the last registered defer. */
  function Popped(s: State): State
    requires s.defers != []
  {
    s.(defers := s.defers[..|s.defers| - 1])
  }

  /** Entering joinBackgroundWriters. */
  function EnterJoin(s: State, caller: Caller): State {
    s.(pc := Sample(caller, 0), joins := s.joins + 1)
  }

  /** Leaving it: shutdownServer goes on to drain HTTP; the deferred join reports whether it
      was the one that stopped the writers. */
  function LeaveJoin(s: State, caller: Caller): State {
    match caller
    case Orderly => s.(pc := Http(0))
    case Deferred => s.(pc := Unwind, drainedNotice := s.drainedNotice || s.live)
  }

  /** Running the last registered defer. */
  function RunDefer(s: State): State
    requires s.defers != []
  {
    match s.defers[|s.defers| - 1]
    case StopSignals => Popped(s)
    case JoinOnce => if s.flag then Popped(s) else EnterJoin(Popped(s), Deferred)
    case Cancel => Popped(s).(cancelled := true)
    case CloseDb => Popped(s).(dbClosed := true)
  }

  /** The serve goroutine's steps. */
  ghost predicate MainStep(lim: Limits, s: State, t: State)
    requires Shaped(s)
  {
    match s.pc
    case Setup =>
      || t == s.(pc := Unwind, abrupt := true)                          // return 1
      || t == s.(pc := Serving)                                         // the caller owns the signals
      || t == s.(pc := Serving, defers := s.defers + [StopSignals])
    case Serving =>
      t == EnterJoin(s, Orderly)                                        // fatal error or signal
    case Sample(caller, next) =>
      if next < WRITERS && s.returned[next] then t == s.(pc := Sample(caller, next + 1))
      else t == s.(pc := CancelStep(caller), live := next < WRITERS)
    case CancelStep(caller) =>
      t == s.(pc := Join(caller, 0), cancelled := true)
    case Join(caller, next) =>
      if next < WRITERS then
        || (s.returned[next] && t == s.(pc := Join(caller, next + 1)))
        || (s.waits[next] >= lim.drain && t == s.(pc := Join(caller, next + 1), gaveUp := s.gaveUp[next := true]))
      else t == LeaveJoin(s, caller)
    case Http(_) =>
      t == s.(pc := SetFlag)                                            // drained, or timed out
    case SetFlag =>
      t == s.(pc := Unwind, flag := true)
    case Unwind =>
      if s.defers == [] then t == s.(pc := Exited)
      else t == RunDefer(s)
    case Exited => false
  }

  /** A writer returns.  The pruner's only exits are on cancellation (see PrunerLoop); the
      others may return at any time, or never. */
  ghost predicate WriterStep(s: State, t: State, i: Writer)
    requires Shaped(s)
  {
    !s.returned[i] && (i == PRUNER ==> s.cancelled) && t == s.(returned := s.returned[i := true])
  }

  /** One unit of time passes.  A select does not sleep past its own timer. */
  ghost predicate TickStep(lim: Limits, s: State, t: State)
    requires Shaped(s)
  {
    match s.pc
    case Join(_, next) =>
      if next < WRITERS then s.waits[next] < lim.drain && t == s.(waits := s.waits[next := s.waits[next] + 1])
      else t == s
    case Http(waited) => waited < lim.http && t == s.(pc := Http(waited + 1))
    case _ => t == s
  }

  ghost predicate Step(lim: Limits, s: State, t: State) {
    Shaped(s) && (MainStep(lim, s, t) || TickStep(lim, s, t) || exists i: Writer :: WriterStep(s, t, i))
  }

  /** The first n writers need no more waiting for: each returned, or its own join waited
      out its whole timeout. */
  predicate ResolvedBelow(lim: Limits, s: State, n: nat)
    requires Shaped(s) && n <= WRITERS
  {
    forall i :: 0 <= i < n ==> s.returned[i] || (s.gaveUp[i] && s.waits[i] == lim.drain)
  }

  predicate NoWaitFrom(s: State, n: nat)
    requires Shaped(s) && n <= WRITERS
  {
    forall i :: n <= i < WRITERS ==> s.waits[i] == 0
  }

  /** The stack holds the defers in registration order; what is left of it says how far
      unwinding has come. */
  predicate StackShape(s: State) {
    s.defers <= [CloseDb, Cancel, JoinOnce, StopSignals]
  }

  predicate BeforeJoin(s: State) {
    s.joins == 0 && !s.cancelled && !s.live && !s.flag && !s.dbClosed && !s.drainedNotice && |s.defers| >= 3
  }

  /** While a join runs: it is the first, and which defers are left tells who called it. */
  predicate InJoin(s: State, caller: Caller) {
    && s.joins == 1 && !s.flag && !s.dbClosed && !s.drainedNotice
    && (caller == Deferred <==> s.abrupt)
    && (if caller == Orderly then |s.defers| >= 3 else |s.defers| == 2)
  }

  predicate Invariant(lim: Limits, s: State) {
    && Shaped(s) && StackShape(s)
    && (s.returned[PRUNER] ==> s.cancelled)
    && (forall i :: 0 <= i < WRITERS ==> s.waits[i] <= lim.drain)
    && match s.pc
       case Setup => BeforeJoin(s) && !s.abrupt && |s.defers| == 3 && NoWaitFrom(s, 0)
       case Serving => BeforeJoin(s) && !s.abrupt && NoWaitFrom(s, 0)
       case Sample(caller, next) =>
         InJoin(s, caller) && !s.cancelled && next <= PRUNER && NoWaitFrom(s, 0)
         && (forall i :: 0 <= i < next ==> s.returned[i])
       case CancelStep(caller) => InJoin(s, caller) && !s.cancelled && s.live && NoWaitFrom(s, 0)
       case Join(caller, next) =>
         && InJoin(s, caller) && s.cancelled && s.live && next <= WRITERS
         && ResolvedBelow(lim, s, next) && NoWaitFrom(s, if next < WRITERS then next + 1 else WRITERS)
       case Http(waited) =>
         InJoin(s, Orderly) && s.cancelled && s.live && ResolvedBelow(lim, s, WRITERS) && waited <= lim.http
       case SetFlag => InJoin(s, Orderly) && s.cancelled && s.live && ResolvedBelow(lim, s, WRITERS)
       case Unwind =>
         if s.joins == 0 then BeforeJoin(s) && s.abrupt && |s.defers| == 3 && NoWaitFrom(s, 0) else Drained(lim, s)
       case Exited => Drained(lim, s) && s.defers == []
  }

  /** After the join: it ran once, and its caller is settled. */
  predicate Drained(lim: Limits, s: State)
    requires Shaped(s)
  {
    && s.joins == 1 && s.cancelled && s.live && ResolvedBelow(lim, s, WRITERS)
    && (s.abrupt <==> s.drainedNotice) && (s.abrupt <==> !s.flag)
    && (s.abrupt ==> |s.defers| <= 2)
    && (s.dbClosed <==> s.defers == [])
  }

  lemma InitInvariant(lim: Limits, s: State)
    requires Init(s)
    ensures Invariant(lim, s)
  {
  }

  lemma StartKeepsInvariant(lim: Limits, s: State, t: State)
    requires Invariant(lim, s) && MainStep(lim, s, t) && (s.pc.Setup? || s.pc.Serving?)
    ensures Invariant(lim, t)
  {
  }

  /** The join always finds a live writer: the pruner has not returned, because nothing has
      cancelled the context yet. */
  lemma SampleKeepsInvariant(lim: Limits, s: State, t: State)
    requires Invariant(lim, s) && MainStep(lim, s, t) && (s.pc.Sample? || s.pc.CancelStep?)
    ensures Invariant(lim, t) && (t.pc.CancelStep? ==> t.live)
  {
  }

  lemma JoinKeepsInvariant(lim: Limits, s: State, t: State)
    requires Invariant(lim, s) && MainStep(lim, s, t) && s.pc.Join?
    ensures Invariant(lim, t)
  {
  }

  lemma FinishKeepsInvariant(lim: Limits, s: State, t: State)
    requires Invariant(lim, s) && MainStep(lim, s, t) && (s.pc.Http? || s.pc.SetFlag? || s.pc.Unwind?)
    ensures Invariant(lim, t)
  {
  }

  lemma TickKeepsInvariant(lim: Limits, s: State, t: State)
    requires Invariant(lim, s) && TickStep(lim, s, t)
    ensures Invariant(lim, t)
  {
  }

  lemma WriterKeepsInvariant(lim: Limits, s: State, t: State, i: Writer)
    requires Invariant(lim, s) && WriterStep(s, t, i)
    ensures Invariant(lim, t)
  {
  }

  lemma StepKeepsInvariant(lim: Limits, s: State, t: State)
    requires Invariant(lim, s) && Step(lim, s, t)
    ensures Invariant(lim, t)
  {
    if i: Writer :| WriterStep(s, t, i) {
      WriterKeepsInvariant(lim, s, t, i);
    } else if TickStep(lim, s, t) {
      TickKeepsInvariant(lim, s, t);
    } else {
      match s.pc
      case Setup => StartKeepsInvariant(lim, s, t);
      case Serving => StartKeepsInvariant(lim, s, t);
      case Sample(_, _) => SampleKeepsInvariant(lim, s, t);
      case CancelStep(_) => SampleKeepsInvariant(lim, s, t);
      case Join(_, _) => JoinKeepsInvariant(lim, s, t);
      case Http(_) => FinishKeepsInvariant(lim, s, t);
      case SetFlag => FinishKeepsInvariant(lim, s, t);
      case Unwind => FinishKeepsInvariant(lim, s, t);
      case Exited =>
    }
  }

  /** A run: any interleaving of the serve goroutine, the writers and the clock. */
  ghost predicate IsRun(lim: Limits, run: seq<State>) {
    run != [] && Init(run[0]) && forall i :: 0 < i < |run| ==> Step(lim, run[i - 1], run[i])
  }

  lemma {:induction false} RunKeepsInvariant(lim: Limits, run: seq<State>, i: nat)
    requires IsRun(lim, run) && i < |run|
    ensures Invariant(lim, run[i])
  {
    if i == 0 {
      InitInvariant(lim, run[0]);
    } else {
      RunKeepsInvariant(lim, run, i - 1);
      StepKeepsInvariant(lim, run[i - 1], run[i]);
    }
  }

  function TotalWait(s: State): nat
    requires Shaped(s)
  {
    s.waits[WATCHER] + s.waits[FEES] + s.waits[PRUNER] + s.waits[SEALER]
  }

  /** Shutdown safety over every interleaving and every exit path.  The store is closed only
      once each writer has returned or has used up its own drain timeout, and only after the
      cancel; the join sequence runs at most once, and the four waits together never exceed
      four drain timeouts. */
  lemma ShutdownSafe(lim: Limits, run: seq<State>, i: nat)
    requires IsRun(lim, run) && i < |run|
    ensures var s := run[i];
            && Shaped(s)
            && (s.dbClosed ==> s.cancelled && forall w: Writer :: s.returned[w] || s.waits[w] == lim.drain)
            && s.joins <= 1
            && TotalWait(s) <= 4 * lim.drain
  {
    RunKeepsInvariant(lim, run, i);
  }

  // ---------- the HTTP drain ----------

  /** The run drained HTTP before state i: with the context cancelled, each writer returned or
      waited out, and the store open. */
  ghost predicate DrainedHttp(lim: Limits, run: seq<State>, i: nat) {
    exists j :: 0 <= j < i && j < |run| && run[j].pc.Http? && Shaped(run[j]) && run[j].cancelled &&
                !run[j].dbClosed && ResolvedBelow(lim, run[j], WRITERS)
  }

  /** The flag that says the orderly shutdown joined is set after the HTTP drain only. */
  lemma {:induction false} FlagAfterHttp(lim: Limits, run: seq<State>, i: nat)
    requires IsRun(lim, run) && i < |run| && (run[i].pc.SetFlag? || run[i].flag)
    ensures DrainedHttp(lim, run, i)
  {
    if i > 0 {
      RunKeepsInvariant(lim, run, i - 1);
      if run[i - 1].pc.SetFlag? || run[i - 1].flag {
        FlagAfterHttp(lim, run, i - 1);
      } else {
        FlagStep(lim, run[i - 1], run[i]);
      }
    }
  }

  /** Neither the writers nor the clock move the serve goroutine on. */
  lemma OthersStandStill(lim: Limits, s: State, t: State)
    requires Shaped(s) && (TickStep(lim, s, t) || exists i: Writer :: WriterStep(s, t, i))
    ensures t.flag == s.flag && t.abrupt == s.abrupt && t.dbClosed == s.dbClosed
    ensures t.pc == s.pc || (t.pc.Http? && s.pc.Http?)
  {
    if TickStep(lim, s, t) {
    } else {
      var i: Writer :| WriterStep(s, t, i);
    }
  }

  /** A defer sets no flag and drains no HTTP. */
  lemma DeferKeeps(s: State)
    requires s.defers != []
    ensures var t := RunDefer(s);
            t.flag == s.flag && t.abrupt == s.abrupt && (t.pc == s.pc || t.pc == Sample(Deferred, 0))
  {
  }

  lemma LeaveJoinKeeps(s: State, caller: Caller)
    ensures var t := LeaveJoin(s, caller);
            t.flag == s.flag && t.abrupt == s.abrupt && (t.pc.Http? || t.pc.Unwind?)
  {
  }

  lemma JoinStepKeeps(lim: Limits, s: State, t: State)
    requires Shaped(s) && MainStep(lim, s, t) && s.pc.Join?
    ensures t.flag == s.flag && t.abrupt == s.abrupt && !t.pc.SetFlag? && Leaving(t)
  {
    LeaveJoinKeeps(s, s.pc.caller);
  }

  lemma UnwindStepKeeps(lim: Limits, s: State, t: State)
    requires Shaped(s) && MainStep(lim, s, t) && s.pc.Unwind?
    ensures t.flag == s.flag && t.abrupt == s.abrupt && !t.pc.SetFlag? && Leaving(t)
  {
    if s.defers != [] {
      DeferKeeps(s);
    }
  }

  lemma StartStepFlag(lim: Limits, s: State, t: State)
    requires Shaped(s) && MainStep(lim, s, t) && (s.pc.Setup? || s.pc.Serving?)
    ensures t.flag == s.flag && !t.pc.SetFlag?
  {
  }

  lemma SampleStepFlag(lim: Limits, s: State, t: State)
    requires Shaped(s) && MainStep(lim, s, t) && (s.pc.Sample? || s.pc.CancelStep?)
    ensures t.flag == s.flag && !t.pc.SetFlag?
  {
  }

  /** The flag is set in its own step, and only the HTTP drain leads there. */
  lemma MainStepFlag(lim: Limits, s: State, t: State)
    requires Shaped(s) && MainStep(lim, s, t) && !s.pc.SetFlag?
    ensures t.flag == s.flag && (t.pc.SetFlag? ==> s.pc.Http?)
  {
    if s.pc.Join? {
      JoinStepKeeps(lim, s, t);
    } else if s.pc.Unwind? {
      UnwindStepKeeps(lim, s, t);
    } else if s.pc.Sample? || s.pc.CancelStep? {
      SampleStepFlag(lim, s, t);
    } else if s.pc.Setup? || s.pc.Serving? {
      StartStepFlag(lim, s, t);
    }
  }

  lemma FlagStep(lim: Limits, s: State, t: State)
    requires Step(lim, s, t) && !s.pc.SetFlag? && !s.flag && (t.pc.SetFlag? || t.flag)
    ensures s.pc.Http?
  {
    if MainStep(lim, s, t) {
      MainStepFlag(lim, s, t);
    } else {
      OthersStandStill(lim, s, t);
    }
  }

  lemma OtherStepKind(lim: Limits, s: State, t: State)
    requires Shaped(s) && MainStep(lim, s, t) && Leaving(s) && !s.pc.Join? && !s.pc.Unwind?
    ensures t.abrupt == s.abrupt && Leaving(t)
  {
  }

  lemma MainStepKind(lim: Limits, s: State, t: State)
    requires Shaped(s) && MainStep(lim, s, t) && Leaving(s)
    ensures t.abrupt == s.abrupt && Leaving(t)
  {
    if s.pc.Join? {
      JoinStepKeeps(lim, s, t);
    } else if s.pc.Unwind? {
      UnwindStepKeeps(lim, s, t);
    } else {
      OtherStepKind(lim, s, t);
    }
  }

  predicate KindKept(s: State, t: State) {
    Leaving(s) ==> Leaving(t) && t.abrupt == s.abrupt
  }

  lemma KindStays(lim: Limits, s: State, t: State)
    requires Step(lim, s, t)
    ensures KindKept(s, t)
  {
    if Leaving(s) {
      if MainStep(lim, s, t) {
        MainStepKind(lim, s, t);
      } else {
        OthersStandStill(lim, s, t);
      }
    }
  }

  lemma RunKeepsKind(lim: Limits, run: seq<State>)
    requires IsRun(lim, run)
    ensures forall i :: 0 < i < |run| ==> KindKept(run[i - 1], run[i])
  {
    forall i | 0 < i < |run|
      ensures KindKept(run[i - 1], run[i])
    {
      KindStays(lim, run[i - 1], run[i]);
    }
  }

  /** What kind of exit it is, is settled on leaving Setup. */
  lemma {:induction false} ExitKindSettled(run: seq<State>, j: nat, i: nat)
    requires forall n :: 0 < n < |run| ==> KindKept(run[n - 1], run[n])
    requires j <= i < |run| && Leaving(run[j])
    ensures Leaving(run[i]) && run[i].abrupt == run[j].abrupt
  {
    if j < i {
      ExitKindSettled(run, j, i - 1);
      assert KindKept(run[i - 1], run[i]);
    }
  }

  /** HTTP is drained exactly on the orderly exits, between the joins and the closing of the
      store: a run that has closed it drained HTTP first if and only if it was not abrupt. */
  lemma OrderlyDrainsHttp(lim: Limits, run: seq<State>, i: nat)
    requires IsRun(lim, run) && i < |run| && (run[i].dbClosed || run[i].pc.Exited?)
    ensures DrainedHttp(lim, run, i) <==> !run[i].abrupt
    ensures run[i].abrupt ==> forall j :: 0 <= j <= i ==> !run[j].pc.Http?
  {
    RunKeepsInvariant(lim, run, i);
    if !run[i].abrupt {
      FlagAfterHttp(lim, run, i);
    } else {
      forall j | 0 <= j <= i
        ensures !run[j].pc.Http?
      {
        if run[j].pc.Http? {
          RunKeepsInvariant(lim, run, j);
          RunKeepsKind(lim, run);
          ExitKindSettled(run, j, i);
        }
      }
    }
  }

  /** What a finished run did, whichever way it left: it closed the store, joined exactly
      once, found a writer live when it did, reported having drained the writers before
      closing exactly when the exit was abrupt, and drained HTTP exactly when it was not. */
  lemma ExitedOnce(lim: Limits, run: seq<State>, i: nat)
    requires IsRun(lim, run) && i < |run| && run[i].pc == Exited
    ensures var s := run[i]; s.dbClosed && s.joins == 1 && s.live && (s.drainedNotice <==> s.abrupt)
    ensures DrainedHttp(lim, run, i) <==> !run[i].abrupt
  {
    RunKeepsInvariant(lim, run, i);
    OrderlyDrainsHttp(lim, run, i);
  }

  /** How many steps the serve goroutine can still make, once it is on its way out. */
  function Stage(s: State): nat {
    match s.pc
    case Setup => 70
    case Serving => 60
    case Sample(_, next) => if next <= WRITERS then 50 - next else 0
    case CancelStep(_) => 45
    case Join(_, next) => if next <= WRITERS then 44 - next else 0
    case Http(_) => 30
    case SetFlag => 20
    case Unwind => 1 + |s.defers| + (if s.joins == 0 then 60 else 0)
    case Exited => 0
  }

  /** What is left of join i's timeout. */
  function JoinLeft(lim: Limits, s: State, i: Writer): int
    requires Shaped(s)
  {
    lim.drain - s.waits[i]
  }

  /** How long the joins from `next` on may still wait. */
  function JoinsLeft(lim: Limits, s: State, next: nat): int
    requires Shaped(s)
  {
    (if next <= WATCHER then JoinLeft(lim, s, WATCHER) else 0)
    + (if next <= FEES then JoinLeft(lim, s, FEES) else 0)
    + (if next <= PRUNER then JoinLeft(lim, s, PRUNER) else 0)
    + (if next <= SEALER then JoinLeft(lim, s, SEALER) else 0)
  }

  /** How long the serve goroutine may still spend waiting: what is left of the joins' timeouts
      and of the HTTP drain's. */
  function WaitLeft(lim: Limits, s: State): int
    requires Shaped(s)
  {
    match s.pc
    case Join(_, next) => JoinsLeft(lim, s, next) + lim.http
    case Http(waited) => lim.http - waited
    case SetFlag => 0
    case Unwind => if s.joins == 0 then JoinsLeft(lim, s, 0) + lim.http else 0
    case Exited => 0
    case _ => JoinsLeft(lim, s, 0) + lim.http
  }

  predicate Leaving(s: State) {
    !s.pc.Setup? && !s.pc.Serving?
  }

  /** A step of the serve goroutine, or a unit of its own waiting. */
  ghost predicate Progress(lim: Limits, s: State, t: State) {
    (IsMainStep(lim, s, t) || IsTick(lim, s, t)) && t.returned == s.returned
  }

  ghost predicate IsMainStep(lim: Limits, s: State, t: State) {
    Shaped(s) && MainStep(lim, s, t)
  }

  ghost predicate IsTick(lim: Limits, s: State, t: State) {
    Shaped(s) && TickStep(lim, s, t) && t != s
  }

  lemma JoinProgresses(lim: Limits, s: State) returns (t: State)
    requires Invariant(lim, s) && s.pc.Join?
    ensures Progress(lim, s, t)
  {
    var Join(caller, next) := s.pc;
    if next == WRITERS {
      t := LeaveJoin(s, caller);
    } else if s.waits[next] == lim.drain {
      t := s.(pc := Join(caller, next + 1), gaveUp := s.gaveUp[next := true]);
    } else {
      t := s.(waits := s.waits[next := s.waits[next] + 1]);
    }
  }

  lemma UnwindProgresses(lim: Limits, s: State) returns (t: State)
    requires Invariant(lim, s) && s.pc.Unwind?
    ensures Progress(lim, s, t)
  {
    t := if s.defers == [] then s.(pc := Exited) else RunDefer(s);
  }

  /** On its way out, the serve goroutine can always move, or let its own timer run down. */
  lemma LeavingProgresses(lim: Limits, s: State) returns (t: State)
    requires Invariant(lim, s) && Leaving(s) && !s.pc.Exited?
    ensures Progress(lim, s, t)
  {
    match s.pc
    case Sample(caller, next) =>
      t := if s.returned[next] then s.(pc := Sample(caller, next + 1)) else s.(pc := CancelStep(caller), live := true);
    case CancelStep(caller) =>
      t := s.(pc := Join(caller, 0), cancelled := true);
    case Join(_, _) =>
      t := JoinProgresses(lim, s);
    case Http(_) =>
      t := s.(pc := SetFlag);
    case SetFlag =>
      t := s.(pc := Unwind, flag := true);
    case Unwind =>
      t := UnwindProgresses(lim, s);
  }

  /** Every step on the way out, whoever makes it: the serve goroutine never turns back; each
      of its steps brings it nearer the end and adds no waiting; each unit of time it spends
      is one less to spend; and the writers can neither hold it up nor set it back. */
  lemma LeavingStep(lim: Limits, s: State, t: State)
    requires Invariant(lim, s) && Leaving(s) && Step(lim, s, t)
    ensures Invariant(lim, t) && Leaving(t)
    ensures if IsMainStep(lim, s, t) then Stage(t) < Stage(s) && WaitLeft(lim, t) <= WaitLeft(lim, s)
            else Stage(t) == Stage(s) && WaitLeft(lim, t) == WaitLeft(lim, s) - if IsTick(lim, s, t) then 1 else 0
  {
    StepKeepsInvariant(lim, s, t);
    if IsMainStep(lim, s, t) {
      LeavingMainStep(lim, s, t);
    } else if IsTick(lim, s, t) {
      LeavingTick(lim, s, t);
    }
  }

  ghost predicate Nearer(lim: Limits, s: State, t: State) {
    Shaped(s) && Shaped(t) && Leaving(t) && Stage(t) < Stage(s) && WaitLeft(lim, t) <= WaitLeft(lim, s)
  }

  lemma SampleNearer(lim: Limits, s: State, t: State)
    requires Invariant(lim, s) && MainStep(lim, s, t) && (s.pc.Sample? || s.pc.CancelStep?)
    ensures Nearer(lim, s, t)
  {
  }

  lemma JoinNearer(lim: Limits, s: State, t: State)
    requires Invariant(lim, s) && MainStep(lim, s, t) && s.pc.Join?
    ensures Nearer(lim, s, t)
  {
  }

  lemma FinishNearer(lim: Limits, s: State, t: State)
    requires Invariant(lim, s) && MainStep(lim, s, t) && (s.pc.Http? || s.pc.SetFlag? || s.pc.Unwind?)
    ensures Nearer(lim, s, t)
  {
  }

  lemma LeavingMainStep(lim: Limits, s: State, t: State)
    requires Invariant(lim, s) && Leaving(s) && MainStep(lim, s, t)
    ensures Nearer(lim, s, t)
  {
    if s.pc.Sample? || s.pc.CancelStep? {
      SampleNearer(lim, s, t);
    } else if s.pc.Join? {
      JoinNearer(lim, s, t);
    } else {
      FinishNearer(lim, s, t);
    }
  }

  lemma LeavingTick(lim: Limits, s: State, t: State)
    requires Invariant(lim, s) && Leaving(s) && IsTick(lim, s, t)
    ensures Leaving(t) && Stage(t) == Stage(s) && WaitLeft(lim, t) == WaitLeft(lim, s) - 1
  {
  }

  ghost predicate Continues(lim: Limits, run: seq<State>) {
    forall i :: 0 < i < |run| ==> Step(lim, run[i - 1], run[i])
  }

  /** Steps of the serve goroutine in a run. */
  ghost function MainSteps(lim: Limits, run: seq<State>): nat {
    if |run| < 2 then 0
    else MainSteps(lim, run[..|run| - 1]) + if IsMainStep(lim, run[|run| - 2], run[|run| - 1]) then 1 else 0
  }

  /** Units of time it spends waiting. */
  ghost function Ticks(lim: Limits, run: seq<State>): nat {
    if |run| < 2 then 0
    else
      var s, t := run[|run| - 2], run[|run| - 1];
      Ticks(lim, run[..|run| - 1]) + if !IsMainStep(lim, s, t) && IsTick(lim, s, t) then 1 else 0
  }

  lemma WaitLeftBounds(lim: Limits, s: State)
    requires Invariant(lim, s) && Leaving(s)
    ensures 0 <= WaitLeft(lim, s) <= 4 * lim.drain + lim.http
  {
  }

  lemma {:induction false} ExitAdvances(lim: Limits, run: seq<State>)
    requires run != [] && Invariant(lim, run[0]) && Leaving(run[0])
    requires Continues(lim, run)
    ensures var s := run[|run| - 1];
            && Invariant(lim, s) && Leaving(s)
            && MainSteps(lim, run) + Stage(s) <= Stage(run[0])
            && Ticks(lim, run) + WaitLeft(lim, s) <= WaitLeft(lim, run[0])
  {
    if |run| > 1 {
      ExitAdvances(lim, run[..|run| - 1]);
      LeavingStep(lim, run[|run| - 2], run[|run| - 1]);
    }
  }

  /** With no writer moving, the serve goroutine can step or its own timer can run. */
  ghost predicate CanProgress(lim: Limits, s: State) {
    exists t :: Progress(lim, s, t)
  }

  lemma NeverStuck(lim: Limits, s: State)
    requires Invariant(lim, s) && Leaving(s) && !s.pc.Exited?
    ensures CanProgress(lim, s)
  {
    var t := LeavingProgresses(lim, s);
  }

  /** Wedged writers cannot hang the exit.  On every run from any point of the way out, under
      every schedule, the serve goroutine makes at most 64 steps and waits at most four drain
      timeouts and one HTTP timeout in all; and it is never stuck: wherever such a run stands,
      it has exited, or the serve goroutine can step or its own timer can run, with no help
      from any writer. */
  lemma ExitNeverHangs(lim: Limits, run: seq<State>)
    requires run != [] && Invariant(lim, run[0]) && Leaving(run[0]) && Continues(lim, run)
    ensures MainSteps(lim, run) <= 64 && Ticks(lim, run) <= 4 * lim.drain + lim.http
    ensures run[|run| - 1].pc.Exited? || CanProgress(lim, run[|run| - 1])
  {
    var s := run[|run| - 1];
    ExitAdvances(lim, run);
    OutsetBounds(lim, run[0]);
    WaitLeftBounds(lim, s);
    if !s.pc.Exited? {
      NeverStuck(lim, s);
    }
  }

  lemma OutsetBounds(lim: Limits, s: State)
    requires Invariant(lim, s) && Leaving(s)
    ensures Stage(s) <= 64 && WaitLeft(lim, s) <= 4 * lim.drain + lim.http
  {
    WaitLeftBounds(lim, s);
  }

  /** And there is a way to the end on which no writer moves at all. */
  lemma {:induction false} ExitWithoutWriters(lim: Limits, s: State) returns (rest: seq<State>)
    requires Invariant(lim, s) && Leaving(s)
    ensures rest != [] && rest[0] == s && rest[|rest| - 1].pc == Exited
    ensures forall i :: 0 < i < |rest| ==> Step(lim, rest[i - 1], rest[i]) && rest[i].returned == s.returned
    decreases Stage(s), WaitLeft(lim, s)
  {
    if s.pc.Exited? {
      rest := [s];
    } else {
      var t := LeavingProgresses(lim, s);
      LeavingStep(lim, s, t);
      WaitLeftBounds(lim, t);
      var more := ExitWithoutWriters(lim, t);
      rest := [s] + more;
    }
  }

  // ---------- the pruner ----------

  /** What one turn of the pruner's select meets: the context done, or a tick whose prune
      fails or not, with or without the context cancelled by then. */
  datatype Turn = ContextDone | Ticked(failed: bool, cancelledByThen: bool) {
    predicate SeesCancel() {
      ContextDone? || cancelledByThen
    }

    predicate Ends() {
      ContextDone? || (failed && cancelledByThen)
    }
  }

  /** runWebhookPayloadPruner over a script of turns: it ends at the first turn that is the
      cancel itself or a failure caused by it, prunes on every other, and outlives every
      failure that is not. */
  method PrunerLoop(turns: seq<Turn>) returns (ended: bool, prunes: nat)
    ensures ended <==> exists i :: 0 <= i < |turns| && turns[i].Ends()
    ensures ended ==> exists i :: 0 <= i < |turns| && turns[i].SeesCancel()
    ensures prunes <= |turns| && (forall i :: 0 <= i < prunes ==> turns[i].Ticked?)
    ensures !ended ==> prunes == |turns|
    ensures ended ==> (prunes > 0 && turns[prunes - 1].Ends()) || (prunes < |turns| && turns[prunes].ContextDone?)
    ensures forall i :: 0 <= i < prunes - 1 ==> !turns[i].Ends()
  {
    prunes := 0;
    for i := 0 to |turns|
      invariant prunes == i
      invariant forall j :: 0 <= j < i ==> turns[j].Ticked? && !turns[j].Ends()
    {
      match turns[i]
      case ContextDone =>
        return true, prunes;
      case Ticked(failed, cancelledByThen) =>
        prunes := prunes + 1;
        if failed && cancelledByThen {
          return true, prunes;
        }
    }
    ended := false;
  }
}
