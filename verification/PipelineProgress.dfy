/** No lost wake-up, what a stuck client looks like, and how long a run can be. */
module PipelineProgress {
  import opened Pipeline
  import opened PipelineSafety
  import opened PipelineAccounting

  // ---- no lost wake-up ----

  /** The writer sleeps in front of a map with room only while the notification is on its way. */
  predicate WakeUpPending(c: Config, s: State) {
    s.w.pc.Asleep? && |s.inflight| < c.window ==> s.r.pc.NotifyWriter?
  }

  lemma StepKeepsWakeUp(c: Config, s: State, a: Action)
    requires ClientInv(c, s) && WakeUpPending(c, s) && Enabled(c, s, a)
    ensures WakeUpPending(c, Apply(c, s, a))
  {
  }

  lemma {:induction false} RunKeepsWakeUp(c: Config, s: State, run: seq<Action>)
    requires ClientInv(c, s) && WakeUpPending(c, s) && Feasible(c, s, run)
    ensures WakeUpPending(c, Exec(c, s, run))
    decreases |run|
  {
    if run != [] {
      StepKeepsInv(c, s, run[0]);
      StepKeepsWakeUp(c, s, run[0]);
      RunKeepsWakeUp(c, Apply(c, s, run[0]), run[1..]);
    }
  }

  /** In every world and either order: between the erase and the notify is the only gap. */
  lemma NoLostWakeUp(c: Config, s: State)
    requires ValidConfig(c) && Reachable(c, s)
    requires s.w.pc.Asleep? && |s.inflight| < c.window
    ensures s.r.pc.NotifyWriter?
    ensures Apply(c, s, RNotify).w.pc.CheckWindow?
  {
    var run :| Feasible(c, Init(), run) && Exec(c, Init(), run) == s;
    InitInv(c);
    RunKeepsWakeUp(c, Init(), run);
  }

  // ---- stuck states ----

  /** Steps that are the program's own: neither a spurious wake-up nor the stream breaking. */
  predicate IsProgress(a: Action) {
    !a.WSpurious? && !a.Break? && !a.Meddle?
  }

  ghost predicate Stuck(c: Config, s: State) {
    forall a :: IsProgress(a) ==> !Enabled(c, s, a)
  }

  /** The writer sleeps on a full window and nobody will ever notify it. */
  predicate Deadlocked(c: Config, s: State) {
    && s.w.pc.Asleep? && |s.inflight| == c.window
    && if s.net.broken then s.r.pc.JoinWriter? && s.net.server.ServerDone?
       else s.r.pc.ReadResponse? && s.net.up == [] && s.net.down == [] && s.net.server.ReadRequest?
  }

  /** The step the writer can take, unless it sleeps or is done. */
  function WriterMove(pc: Writer): Action
    requires !pc.Asleep? && !pc.WriterDone?
  {
    match pc
    case CheckWindow => WCheck
    case ReadChunk => WRead
    case InsertEntry(_) => WInsert
    case WriteRequest(_) => WWrite(true)
    case CountSent(_) => WCount
    case SetFinished => WFinish
    case HalfClose => WHalfClose
  }

  /** The step the reader can take, given that it is not waiting. */
  function ReaderMove(s: State): Action
    requires !s.r.pc.ReaderDone?
  {
    match s.r.pc
    case ReadResponse => RRead(s.net.down != [])
    case FindEntry(_) => RFind
    case NotifyWriter(_, _) => RNotify
    case Account(_, _) => RAccount
    case JoinWriter => RJoin
    case CheckLeftovers => RLeftovers
    case FinishCall => RFinish(s.net.server.ServerDone? && s.net.server.ok)
  }

  /** A client that has neither finished nor deadlocked can take a step of its own, or the server can. */
  lemma SomeoneCanMove(c: Config, s: State) returns (a: Action)
    requires c.world.Honest? && ClientInv(c, s) && HonestInv(c, s) && WakeUpPending(c, s)
    requires !s.r.pc.ReaderDone? && !Deadlocked(c, s)
    ensures IsProgress(a) && Enabled(c, s, a)
  {
    if !s.w.pc.Asleep? && !s.w.pc.WriterDone? {
      a := WriterMove(s.w.pc);
    } else if s.net.server.WriteResponse? {
      a := SWrite(true);
    } else if s.net.server.ReadRequest? && (s.net.up != [] || s.net.broken || s.net.halfClosed) {
      a := SRead(s.net.up != []);
    } else {
      a := ReaderMove(s);
    }
  }

  lemma DeadlockIsStuck(c: Config, s: State)
    requires c.world.Honest? && Deadlocked(c, s) && Closing(s.w, s.net)
    ensures Stuck(c, s)
  {
  }

  /** A client that has not finished is stuck if and only if it is deadlocked. */
  lemma StuckIsDeadlock(c: Config, s: State)
    requires c.world.Honest? && ValidConfig(c) && Reachable(c, s)
    requires !s.r.pc.ReaderDone?
    ensures Stuck(c, s) <==> Deadlocked(c, s)
  {
    ReachableHonest(c, s);
    if Deadlocked(c, s) {
      DeadlockIsStuck(c, s);
    } else {
      if s.w.pc.Asleep? && |s.inflight| < c.window {
        NoLostWakeUp(c, s);
      }
      var a := SomeoneCanMove(c, s);
    }
  }

  /**
   * On an unbroken stream a deadlock means the window is filled by orphans alone, so it takes a late
   * insert and at least a window of chunks.
   */
  lemma DeadlockMeansOrphans(c: Config, s: State)
    requires c.world.Honest? && ValidConfig(c) && Reachable(c, s)
    requires Deadlocked(c, s) && !s.net.broken
    ensures s.inflight.Keys == s.r.seen.orphans && |s.r.seen.orphans| == c.window
    ensures c.order.AfterWrite? && c.window <= |c.chunks|
  {
    ReachableHonest(c, s);
    assert forall id :: id in s.inflight <==> id in s.r.seen.orphans;
    assert s.inflight.Keys == s.r.seen.orphans;
    ByMembership(s.r.seen.matched, s.r.seen.orphans, s.w.inserted);
  }

  /** A deadlock after a break needs a full window too. */
  lemma DeadlockNeedsAWindow(c: Config, s: State)
    requires ValidConfig(c) && Reachable(c, s) && Deadlocked(c, s)
    ensures c.window <= |c.chunks|
  {
    ReachableInv(c, s);
    WindowAndCounterSafety(c, s);
  }

  // ---- a bound on every run ----

  function WriterRank(c: Config, pc: Writer): nat {
    match pc
    case InsertEntry(_) => if c.order.AfterWrite? then 6 else 19
    case WriteRequest(_) => 18
    case CountSent(_) => 7
    case CheckWindow => 5
    case Asleep => 4
    case ReadChunk => 4
    case SetFinished => 2
    case HalfClose => 1
    case WriterDone => 0
  }

  function ServerRank(server: Server): nat {
    match server
    case WriteResponse(_) => 10
    case ReadRequest => 1
    case ServerDone(_) => 0
  }

  function ReaderRank(pc: Reader): nat {
    match pc
    case FindEntry(_) => 8
    case NotifyWriter(_, _) => 7
    case Account(_, _) => 5
    case ReadResponse => 4
    case JoinWriter => 3
    case CheckLeftovers => 2
    case FinishCall => 1
    case ReaderDone => 0
  }

  /** Work left: chunks to read, positions of the three processes, messages in the two streams. */
  function Work(c: Config, s: State): nat
    requires s.w.produced <= |c.chunks|
  {
    16 * (|c.chunks| - s.w.produced) + WriterRank(c, s.w.pc)
    + 10 * |s.net.up| + ServerRank(s.net.server) + 8 * |s.net.down|
    + ReaderRank(s.r.pc)
  }

  lemma WriterDoesWork(c: Config, s: State, a: Action)
    requires WriterHolds(c, s.w) && WriterCounts(c, s.w) && IsWriterAction(a) && Enabled(c, s, a)
    ensures var t := WriterStep(c, s, a);
      && t.w.produced <= |c.chunks|
      && (if a.WSpurious? then Work(c, t) == Work(c, s) + 1 else Work(c, t) < Work(c, s))
  {
  }

  lemma ReaderDoesWork(c: Config, s: State, a: Action)
    requires s.w.produced <= |c.chunks| && IsReaderAction(a) && Enabled(c, s, a)
    ensures var t := ReaderStep(c, s, a); t.w.produced == s.w.produced && Work(c, t) < Work(c, s)
  {
    if a.RNotify? {
      assert WriterRank(c, ReaderStep(c, s, a).w.pc) <= WriterRank(c, s.w.pc) + 1;
    }
  }

  lemma ServerDoesWork(c: Config, s: State, a: Action)
    requires s.w.produced <= |c.chunks| && (a.SRead? || a.SWrite?) && Enabled(c, s, a)
    ensures Work(c, s.(net := ServerStep(s.net, a))) < Work(c, s)
  {
  }

  /** Every step of the program does some of the work; a spurious wake-up adds one unit; a break none. */
  lemma StepDoesWork(c: Config, s: State, a: Action)
    requires c.world.Honest? && ClientInv(c, s) && Enabled(c, s, a)
    ensures Apply(c, s, a).w.produced <= |c.chunks|
    ensures IsProgress(a) ==> Work(c, Apply(c, s, a)) < Work(c, s)
    ensures a.WSpurious? ==> Work(c, Apply(c, s, a)) == Work(c, s) + 1
    ensures a.Break? ==> Work(c, Apply(c, s, a)) == Work(c, s)
  {
    if IsWriterAction(a) {
      WriterDoesWork(c, s, a);
    } else if IsReaderAction(a) {
      ReaderDoesWork(c, s, a);
    } else if a.SRead? || a.SWrite? {
      ServerDoesWork(c, s, a);
    }
  }

  function Interruptions(run: seq<Action>): nat {
    if run == [] then 0
    else (if run[0].WSpurious? then 2 else if run[0].Break? then 1 else 0) + Interruptions(run[1..])
  }

  lemma {:induction false} RunDoesWork(c: Config, s: State, run: seq<Action>)
    requires c.world.Honest? && ClientInv(c, s) && Feasible(c, s, run)
    ensures Exec(c, s, run).w.produced <= |c.chunks|
    ensures |run| + Work(c, Exec(c, s, run)) <= Work(c, s) + Interruptions(run)
    decreases |run|
  {
    if run != [] {
      StepKeepsInv(c, s, run[0]);
      StepDoesWork(c, s, run[0]);
      RunDoesWork(c, Apply(c, s, run[0]), run[1..]);
    }
  }

  /**
   * Every run is finite: at most 16 steps a chunk and 10 more, plus two for each spurious wake-up
   * and one for the break.
   */
  lemma RunsAreShort(c: Config, run: seq<Action>)
    requires c.world.Honest? && ValidConfig(c) && Feasible(c, Init(), run)
    ensures |run| <= 16 * |c.chunks| + 10 + Interruptions(run)
  {
    InitInv(c);
    RunDoesWork(c, Init(), run);
  }

  /** A run that cannot go on, on an unbroken stream, either completes or has orphaned a whole window. */
  lemma MaximalRuns(c: Config, run: seq<Action>)
    requires c.world.Honest? && ValidConfig(c) && Feasible(c, Init(), run)
    requires c.expected == SizeOfIds(c, Ids(|c.chunks|))
    requires var s := Exec(c, Init(), run); Stuck(c, s) && !s.net.broken
    ensures var s := Exec(c, Init(), run);
      if Complete(s) then s.r.success <==> s.r.seen.orphans == {}
      else c.order.AfterWrite? && |s.r.seen.orphans| == c.window
    ensures c.order.BeforeWrite? ==> Complete(Exec(c, Init(), run)) && Exec(c, Init(), run).r.success
  {
    var s := Exec(c, Init(), run);
    assert Reachable(c, s);
    if Complete(s) {
      ExactAccounting(c, s);
      if c.order.BeforeWrite? {
        InsertFirstIsClean(c, s);
      }
    } else {
      StuckIsDeadlock(c, s);
      DeadlockMeansOrphans(c, s);
    }
  }
}
