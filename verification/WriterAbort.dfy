/** The pond's writer connection under cancellation: any number of `write_query`
    calls queue for one writer, each with its own token and watcher thread, and
    every step of every thread may interleave with every other. */
module WriterAbort {
  import opened Options

  type OpId = nat

  /** DuckDB's interrupt is an edge against the running statement: the flag is
      cleared as a statement begins, and an interrupt while none runs is lost. `serial`
      numbers the statements begun (a proof record). */
  datatype Connection = Connection(running: Option<OpId>, serial: nat, interrupted: bool, inTxn: bool)

  /** Where the calling thread of one `write_query` stands. */
  datatype Caller =
    | Locking                  // lock_writer: try_lock comes next
    | Blocked                  // would block: the token is checked next
    | Working                  // watcher armed, inside the closure, between statements
    | InStatement
    | Disarming(ok: bool)      // closure returned
    | Joining(ok: bool)        // done is set, the watcher thread is being joined
    | Recovering               // the closure failed: the recovery ROLLBACK is next
    | RollingBack
    | Releasing(ok: bool)      // about to drop the writer guard
    | Returned(ok: bool)
    | GaveUp                   // cancelled while queued for the writer

  /** Where the watcher thread stands in its loop. */
  datatype Watcher = Unborn | Top | Polling | Firing | Sleeping | Exited

  datatype Op = Op(caller: Caller, watcher: Watcher, done: bool, cancelled: bool)

  datatype World = World(holder: Option<OpId>, conn: Connection, ops: map<OpId, Op>)

  const INITIAL := World(None, Connection(None, 1, false, false), map[])

  datatype Step =
    | Start(o: OpId, cancelled: bool)
    | Cancel(o: OpId)
    | TryLock(o: OpId)
    | CheckToken(o: OpId)
    | BeginStatement(o: OpId)
    | EndStatement(o: OpId, inTxn: bool)
    | ReturnFrom(o: OpId, ok: bool)
    | SetDone(o: OpId)
    | Join(o: OpId)
    | BeginRollback(o: OpId)
    | EndRollback(o: OpId, inTxn: bool)
    | Release(o: OpId)
    | WatchTop(o: OpId)
    | WatchPoll(o: OpId)
    | WatchFire(o: OpId)
    | WatchWake(o: OpId)

  predicate CallerIs(w: World, o: OpId, c: Caller) {
    o in w.ops && w.ops[o].caller == c
  }

  predicate WatcherIs(w: World, o: OpId, c: Watcher) {
    o in w.ops && w.ops[o].watcher == c
  }

  predicate Enabled(w: World, s: Step) {
    match s
    case Start(o, _) => o !in w.ops
    case Cancel(o) => o in w.ops
    case TryLock(o) => CallerIs(w, o, Locking)
    case CheckToken(o) => CallerIs(w, o, Blocked)
    case BeginStatement(o) => CallerIs(w, o, Working)
    case EndStatement(o, _) => CallerIs(w, o, InStatement)
    // The write bracket answers Ok only after its COMMIT.
    case ReturnFrom(o, ok) => CallerIs(w, o, Working) && (ok ==> !w.conn.inTxn)
    case SetDone(o) => o in w.ops && w.ops[o].caller.Disarming?
    case Join(o) => o in w.ops && w.ops[o].caller.Joining? && w.ops[o].watcher == Exited
    case BeginRollback(o) => CallerIs(w, o, Recovering)
    case EndRollback(o, _) => CallerIs(w, o, RollingBack)
    case Release(o) => o in w.ops && w.ops[o].caller.Releasing?
    case WatchTop(o) => WatcherIs(w, o, Top)
    case WatchPoll(o) => WatcherIs(w, o, Polling)
    case WatchFire(o) => WatcherIs(w, o, Firing)
    case WatchWake(o) => WatcherIs(w, o, Sleeping)
  }

  function With(w: World, o: OpId, op: Op): World {
    w.(ops := w.ops[o := op])
  }

  function Begun(c: Connection, o: OpId): Connection {
    Connection(Some(o), c.serial + 1, false, c.inTxn)
  }

  function Ended(c: Connection, inTxn: bool): Connection {
    Connection(None, c.serial, false, inTxn)
  }

  /** `handle.interrupt()`. */
  function Interrupted(c: Connection): Connection {
    if c.running.Some? then c.(interrupted := true) else c
  }

  function Apply(w: World, s: Step): World
    requires Enabled(w, s)
  {
    match s
    case Start(o, cancelled) => With(w, o, Op(Locking, Unborn, false, cancelled))
    case Cancel(o) => With(w, o, w.ops[o].(cancelled := true))
    case TryLock(o) =>
      if w.holder.None? then With(w, o, w.ops[o].(caller := Working, watcher := Top)).(holder := Some(o))
      else With(w, o, w.ops[o].(caller := Blocked))
    case CheckToken(o) => With(w, o, w.ops[o].(caller := if w.ops[o].cancelled then GaveUp else Locking))
    case BeginStatement(o) => With(w, o, w.ops[o].(caller := InStatement)).(conn := Begun(w.conn, o))
    case EndStatement(o, inTxn) => With(w, o, w.ops[o].(caller := Working)).(conn := Ended(w.conn, inTxn))
    case ReturnFrom(o, ok) => With(w, o, w.ops[o].(caller := Disarming(ok)))
    case SetDone(o) => With(w, o, w.ops[o].(caller := Joining(w.ops[o].caller.ok), done := true))
    case Join(o) => With(w, o, w.ops[o].(caller := if w.ops[o].caller.ok then Releasing(true) else Recovering))
    case BeginRollback(o) => With(w, o, w.ops[o].(caller := RollingBack)).(conn := Begun(w.conn, o))
    // An interrupted ROLLBACK may leave the transaction open; another one cannot.
    case EndRollback(o, inTxn) =>
      With(w, o, w.ops[o].(caller := Releasing(false))).(conn := Ended(w.conn, w.conn.interrupted && inTxn))
    case Release(o) => With(w, o, w.ops[o].(caller := Returned(w.ops[o].caller.ok))).(holder := None)
    case WatchTop(o) => With(w, o, w.ops[o].(watcher := if w.ops[o].done then Exited else Polling))
    case WatchPoll(o) => With(w, o, w.ops[o].(watcher := if w.ops[o].cancelled then Firing else Sleeping))
    case WatchFire(o) => With(w, o, w.ops[o].(watcher := Sleeping)).(conn := Interrupted(w.conn))
    case WatchWake(o) => With(w, o, w.ops[o].(watcher := Top))
  }

  ghost predicate Runs(from: World, steps: seq<Step>, to: World)
    decreases |steps|
  {
    if steps == [] then to == from
    else Enabled(from, steps[0]) && Runs(Apply(from, steps[0]), steps[1..], to)
  }

  ghost predicate Reachable(w: World) {
    exists steps :: Runs(INITIAL, steps, w)
  }

  // --------------------------------------------------------------- invariant

  /** Between `arm` and the return of `disarm`. */
  predicate Guarded(c: Caller) {
    c.Working? || c.InStatement? || c.Disarming? || c.Joining?
  }

  predicate HasWriter(c: Caller) {
    Guarded(c) || c.Recovering? || c.RollingBack? || c.Releasing?
  }

  predicate Alive(x: Watcher) {
    x.Top? || x.Polling? || x.Firing? || x.Sleeping?
  }

  /** What one call's own record says, whatever the others do. */
  predicate OpInv(op: Op) {
    && (Alive(op.watcher) ==> Guarded(op.caller))
    && (Guarded(op.caller) ==> op.watcher != Unborn)
    && (op.caller.Locking? || op.caller.Blocked? ==> op.watcher == Unborn && !op.done)
    && (op.caller.Working? || op.caller.InStatement? || op.caller.Disarming? ==> !op.done && op.watcher != Exited)
    && (op.caller.GaveUp? ==> op.cancelled && op.watcher == Unborn)
    && (op.caller.Joining? ==> op.done)
    && (op.watcher.Firing? ==> op.cancelled)
  }

  predicate Committed(c: Caller) {
    c == Disarming(true) || c == Joining(true) || c.Releasing?
  }

  /** What the writer's connection and its holder say of each other. */
  predicate WriterInv(w: World) {
    && (w.holder.None? ==> !w.conn.inTxn && w.conn.running.None?)
    && (w.holder.Some? ==>
          w.holder.value in w.ops &&
          var c := w.ops[w.holder.value].caller;
          && w.conn.running == (if c.InStatement? || c.RollingBack? then w.holder else None)
          && (c.RollingBack? ==> !w.conn.interrupted)
          && (Committed(c) ==> !w.conn.inTxn)
          && (c.InStatement? && w.conn.interrupted ==> w.ops[w.holder.value].cancelled))
  }

  ghost predicate Inv(w: World) {
    && (forall o | o in w.ops :: OpInv(w.ops[o]))
    && (forall o | o in w.ops :: HasWriter(w.ops[o].caller) <==> w.holder == Some(o))
    && WriterInv(w)
  }

  /** A step of one call that fits its own record and the writer fits everybody's. */
  lemma OneMoves(w: World, o: OpId, op: Op, to: World)
    requires Inv(w) && WriterInv(to) && to.ops == w.ops[o := op]
    requires OpInv(op) && (HasWriter(op.caller) <==> to.holder == Some(o))
    requires to.holder == w.holder || (w.holder in {None, Some(o)} && to.holder in {None, Some(o)})
    ensures Inv(to)
  {
    forall q | q in to.ops ensures OpInv(to.ops[q]) {
      if q != o { assert OpInv(w.ops[q]); }
    }
  }

  lemma Facts(w: World, o: OpId)
    requires Inv(w) && o in w.ops
    ensures OpInv(w.ops[o]) && (HasWriter(w.ops[o].caller) <==> w.holder == Some(o))
  {
  }

  lemma StatementStepKeepsInv(w: World, s: Step)
    requires Inv(w) && Enabled(w, s)
    requires s.BeginStatement? || s.EndStatement? || s.BeginRollback? || s.EndRollback?
    ensures Inv(Apply(w, s))
  {
    var to := Apply(w, s);
    Facts(w, s.o);
    OneMoves(w, s.o, to.ops[s.o], to);
  }

  lemma ClosingStepKeepsInv(w: World, s: Step)
    requires Inv(w) && Enabled(w, s)
    requires s.ReturnFrom? || s.SetDone? || s.Join? || s.Release?
    ensures Inv(Apply(w, s))
  {
    var to := Apply(w, s);
    Facts(w, s.o);
    OneMoves(w, s.o, to.ops[s.o], to);
  }

  lemma WatcherStepKeepsInv(w: World, s: Step)
    requires Inv(w) && Enabled(w, s)
    requires s.WatchTop? || s.WatchPoll? || s.WatchFire? || s.WatchWake?
    ensures Inv(Apply(w, s))
  {
    var to := Apply(w, s);
    Facts(w, s.o);
    OneMoves(w, s.o, to.ops[s.o], to);
  }

  lemma QueueStepKeepsInv(w: World, s: Step)
    requires Inv(w) && Enabled(w, s)
    requires s.Start? || s.Cancel? || s.TryLock? || s.CheckToken?
    ensures Inv(Apply(w, s))
  {
    var to := Apply(w, s);
    if !s.Start? { Facts(w, s.o); }
    OneMoves(w, s.o, to.ops[s.o], to);
  }

  /** Every step of every thread keeps the invariant. */
  lemma StepKeepsInv(w: World, s: Step)
    requires Inv(w) && Enabled(w, s)
    ensures Inv(Apply(w, s))
  {
    if s.Start? || s.Cancel? || s.TryLock? || s.CheckToken? {
      QueueStepKeepsInv(w, s);
    } else if s.WatchTop? || s.WatchPoll? || s.WatchFire? || s.WatchWake? {
      WatcherStepKeepsInv(w, s);
    } else if s.BeginStatement? || s.EndStatement? || s.BeginRollback? || s.EndRollback? {
      StatementStepKeepsInv(w, s);
    } else {
      ClosingStepKeepsInv(w, s);
    }
  }

  lemma {:induction false} RunKeepsInv(w: World, steps: seq<Step>, to: World)
    requires Inv(w) && Runs(w, steps, to)
    ensures Inv(to)
    decreases |steps|
  {
    if steps == [] {
    } else {
      StepKeepsInv(w, steps[0]);
      RunKeepsInv(Apply(w, steps[0]), steps[1..], to);
    }
  }

  lemma ReachableInv(w: World)
    requires Reachable(w)
    ensures Inv(w)
  {
    var steps :| Runs(INITIAL, steps, w);
    RunKeepsInv(INITIAL, steps, w);
  }

  // ------------------------------------------------------------ the promises

  /** Whenever nobody has the writer, in particular whenever a call has returned
      and no other has followed, its connection is outside any transaction; so
      is it at the moment every call gives the writer back. */
  lemma WriterSurvives(w: World)
    requires Reachable(w)
    ensures w.holder.None? ==> !w.conn.inTxn && w.conn.running.None?
    ensures forall o | o in w.ops && w.ops[o].caller.Releasing? :: !w.conn.inTxn
    ensures forall o | o in w.ops && w.ops[o].caller.RollingBack? :: !w.conn.interrupted
    ensures forall o, p | o in w.ops && p in w.ops && HasWriter(w.ops[o].caller) && HasWriter(w.ops[p].caller) :: o == p
  {
    ReachableInv(w);
    forall o | o in w.ops && (w.ops[o].caller.Releasing? || w.ops[o].caller.RollingBack?)
      ensures w.holder == Some(o)
    {
      assert HasWriter(w.ops[o].caller);
    }
  }

  /** An interrupt is only ever issued before `disarm` returns, and the only
      statement it can meet is one of the caller's own closure. */
  lemma InterruptsHitOnlyTheirOwn(w: World, o: OpId)
    requires Reachable(w) && Enabled(w, WatchFire(o))
    ensures Guarded(w.ops[o].caller)
    ensures w.conn.running.Some? ==> w.conn.running == Some(o) && w.ops[o].caller.InStatement?
  {
    ReachableInv(w);
    assert OpInv(w.ops[o]);
    assert HasWriter(w.ops[o].caller);
  }

  lemma ExitedStays(w: World, s: Step, o: OpId)
    requires Inv(w) && Enabled(w, s) && WatcherIs(w, o, Exited)
    ensures WatcherIs(Apply(w, s), o, Exited) && s != WatchFire(o)
  {
    assert OpInv(w.ops[o]);
  }

  /** Once a call has joined its watcher, no interrupt of its own follows, however
      the run goes on. */
  lemma {:induction false} NoInterruptAfterDisarm(w: World, steps: seq<Step>, to: World, o: OpId)
    requires Inv(w) && Runs(w, steps, to) && WatcherIs(w, o, Exited)
    ensures WatcherIs(to, o, Exited) && WatchFire(o) !in steps
    decreases |steps|
  {
    if steps == [] {
    } else {
      var s := steps[0];
      ExitedStays(w, s, o);
      StepKeepsInv(w, s);
      NoInterruptAfterDisarm(Apply(w, s), steps[1..], to, o);
      assert steps == [s] + steps[1..];
    }
  }

  predicate IsWatching(s: Step, o: OpId) {
    s == WatchTop(o) || s == WatchPoll(o) || s == WatchFire(o) || s == WatchWake(o)
  }

  /** The steps the watcher of `o` takes in a run. */
  function WatcherSteps(steps: seq<Step>, o: OpId): nat {
    if steps == [] then 0 else (if IsWatching(steps[0], o) then 1 else 0) + WatcherSteps(steps[1..], o)
  }

  /** The steps a watcher needs to fire under a cancelled token. */
  function StepsToFire(x: Watcher): nat {
    match x
    case Firing => 1
    case Polling => 2
    case Top => 3
    case Sleeping => 4
    case _ => 0
  }

  /** `o` runs statement number `serial`, and its token is cancelled. */
  predicate RunsCancelled(w: World, o: OpId, serial: nat) {
    CallerIs(w, o, InStatement) && w.ops[o].cancelled && w.conn.serial == serial
  }

  lemma {:induction false} SerialGrows(w: World, steps: seq<Step>, to: World)
    requires Runs(w, steps, to)
    ensures to.conn.serial >= w.conn.serial
    ensures to.conn.serial == w.conn.serial && w.conn.running.None? ==> to.conn.running.None?
    decreases |steps|
  {
    if steps == [] {
    } else {
      SerialGrows(Apply(w, steps[0]), steps[1..], to);
    }
  }

  /** A statement is still the same one only if no step since has ended it. */
  lemma StatementGoesOn(w: World, s: Step, steps: seq<Step>, to: World, o: OpId, serial: nat)
    requires Inv(w) && Enabled(w, s) && Runs(Apply(w, s), steps, to)
    requires RunsCancelled(w, o, serial) && RunsCancelled(to, o, serial) && Inv(to)
    ensures RunsCancelled(Apply(w, s), o, serial)
  {
    Facts(w, o);
    Facts(to, o);
    SerialGrows(Apply(w, s), steps, to);
    if s.o in w.ops { Facts(w, s.o); }
  }

  /** One step brings the watcher nearer to firing, or has it fire; others' steps
      change neither that nor a pending interrupt. */
  lemma WatcherNears(w: World, s: Step, o: OpId, serial: nat)
    requires Inv(w) && Enabled(w, s) && RunsCancelled(w, o, serial) && RunsCancelled(Apply(w, s), o, serial)
    ensures w.conn.interrupted ==> Apply(w, s).conn.interrupted
    ensures var w' := Apply(w, s);
      w'.conn.interrupted || StepsToFire(w'.ops[o].watcher) == StepsToFire(w.ops[o].watcher) - if IsWatching(s, o) then 1 else 0
  {
    Facts(w, o);
    if s.o in w.ops { Facts(w, s.o); }
  }

  lemma {:induction false} FiresInTime(w: World, steps: seq<Step>, to: World, o: OpId, serial: nat)
    requires Inv(w) && Inv(to) && Runs(w, steps, to)
    requires RunsCancelled(w, o, serial) && RunsCancelled(to, o, serial)
    ensures w.conn.interrupted || WatcherSteps(steps, o) >= StepsToFire(w.ops[o].watcher) ==> to.conn.interrupted
    decreases |steps|
  {
    Facts(w, o);
    if steps == [] {
    } else {
      var s := steps[0];
      StepKeepsInv(w, s);
      StatementGoesOn(w, s, steps[1..], to, o, serial);
      WatcherNears(w, s, o, serial);
      FiresInTime(Apply(w, s), steps[1..], to, o, serial);
    }
  }

  /** A cancelled call's statement that still runs after four steps of the call's own
      watcher has been interrupted: whatever the others do, wherever the watcher
      stood, and whether the cancel came before the statement or during it. */
  lemma CancelReachesStatement(w: World, steps: seq<Step>, to: World, o: OpId)
    requires Reachable(w) && Runs(w, steps, to)
    requires RunsCancelled(w, o, w.conn.serial) && RunsCancelled(to, o, w.conn.serial)
    requires WatcherSteps(steps, o) >= 4
    ensures to.conn.running == Some(o) && to.conn.interrupted
  {
    ReachableInv(w);
    RunKeepsInv(w, steps, to);
    FiresInTime(w, steps, to, o, w.conn.serial);
    Facts(to, o);
  }

  /** `lock_writer` turns the caller still takes when its token is cancelled. */
  function QueueTurns(steps: seq<Step>, o: OpId): nat {
    if steps == [] then 0
    else (if steps[0] == TryLock(o) || steps[0] == CheckToken(o) then 1 else 0) + QueueTurns(steps[1..], o)
  }

  function TurnsLeft(c: Caller): nat {
    match c
    case Locking => 2
    case Blocked => 1
    case _ => 0
  }

  /** A cancelled call does not wait for the writer: however the others run, it
      has the writer or has given up after two more turns of its own. */
  lemma {:induction false} CancelledCallDoesNotQueue(w: World, steps: seq<Step>, to: World, o: OpId)
    requires Runs(w, steps, to) && o in w.ops && w.ops[o].cancelled
    ensures o in to.ops && to.ops[o].cancelled
    ensures QueueTurns(steps, o) + TurnsLeft(to.ops[o].caller) <= TurnsLeft(w.ops[o].caller)
    decreases |steps|
  {
    if steps == [] {
    } else {
      var w' := Apply(w, steps[0]);
      assert o in w'.ops && w'.ops[o].cancelled;
      CancelledCallDoesNotQueue(w', steps[1..], to, o);
    }
  }

  /** A call that gives up was cancelled, and never had the writer: no watcher of
      its own was ever armed. */
  lemma OnlyTheCancelledGiveUp(w: World, o: OpId)
    requires Reachable(w) && CallerIs(w, o, GaveUp)
    ensures w.ops[o].cancelled && w.ops[o].watcher == Unborn && w.holder != Some(o)
  {
    ReachableInv(w);
    assert OpInv(w.ops[o]);
  }

  /** Only a cancelled call's statement is ever interrupted. */
  lemma OnlyTheCancelledAreInterrupted(w: World)
    requires Reachable(w) && w.conn.interrupted && w.conn.running.Some?
    ensures w.conn.running.value in w.ops && w.ops[w.conn.running.value].cancelled
  {
    ReachableInv(w);
  }

  // ---------------------------------------------------------------- the answer

  /** `o`'s closure has returned `b`. */
  predicate Answered(w: World, o: OpId, b: bool) {
    o in w.ops &&
    match w.ops[o].caller
    case Disarming(ok) => ok == b
    case Joining(ok) => ok == b
    case Recovering => !b
    case RollingBack => !b
    case Releasing(ok) => ok == b
    case Returned(ok) => ok == b
    case _ => false
  }

  /** `o`'s recovery rollback has begun. */
  predicate HasRolledBack(w: World, o: OpId) {
    o in w.ops &&
    match w.ops[o].caller
    case RollingBack => true
    case Releasing(ok) => !ok
    case Returned(ok) => !ok
    case _ => false
  }

  lemma StepAnswers(w: World, s: Step, o: OpId, b: bool)
    requires Enabled(w, s)
    ensures Answered(Apply(w, s), o, b) <==> Answered(w, o, b) || s == ReturnFrom(o, b)
  {
  }

  lemma StepRollsBack(w: World, s: Step, o: OpId)
    requires Enabled(w, s)
    ensures HasRolledBack(Apply(w, s), o) <==> HasRolledBack(w, o) || s == BeginRollback(o)
  {
  }

  lemma {:induction false} RunAnswers(w: World, steps: seq<Step>, to: World, o: OpId, b: bool)
    requires Runs(w, steps, to)
    ensures Answered(to, o, b) <==> Answered(w, o, b) || ReturnFrom(o, b) in steps
    ensures HasRolledBack(to, o) <==> HasRolledBack(w, o) || BeginRollback(o) in steps
    decreases |steps|
  {
    if steps == [] {
    } else {
      StepAnswers(w, steps[0], o, b);
      StepRollsBack(w, steps[0], o);
      RunAnswers(Apply(w, steps[0]), steps[1..], to, o, b);
      assert steps == [steps[0]] + steps[1..];
    }
  }

  /** Told from the run alone: a call answers `ok` exactly when its closure returned it,
      and never the other answer as well; one that answers success has run no recovery
      rollback, and one that answers failure has. */
  lemma AnswerIsTheClosures(steps: seq<Step>, w: World, o: OpId, ok: bool)
    requires Runs(INITIAL, steps, w) && (CallerIs(w, o, Releasing(ok)) || CallerIs(w, o, Returned(ok)))
    ensures ReturnFrom(o, ok) in steps && ReturnFrom(o, !ok) !in steps
    ensures BeginRollback(o) in steps <==> !ok
  {
    RunAnswers(INITIAL, steps, w, o, ok);
    RunAnswers(INITIAL, steps, w, o, !ok);
  }

  // ---------------------------------------------------------- disarming ends

  /** The steps a watcher needs to see that it is done. */
  function StepsToExit(x: Watcher): nat {
    match x
    case Top => 1
    case Sleeping => 2
    case Firing => 3
    case Polling => 4
    case _ => 0
  }

  lemma ExitNears(w: World, s: Step, o: OpId)
    requires Inv(w) && Enabled(w, s) && o in w.ops && w.ops[o].done
    ensures var w' := Apply(w, s);
      && o in w'.ops && w'.ops[o].done
      && StepsToExit(w'.ops[o].watcher) + (if IsWatching(s, o) then 1 else 0) <= StepsToExit(w.ops[o].watcher)
  {
    Facts(w, o);
  }

  lemma {:induction false} DisarmIsShort(w: World, steps: seq<Step>, to: World, o: OpId)
    requires Inv(w) && Runs(w, steps, to) && o in w.ops && w.ops[o].done
    ensures o in to.ops && to.ops[o].done
    ensures WatcherSteps(steps, o) + StepsToExit(to.ops[o].watcher) <= StepsToExit(w.ops[o].watcher)
    decreases |steps|
  {
    if steps == [] {
    } else {
      StepKeepsInv(w, steps[0]);
      ExitNears(w, steps[0], o);
      DisarmIsShort(Apply(w, steps[0]), steps[1..], to, o);
    }
  }

  /** The watcher thread of `o` can take its next step. */
  predicate CanWatch(w: World, o: OpId) {
    Enabled(w, WatchTop(o)) || Enabled(w, WatchPoll(o)) || Enabled(w, WatchFire(o)) || Enabled(w, WatchWake(o))
  }

  lemma JoiningWaitsForWatcher(w: World, o: OpId)
    requires Inv(w) && o in w.ops && w.ops[o].caller.Joining?
    ensures Enabled(w, Join(o)) <==> !CanWatch(w, o)
    ensures StepsToExit(w.ops[o].watcher) == 0 ==> Enabled(w, Join(o))
  {
    Facts(w, o);
  }

  /** Disarming never waits for good: once `done` is set, the watcher takes at most four
      more steps, can take its next as long as it cannot be joined, and can be joined
      after four. */
  lemma DisarmReturns(w: World, steps: seq<Step>, to: World, o: OpId)
    requires Reachable(w) && Runs(w, steps, to) && o in w.ops && w.ops[o].done
    ensures WatcherSteps(steps, o) <= 4 && o in to.ops
    ensures to.ops[o].caller.Joining? ==> (Enabled(to, Join(o)) <==> !CanWatch(to, o))
    ensures to.ops[o].caller.Joining? && WatcherSteps(steps, o) == 4 ==> Enabled(to, Join(o))
  {
    ReachableInv(w);
    DisarmIsShort(w, steps, to, o);
    RunKeepsInv(w, steps, to);
    if to.ops[o].caller.Joining? { JoiningWaitsForWatcher(to, o); }
  }

  // ------------------------------------------------------ an undisturbed write

  lemma {:induction false} RunsSnoc(a: World, steps: seq<Step>, b: World, s: Step)
    requires Runs(a, steps, b) && Enabled(b, s)
    ensures Runs(a, steps + [s], Apply(b, s))
    decreases |steps|
  {
    if steps == [] {
      assert [s][1..] == [];
      assert steps + [s] == [s];
    } else {
      assert (steps + [s])[1..] == steps[1..] + [s];
      RunsSnoc(Apply(a, steps[0]), steps[1..], b, s);
    }
  }

  /** One step more. */
  lemma RunsOn(a: World, s: Step) returns (b: World)
    requires Reachable(a) && Enabled(a, s)
    ensures b == Apply(a, s) && Reachable(b)
  {
    b := Apply(a, s);
    var steps :| Runs(INITIAL, steps, a);
    RunsSnoc(INITIAL, steps, a, s);
  }

  lemma ClosureRuns(w: World, o: OpId, ok: bool, inTxn: bool) returns (to: World)
    requires Reachable(w) && w.holder.None? && o !in w.ops && (ok ==> !inTxn)
    ensures Reachable(to) && to.holder == Some(o) && to.conn.inTxn == inTxn && to.conn.serial == w.conn.serial + 1
    ensures o in to.ops && to.ops[o] == Op(Joining(ok), Top, true, false)
  {
    var w1 := RunsOn(w, Start(o, false));
    var w2 := RunsOn(w1, TryLock(o));
    var w3 := RunsOn(w2, BeginStatement(o));
    var w4 := RunsOn(w3, EndStatement(o, inTxn));
    var w5 := RunsOn(w4, ReturnFrom(o, ok));
    to := RunsOn(w5, SetDone(o));
  }

  /** When nobody has the writer, a new call gets it, runs its statement, and returns
      its closure's answer with the writer given back outside any transaction, even
      when a failed statement left one open. */
  lemma UndisturbedWriteReturns(w: World, o: OpId, ok: bool, inTxn: bool) returns (to: World)
    requires Reachable(w) && w.holder.None? && o !in w.ops && (ok ==> !inTxn)
    ensures Reachable(to) && CallerIs(to, o, Returned(ok)) && to.holder.None? && !to.conn.inTxn
    ensures to.conn.serial == w.conn.serial + if ok then 1 else 2
  {
    var w1 := ClosureRuns(w, o, ok, inTxn);
    var w2 := RunsOn(w1, WatchTop(o));
    var w3 := RunsOn(w2, Join(o));
    var w5 := w3;
    if !ok {
      var w4 := RunsOn(w3, BeginRollback(o));
      w5 := RunsOn(w4, EndRollback(o, inTxn));
    }
    to := RunsOn(w5, Release(o));
  }
}
