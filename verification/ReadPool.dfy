/** The bounded pool of read connections: the critical sections as a class, and
    every interleaving of readers over them as a transition system. */
module ReadPool {

  type Conn = nat

  /** What the pool's mutex guards. `created` counts the slots in use. */
  datatype PoolState = PoolState(idle: seq<Conn>, created: nat)

  datatype Taken = Got(conn: Conn) | MustClone | MustWait

  /** One turn of `checkout_read`'s loop, under the lock. */
  function Take(p: PoolState, max: nat): (PoolState, Taken) {
    if p.idle != [] then (PoolState(p.idle[..|p.idle| - 1], p.created), Got(p.idle[|p.idle| - 1]))
    else if p.created < max then (PoolState(p.idle, p.created + 1), MustClone)
    else (p, MustWait)
  }

  /** `ReadGuard::drop`, under the lock. */
  function GiveBack(p: PoolState, conn: Conn, reusable: bool): PoolState
    requires !reusable ==> p.created > 0
  {
    if reusable then p.(idle := p.idle + [conn]) else p.(created := p.created - 1)
  }

  /** The failed-clone path of `checkout_read`. It notifies nobody. */
  function CloneFailed(p: PoolState): PoolState
    requires p.created > 0
  {
    p.(created := p.created - 1)
  }

  class Pool {
    var idle: seq<Conn>
    var created: nat
    const max: nat

    constructor (max: nat)
      ensures this.max == max && State() == PoolState([], 0)
    {
      this.max := max;
      idle, created := [], 0;
    }

    function State(): PoolState
      reads this
    {
      PoolState(idle, created)
    }

    method TryTake() returns (t: Taken)
      modifies this
      ensures (State(), t) == Take(old(State()), max)
    {
      if |idle| > 0 {
        t := Got(idle[|idle| - 1]);
        idle := idle[..|idle| - 1];
      } else if created < max {
        created := created + 1;
        t := MustClone;
      } else {
        t := MustWait;
      }
    }

    method Return(conn: Conn, reusable: bool)
      requires !reusable ==> created > 0
      modifies this
      ensures State() == GiveBack(old(State()), conn, reusable)
    {
      if reusable {
        idle := idle + [conn];
      } else {
        created := created - 1;
      }
    }

    method GiveUpSlot()
      requires created > 0
      modifies this
      ensures State() == CloneFailed(old(State()))
    {
      created := created - 1;
    }
  }

  // ------------------------------------------------------------ interleavings

  datatype Outcome = ReadOk | ReadErr | ReadPanicked

  /** The value `with_read` leaves in `reusable`: false before the read runs, and
      assigned after it only if the read returned. */
  function Reusable(o: Outcome): bool {
    match o
    case ReadOk => true
    case ReadErr => false
    case ReadPanicked => false
  }

  datatype Reader =
    | Arriving                               // has not taken the lock yet
    | Parked                                 // in Condvar::wait
    | Woken                                  // out of wait, without the lock yet
    | Cloning                                // holds a slot, no connection yet
    | CheckedOut(conn: Conn)                 // guard in hand, read not started
    | Reading(conn: Conn)
    | Finished(conn: Conn, reusable: bool)   // read over, guard not dropped yet
    | Notifying                              // unlocked, notify_one to come
    | Left

  type ReaderId = nat

  /** `nextConn` numbers connections. `tainted` holds those whose read went wrong, and
      `silent` counts the slots that failed clones have freed, unannounced, since
      somebody has been parked (proof records). */
  datatype World = World(pool: PoolState, readers: map<ReaderId, Reader>,
                         nextConn: Conn, tainted: set<Conn>, silent: nat)

  const INITIAL := World(PoolState([], 0), map[], 0, {}, 0)

  datatype Step =
    | Arrive(r: ReaderId)
    | TakeTurn(r: ReaderId)
    | CloneOk(r: ReaderId)
    | CloneErr(r: ReaderId)
    | Begin(r: ReaderId)
    | End(r: ReaderId, outcome: Outcome)
    | Drop(r: ReaderId)
    | Notify(r: ReaderId, woken: ReaderId)   // notify_one with somebody parked
    | NotifyNobody(r: ReaderId)
    | Spurious(r: ReaderId)

  predicate Is(w: World, r: ReaderId, k: Kind) {
    r in w.readers && KindOf(w.readers[r]) == k
  }

  predicate Enabled(w: World, s: Step) {
    match s
    case Arrive(r) => r !in w.readers
    case TakeTurn(r) => r in w.readers && (w.readers[r].Arriving? || w.readers[r].Woken?)
    case CloneOk(r) => Is(w, r, KCloning)
    case CloneErr(r) => Is(w, r, KCloning)
    case Begin(r) => r in w.readers && w.readers[r].CheckedOut?
    case End(r, _) => r in w.readers && w.readers[r].Reading?
    case Drop(r) => r in w.readers && w.readers[r].Finished?
    case Notify(r, t) => Is(w, r, KNotifying) && Is(w, t, KParked)
    case NotifyNobody(r) => Is(w, r, KNotifying) && forall t | t in w.readers :: !w.readers[t].Parked?
    case Spurious(r) => Is(w, r, KParked)
  }

  function At(w: World, r: ReaderId, reader: Reader): World {
    w.(readers := w.readers[r := reader])
  }

  /** When nobody is parked there is nobody to announce a slot to. */
  function Settled(w: World): World {
    if exists r | r in w.readers :: w.readers[r].Parked? then w else w.(silent := 0)
  }

  function Apply(w: World, s: Step, max: nat): World
    requires Enabled(w, s)
  {
    Settled(Act(w, s, max))
  }

  function Act(w: World, s: Step, max: nat): World
    requires Enabled(w, s)
  {
    match s
    case Arrive(r) => At(w, r, Arriving)
    case TakeTurn(r) =>
      var (pool, t) := Take(w.pool, max);
      At(w, r, match t
               case Got(c) => CheckedOut(c)
               case MustClone => Cloning
               case MustWait => Parked).(pool := pool)
    case CloneOk(r) => At(w, r, CheckedOut(w.nextConn)).(nextConn := w.nextConn + 1)
    case CloneErr(r) =>
      At(w, r, Left).(pool := if w.pool.created > 0 then CloneFailed(w.pool) else w.pool,
                      silent := w.silent + 1)
    case Begin(r) => At(w, r, Reading(w.readers[r].conn))
    case End(r, o) =>
      var c := w.readers[r].conn;
      At(w, r, Finished(c, Reusable(o))).(tainted := if o.ReadOk? then w.tainted else w.tainted + {c})
    case Drop(r) =>
      var reader := w.readers[r];
      At(w, r, Notifying).(pool :=
        if reader.reusable || w.pool.created > 0 then GiveBack(w.pool, reader.conn, reader.reusable) else w.pool)
    case Notify(r, t) => At(At(w, t, Woken), r, Left)
    case NotifyNobody(r) => At(w, r, Left)
    case Spurious(r) => At(w, r, Woken)
  }

  /** A run of any length by any readers in any order. */
  ghost predicate Runs(from: World, steps: seq<Step>, max: nat, to: World)
    decreases |steps|
  {
    if steps == [] then to == from
    else Enabled(from, steps[0]) && Runs(Apply(from, steps[0], max), steps[1..], max, to)
  }

  ghost predicate Reachable(w: World, max: nat) {
    exists steps: seq<Step> :: Runs(INITIAL, steps, max, w)
  }

  // ------------------------------------------------------------------ counts

  datatype Kind = KParked | KWoken | KCloning | KHolding | KNotifying | KOther

  function KindOf(reader: Reader): Kind {
    match reader
    case Parked => KParked
    case Woken => KWoken
    case Cloning => KCloning
    case CheckedOut(_) => KHolding
    case Reading(_) => KHolding
    case Finished(_, _) => KHolding
    case Notifying => KNotifying
    case Arriving => KOther
    case Left => KOther
  }

  function Of(readers: map<ReaderId, Reader>, k: Kind): set<ReaderId> {
    set r | r in readers && KindOf(readers[r]) == k
  }

  function Count(w: World, k: Kind): nat {
    |Of(w.readers, k)|
  }

  function Bit(b: bool): int {
    if b then 1 else 0
  }

  lemma CountMoves(readers: map<ReaderId, Reader>, r: ReaderId, reader: Reader, k: Kind)
    ensures |Of(readers[r := reader], k)| ==
            |Of(readers, k)| - Bit(r in readers && KindOf(readers[r]) == k) + Bit(KindOf(reader) == k)
  {
    var before, after := Of(readers, k), Of(readers[r := reader], k);
    assert after == if KindOf(reader) == k then before + {r} else before - {r};
  }

  /** `to` differs from `w` in that reader `r` has moved, and in the pool. */
  predicate Moved(w: World, r: ReaderId, reader: Reader, to: World) {
    to.readers == w.readers[r := reader]
  }

  predicate Shifted(w: World, r: ReaderId, reader: Reader, to: World, k: Kind) {
    Count(to, k) == Count(w, k) - Bit(Is(w, r, k)) + Bit(KindOf(reader) == k)
  }

  lemma CountsMove(w: World, r: ReaderId, reader: Reader, to: World)
    requires Moved(w, r, reader, to)
    ensures Shifted(w, r, reader, to, KParked) && Shifted(w, r, reader, to, KWoken)
    ensures Shifted(w, r, reader, to, KCloning) && Shifted(w, r, reader, to, KHolding)
    ensures Shifted(w, r, reader, to, KNotifying)
  {
    CountMoves(w.readers, r, reader, KParked);
    CountMoves(w.readers, r, reader, KWoken);
    CountMoves(w.readers, r, reader, KCloning);
    CountMoves(w.readers, r, reader, KHolding);
    CountMoves(w.readers, r, reader, KNotifying);
  }

  // -------------------------------------------------------------- invariants

  /** Free capacity: idle connections and slots not yet created. */
  function Free(w: World, max: nat): int {
    |w.pool.idle| + max - w.pool.created
  }

  /** Every slot is an idle connection, a checked-out one, or one being cloned. */
  predicate Conserved(w: World, max: nat) {
    w.pool.created == |w.pool.idle| + Count(w, KHolding) + Count(w, KCloning) <= max
  }

  predicate Holds(w: World, r: ReaderId) {
    Is(w, r, KHolding)
  }

  /** Each connection is in exactly one place. */
  ghost predicate OnePlace(w: World) {
    && (forall i | 0 <= i < |w.pool.idle| :: w.pool.idle[i] < w.nextConn)
    && (forall i, j | 0 <= i < j < |w.pool.idle| :: w.pool.idle[i] != w.pool.idle[j])
    && (forall r | Holds(w, r) :: w.readers[r].conn < w.nextConn && w.readers[r].conn !in w.pool.idle)
    && (forall r, q | Holds(w, r) && Holds(w, q) && r != q :: w.readers[r].conn != w.readers[q].conn)
  }

  /** A connection whose read failed or panicked is never lent or pooled again. */
  ghost predicate NeverReused(w: World) {
    && (forall c | c in w.tainted :: c < w.nextConn && c !in w.pool.idle)
    && (forall r | Holds(w, r) ::
          w.readers[r].conn in w.tainted <==> w.readers[r].Finished? && !w.readers[r].reusable)
  }

  /** While somebody is parked, free capacity is matched by a wakeup on its way,
      or by a clone that failed since somebody has been parked. */
  predicate NobodyStranded(w: World, max: nat) {
    Count(w, KParked) > 0 ==>
      Free(w, max) <= Count(w, KWoken) + Count(w, KNotifying) + w.silent
  }

  ghost predicate Inv(w: World, max: nat) {
    Conserved(w, max) && OnePlace(w) && NeverReused(w) && NobodyStranded(w, max)
  }

  lemma CountAtLeast(w: World, r: ReaderId, k: Kind)
    requires Is(w, r, k)
    ensures Count(w, k) >= 1
  {
    assert r in Of(w.readers, k);
  }

  lemma CountNone(w: World, k: Kind)
    requires forall r | r in w.readers :: KindOf(w.readers[r]) != k
    ensures Count(w, k) == 0
  {
    assert Of(w.readers, k) == {};
  }

  predicate Balanced(w: World, max: nat) {
    Conserved(w, max) && NobodyStranded(w, max)
  }

  lemma TakeKeepsBalance(w: World, r: ReaderId, max: nat)
    requires Enabled(w, TakeTurn(r)) && Balanced(w, max)
    ensures Balanced(Act(w, TakeTurn(r), max), max)
  {
    var to := Act(w, TakeTurn(r), max);
    CountsMove(w, r, to.readers[r], to);
  }

  lemma DropKeepsBalance(w: World, r: ReaderId, max: nat)
    requires Enabled(w, Drop(r)) && Balanced(w, max)
    ensures w.pool.created > 0 && Balanced(Act(w, Drop(r), max), max)
  {
    CountAtLeast(w, r, KHolding);
    CountsMove(w, r, Notifying, Act(w, Drop(r), max));
  }

  lemma NotifyKeepsBalance(w: World, r: ReaderId, t: ReaderId, max: nat)
    requires Enabled(w, Notify(r, t)) && Balanced(w, max)
    ensures Balanced(Act(w, Notify(r, t), max), max)
  {
    var mid := At(w, t, Woken);
    CountsMove(w, t, Woken, mid);
    CountsMove(mid, r, Left, Act(w, Notify(r, t), max));
  }

  lemma CloneErrKeepsBalance(w: World, r: ReaderId, max: nat)
    requires Enabled(w, CloneErr(r)) && Balanced(w, max)
    ensures w.pool.created > 0 && Balanced(Act(w, CloneErr(r), max), max)
  {
    CountAtLeast(w, r, KCloning);
    CountsMove(w, r, Left, Act(w, CloneErr(r), max));
  }

  lemma NotifyNobodyKeepsBalance(w: World, r: ReaderId, max: nat)
    requires Enabled(w, NotifyNobody(r)) && Balanced(w, max)
    ensures Balanced(Act(w, NotifyNobody(r), max), max)
  {
    CountNone(w, KParked);
    CountsMove(w, r, Left, Act(w, NotifyNobody(r), max));
  }

  /** Steps that move one reader and leave the pool alone. */
  lemma MoveKeepsBalance(w: World, s: Step, max: nat)
    requires Enabled(w, s) && Balanced(w, max)
    requires s.Arrive? || s.CloneOk? || s.Begin? || s.End? || s.Spurious?
    ensures Balanced(Act(w, s, max), max)
  {
    var to := Act(w, s, max);
    CountsMove(w, s.r, to.readers[s.r], to);
  }

  lemma KeepsBalance(w: World, s: Step, max: nat)
    requires Enabled(w, s) && Balanced(w, max)
    ensures Balanced(Act(w, s, max), max)
  {
    match s {
      case TakeTurn(r) => TakeKeepsBalance(w, r, max);
      case Drop(r) => DropKeepsBalance(w, r, max);
      case Notify(r, t) => NotifyKeepsBalance(w, r, t, max);
      case CloneErr(r) => CloneErrKeepsBalance(w, r, max);
      case NotifyNobody(r) => NotifyNobodyKeepsBalance(w, r, max);
      case _ => MoveKeepsBalance(w, s, max);
    }
  }

  lemma PopKeepsPlaces(w: World, r: ReaderId, to: World, idle: seq<Conn>, c: Conn)
    requires OnePlace(w) && NeverReused(w) && !Is(w, r, KHolding)
    requires w.pool.idle == idle + [c] && to.pool.idle == idle
    requires to.readers == w.readers[r := CheckedOut(c)] && to.nextConn == w.nextConn && to.tainted == w.tainted
    ensures OnePlace(to) && NeverReused(to)
  {
    assert w.pool.idle[|idle|] == c && c in w.pool.idle;
    forall i | 0 <= i < |idle| ensures idle[i] == w.pool.idle[i] && idle[i] != c {}
    forall d | d in idle ensures d in w.pool.idle {}
    forall q | Holds(to, q) && q != r ensures Holds(w, q) && w.readers[q] == to.readers[q] {}
  }

  lemma TakeKeepsPlaces(w: World, r: ReaderId, max: nat)
    requires Enabled(w, TakeTurn(r)) && OnePlace(w) && NeverReused(w)
    ensures OnePlace(Act(w, TakeTurn(r), max)) && NeverReused(Act(w, TakeTurn(r), max))
  {
    var to := Act(w, TakeTurn(r), max);
    if w.pool.idle != [] {
      PopKeepsPlaces(w, r, to, w.pool.idle[..|w.pool.idle| - 1], w.pool.idle[|w.pool.idle| - 1]);
    } else {
      LeaveKeepsPlaces(w, to);
    }
  }

  lemma DropKeepsPlaces(w: World, r: ReaderId, max: nat)
    requires Enabled(w, Drop(r)) && Conserved(w, max) && OnePlace(w) && NeverReused(w)
    ensures OnePlace(Act(w, Drop(r), max)) && NeverReused(Act(w, Drop(r), max))
  {
    var to := Act(w, Drop(r), max);
    CountAtLeast(w, r, KHolding);
    assert Holds(w, r);
    forall q | Holds(to, q) ensures q != r && Holds(w, q) && w.readers[q] == to.readers[q] {}
  }

  /** Steps in which nobody comes to hold a connection. */
  lemma LeaveKeepsPlaces(w: World, to: World)
    requires OnePlace(w) && NeverReused(w)
    requires to.pool.idle == w.pool.idle && to.nextConn == w.nextConn && to.tainted == w.tainted
    requires forall q | Holds(to, q) :: Holds(w, q) && w.readers[q] == to.readers[q]
    ensures OnePlace(to) && NeverReused(to)
  {
  }

  lemma OtherKeepsPlaces(w: World, s: Step, max: nat)
    requires Enabled(w, s) && OnePlace(w) && NeverReused(w)
    requires s.Arrive? || s.CloneErr? || s.Notify? || s.NotifyNobody? || s.Spurious?
    ensures OnePlace(Act(w, s, max)) && NeverReused(Act(w, s, max))
  {
    LeaveKeepsPlaces(w, Act(w, s, max));
  }

  lemma CloneOkKeepsPlaces(w: World, r: ReaderId, max: nat)
    requires Enabled(w, CloneOk(r)) && OnePlace(w) && NeverReused(w)
    ensures OnePlace(Act(w, CloneOk(r), max)) && NeverReused(Act(w, CloneOk(r), max))
  {
    var to := Act(w, CloneOk(r), max);
    forall q | Holds(to, q) && q != r ensures Holds(w, q) && w.readers[q] == to.readers[q] {}
    forall i | 0 <= i < |w.pool.idle| ensures w.pool.idle[i] != w.nextConn {}
  }

  /** `Begin` and `End`: the holder keeps its connection. */
  lemma HoldKeepsPlaces(w: World, s: Step, max: nat)
    requires Enabled(w, s) && OnePlace(w) && NeverReused(w) && (s.Begin? || s.End?)
    ensures OnePlace(Act(w, s, max)) && NeverReused(Act(w, s, max))
  {
    var to, r := Act(w, s, max), s.r;
    assert Holds(w, r) && to.readers[r].conn == w.readers[r].conn && to.pool == w.pool;
    forall q | Holds(to, q) ensures Holds(w, q) && w.readers[q].conn == to.readers[q].conn {}
    forall q | Holds(to, q) && q != r ensures w.readers[q] == to.readers[q] {}
  }

  lemma KeepsPlaces(w: World, s: Step, max: nat)
    requires Enabled(w, s) && Conserved(w, max) && OnePlace(w) && NeverReused(w)
    ensures OnePlace(Act(w, s, max)) && NeverReused(Act(w, s, max))
  {
    match s {
      case TakeTurn(r) => TakeKeepsPlaces(w, r, max);
      case Drop(r) => DropKeepsPlaces(w, r, max);
      case CloneOk(r) => CloneOkKeepsPlaces(w, r, max);
      case Begin(r) => HoldKeepsPlaces(w, s, max);
      case End(r, _) => HoldKeepsPlaces(w, s, max);
      case _ => OtherKeepsPlaces(w, s, max);
    }
  }

  lemma SettlingKeeps(w: World, max: nat)
    requires Inv(w, max)
    ensures Inv(Settled(w), max)
  {
    if forall r | r in w.readers :: !w.readers[r].Parked? {
      CountNone(w, KParked);
      assert Count(Settled(w), KParked) == Count(w, KParked);
    }
  }

  /** Every step by any reader keeps the invariant. */
  lemma StepKeepsInv(w: World, s: Step, max: nat)
    requires Enabled(w, s) && Inv(w, max)
    ensures Inv(Apply(w, s, max), max)
  {
    KeepsBalance(w, s, max);
    KeepsPlaces(w, s, max);
    SettlingKeeps(Act(w, s, max), max);
  }

  lemma {:induction false} RunKeepsInv(w: World, steps: seq<Step>, max: nat, to: World)
    requires Inv(w, max) && Runs(w, steps, max, to)
    ensures Inv(to, max)
    decreases |steps|
  {
    if steps == [] {
    } else {
      StepKeepsInv(w, steps[0], max);
      RunKeepsInv(Apply(w, steps[0], max), steps[1..], max, to);
    }
  }

  /** Conservation, exclusive use, no reuse after failure, and no lost wakeup, in
      every state any interleaving can reach. */
  lemma PoolIsSafe(w: World, max: nat)
    requires Reachable(w, max)
    ensures Conserved(w, max) && OnePlace(w) && NeverReused(w) && NobodyStranded(w, max)
  {
    forall k ensures Count(INITIAL, k) == 0 { CountNone(INITIAL, k); }
    var steps: seq<Step> :| Runs(INITIAL, steps, max, w);
    RunKeepsInv(INITIAL, steps, max, w);
  }

  // ------------------------------------------------- exactly who can be stranded

  /** Somebody is parked beside free capacity, and no wakeup is on its way. */
  predicate Stranded(w: World, max: nat) {
    Count(w, KParked) > 0 && Free(w, max) > 0 && Count(w, KWoken) == 0 && Count(w, KNotifying) == 0
  }

  /** Readers `0..n` have all arrived and are cloning. */
  function AllCloning(n: nat): World {
    World(PoolState([], n), CloningReaders(n), 0, {}, 0)
  }

  function CloningReaders(n: nat): (m: map<ReaderId, Reader>)
    ensures forall r: ReaderId :: r in m <==> r < n
    ensures forall r | r in m :: m[r] == Cloning
  {
    if n == 0 then map[] else CloningReaders(n - 1)[n - 1 := Cloning]
  }

  lemma {:induction false} RunsSnoc(a: World, steps: seq<Step>, max: nat, b: World, s: Step)
    requires Runs(a, steps, max, b) && Enabled(b, s)
    ensures Runs(a, steps + [s], max, Apply(b, s, max))
    decreases |steps|
  {
    if steps == [] {
      assert [s][1..] == [];
      assert steps + [s] == [s];
    } else {
      assert (steps + [s])[1..] == steps[1..] + [s];
      RunsSnoc(Apply(a, steps[0], max), steps[1..], max, b, s);
    }
  }

  /** One step more. */
  lemma RunsOn(a: World, s: Step, max: nat) returns (b: World)
    requires Reachable(a, max) && Enabled(a, s)
    ensures b == Apply(a, s, max) && Reachable(b, max)
  {
    b := Apply(a, s, max);
    var steps: seq<Step> :| Runs(INITIAL, steps, max, a);
    RunsSnoc(INITIAL, steps, max, a, s);
  }

  lemma {:induction false} AllCloningIsReachable(n: nat, max: nat)
    requires n <= max
    ensures Reachable(AllCloning(n), max)
  {
    if n == 0 {
      assert AllCloning(0).readers == map[];
      assert Runs(INITIAL, [], max, AllCloning(0));
    } else {
      AllCloningIsReachable(n - 1, max);
      var arrived := RunsOn(AllCloning(n - 1), Arrive(n - 1), max);
      var to := RunsOn(arrived, TakeTurn(n - 1), max);
      assert to.readers == AllCloning(n).readers;
    }
  }

  lemma NewcomerParks(max: nat) returns (w: World)
    requires max > 0
    ensures Reachable(w, max) && w.readers == AllCloning(max).readers[max := Parked]
    ensures w.pool == PoolState([], max) && w.silent == 0
  {
    AllCloningIsReachable(max, max);
    var arrived := RunsOn(AllCloning(max), Arrive(max), max);
    w := RunsOn(arrived, TakeTurn(max), max);
  }

  /** With all slots being cloned, one more reader parks and one clone fails. */
  lemma FailedCloneStrands(max: nat) returns (w: World)
    requires max > 0
    ensures Reachable(w, max) && Stranded(w, max) && w.silent == 1
  {
    var parked := NewcomerParks(max);
    w := RunsOn(parked, CloneErr(0), max);
    assert w.readers[max] == Parked;
    CountAtLeast(w, max, KParked);
    CountNone(w, KWoken);
    CountNone(w, KNotifying);
  }

  /** Reachable when clones are reliable, or when they may fail. */
  ghost predicate ReachableIf(w: World, max: nat, mayFail: bool) {
    exists steps: seq<Step> :: Runs(INITIAL, steps, max, w) && (mayFail || forall s | s in steps :: !s.CloneErr?)
  }

  lemma {:induction false} ReliableRun(w: World, steps: seq<Step>, max: nat, to: World)
    requires Runs(w, steps, max, to) && forall s | s in steps :: !s.CloneErr?
    ensures w.silent == 0 ==> to.silent == 0
    decreases |steps|
  {
    if steps == [] {
    } else {
      ReliableRun(Apply(w, steps[0], max), steps[1..], max, to);
    }
  }

  /** The pool strands no waiter exactly when cloning a connection cannot fail. */
  lemma StrandsOnlyIfClonesFail(max: nat, mayFail: bool)
    requires max > 0
    ensures (forall w | ReachableIf(w, max, mayFail) :: !Stranded(w, max)) <==> !mayFail
  {
    if mayFail {
      var w := FailedCloneStrands(max);
      assert ReachableIf(w, max, mayFail);
    } else {
      forall w | ReachableIf(w, max, mayFail) ensures !Stranded(w, max) {
        var steps: seq<Step> :| Runs(INITIAL, steps, max, w) && forall s | s in steps :: !s.CloneErr?;
        ReliableRun(INITIAL, steps, max, w);
        PoolIsSafe(w, max);
      }
    }
  }

  /** With no wakeup on its way, and no clone failed since somebody has been parked, a
      parked reader waits for connections that are all really in use. */
  lemma WaitersWaitForWork(w: World, max: nat)
    requires Reachable(w, max) && w.silent == 0
    requires Count(w, KParked) > 0 && Count(w, KWoken) == 0 && Count(w, KNotifying) == 0
    ensures Count(w, KHolding) + Count(w, KCloning) == max && w.pool.idle == []
  {
    PoolIsSafe(w, max);
  }

  /** The connection of a read that succeeded is pooled when its guard is dropped, as the
      next to be lent; that of any other read is discarded, with its slot. */
  lemma OnlySuccessfulReadsArePooled(w: World, r: ReaderId, o: Outcome, max: nat)
    requires Reachable(w, max) && Enabled(w, End(r, o))
    ensures var c, ended := w.readers[r].conn, Apply(w, End(r, o), max);
      var to := Apply(ended, Drop(r), max);
      if o.ReadOk? then to.pool.created == w.pool.created && Take(to.pool, max).1 == Got(c)
      else to.pool.idle == w.pool.idle && to.pool.created == w.pool.created - 1 && c !in to.pool.idle
  {
    PoolIsSafe(w, max);
    CountAtLeast(w, r, KHolding);
    assert Holds(w, r);
  }
}
