/** The in-flight registry: cancelling the operations of a pond being dropped.
    First as the object the node holds, one call at a time; then with `register`
    and `begin_drop` split where they take their two locks. */
module InFlight {
  import opened Options

  type OpId = string
  type PondId = string

  datatype OpInfo = OpInfo(pond: Option<PondId>, cancelled: bool)

  /** The registry as a value: what each running operation's token says, and the
      tombstoned ponds. */
  datatype State = State(ops: map<OpId, OpInfo>, dropping: set<PondId>)

  predicate On(o: OpInfo, pond: PondId) {
    o.pond == Some(pond)
  }

  /** A token registered now starts cancelled if its pond is tombstoned. */
  function PreCancelled(s: State, pond: Option<PondId>): bool {
    pond.Some? && pond.value in s.dropping
  }

  function Registered(s: State, op: OpId, pond: Option<PondId>, cancelled: bool): State {
    s.(ops := s.ops[op := OpInfo(pond, cancelled)])
  }

  function Completed(s: State, op: OpId): State {
    s.(ops := s.ops - {op})
  }

  function CancelledOne(s: State, op: OpId): State {
    if op in s.ops then s.(ops := s.ops[op := s.ops[op].(cancelled := true)]) else s
  }

  function Swept(s: State, pond: PondId): State {
    s.(ops := map o | o in s.ops :: OpInfo(s.ops[o].pond, s.ops[o].cancelled || On(s.ops[o], pond)))
  }

  function Tombstoned(s: State, pond: PondId): State {
    s.(dropping := s.dropping + {pond})
  }

  function Cleared(s: State, pond: PondId): State {
    s.(dropping := s.dropping - {pond})
  }

  // ------------------------------------------------------------- the object

  class AbortToken {
    var cancelled: bool

    constructor ()
      ensures !cancelled
    {
      cancelled := false;
    }

    method Cancel()
      modifies this
      ensures cancelled
    {
      cancelled := true;
    }
  }

  datatype Entry = Entry(token: AbortToken, pond: Option<PondId>)

  class Registry {
    var entries: map<OpId, Entry>
    var dropping: set<PondId>

    /** No two operations share a token. */
    ghost predicate Valid()
      reads this
    {
      forall a, b | a in entries && b in entries && a != b :: entries[a].token != entries[b].token
    }

    ghost function Tokens(): set<AbortToken>
      reads this
    {
      set o | o in entries :: entries[o].token
    }

    ghost function View(): State
      reads this, Tokens()
    {
      State(map o | o in entries :: OpInfo(entries[o].pond, entries[o].token.cancelled), dropping)
    }

    constructor ()
      ensures Valid() && View() == State(map[], {})
    {
      entries, dropping := map[], {};
    }

    method Register(op: OpId, pond: Option<PondId>) returns (token: AbortToken)
      requires Valid() && op !in entries
      modifies this
      ensures Valid() && fresh(token) && op in entries && entries[op].token == token
      ensures View() == Registered(old(View()), op, pond, PreCancelled(old(View()), pond))
    {
      ghost var before := View();
      token := new AbortToken();
      if pond.Some? && pond.value in dropping {
        token.Cancel();
      }
      assert View() == before;
      Insert(op, token, pond);
    }

    method Insert(op: OpId, token: AbortToken, pond: Option<PondId>)
      requires Valid() && op !in entries && token !in Tokens()
      modifies this`entries
      ensures entries == old(entries)[op := Entry(token, pond)] && Valid()
      ensures View() == Registered(old(View()), op, pond, token.cancelled)
    {
      ghost var before := View();
      entries := entries[op := Entry(token, pond)];
      assert View().ops == before.ops[op := OpInfo(pond, token.cancelled)];
    }

    method Complete(op: OpId)
      requires Valid()
      modifies this
      ensures Valid() && View() == Completed(old(View()), op)
    {
      entries := entries - {op};
    }

    method CancelOp(op: OpId)
      requires Valid()
      modifies Tokens()
      ensures Valid() && View() == CancelledOne(old(View()), op)
      ensures forall o | o in entries :: entries[o].token.cancelled == (old(entries[o].token.cancelled) || o == op)
    {
      if op in entries {
        entries[op].token.Cancel();
      }
    }

    method CancelForPond(pond: PondId)
      requires Valid()
      modifies Tokens()
      ensures Valid() && View() == Swept(old(View()), pond)
      ensures forall o | o in entries ::
        entries[o].token.cancelled == (old(entries[o].token.cancelled) || entries[o].pond == Some(pond))
    {
      var todo := entries.Keys;
      while todo != {}
        invariant todo <= entries.Keys
        invariant forall o | o in entries ::
          entries[o].token.cancelled == (old(entries[o].token.cancelled) || (o !in todo && entries[o].pond == Some(pond)))
        decreases |todo|
      {
        var o :| o in todo;
        if entries[o].pond == Some(pond) {
          entries[o].token.Cancel();
        }
        todo := todo - {o};
      }
    }

    method BeginDrop(pond: PondId)
      requires Valid()
      modifies this`dropping, Tokens()
      ensures Valid() && View() == Swept(Tombstoned(old(View()), pond), pond)
      ensures entries == old(entries) && forall o | o in entries ::
        entries[o].token.cancelled == (old(entries[o].token.cancelled) || entries[o].pond == Some(pond))
    {
      dropping := dropping + {pond};
      CancelForPond(pond);
    }

    method EndDrop(pond: PondId)
      requires Valid()
      modifies this`dropping
      ensures Valid() && View() == Cleared(old(View()), pond)
    {
      dropping := dropping - {pond};
    }

    /** The local half of `drop_pond`, given what the control plane answered; the
        storage and engine calls in between touch neither collection. */
    method DropPondLocally(pond: PondId, registryOk: bool) returns (ok: bool)
      requires Valid()
      modifies this`dropping, Tokens()
      ensures Valid() && ok == registryOk
      ensures View() == Cleared(Swept(Tombstoned(old(View()), pond), pond), pond)
      ensures entries == old(entries) && forall o | o in entries ::
        entries[o].token.cancelled == (old(entries[o].token.cancelled) || entries[o].pond == Some(pond))
    {
      BeginDrop(pond);
      if !registryOk {
        EndDrop(pond);
        return false;
      }
      EndDrop(pond);
      return true;
    }
  }

  // ------------------------------------------- many calls, split at the locks

  /** A registration between its look at `dropping` and its insert into `map`. */
  datatype Pending = Pending(pond: Option<PondId>, cancelled: bool)

  /** Where the local half of one `drop_pond` stands. */
  datatype Phase =
    | Tombstoning    // in `begin_drop`: the tombstone is set, the sweep comes next
    | Asking         // `begin_drop` is done, the control plane's answer is awaited
    | Deleting       // agreed: the instance is evicted and the files are deleted
    | Failing        // refused
    | Ended          // `end_drop` is done
    | Abandoned      // its future was dropped at an await

  type DropId = nat

  datatype Drop = Drop(target: PondId, phase: Phase)

  /** `clock` counts steps. The times, of a look, an insert, a pond becoming
      tombstoned, and the first sweep since, are proof records; `checkedAt` also
      remembers the operation ids drawn so far, so that a new one is new. */
  datatype World = World(state: State, pending: map<OpId, Pending>, drops: map<DropId, Drop>,
                         clock: nat, checkedAt: map<OpId, nat>, insertedAt: map<OpId, nat>,
                         tombAt: map<PondId, nat>, sweptAt: map<PondId, nat>)

  const INITIAL := World(State(map[], {}), map[], map[], 0, map[], map[], map[], map[])

  datatype Step =
    | Look(op: OpId, pond: Option<PondId>)
    | Insert(op: OpId)
    | Complete(op: OpId)
    | Cancel(op: OpId)
    | Tombstone(d: DropId, target: PondId)
    | Sweep(d: DropId)
    | Hear(d: DropId, ok: bool)
    | EndDrop(d: DropId)
    | Abandon(d: DropId)

  /** `split`: steps of other calls may come between the two halves of `register`
      and of `begin_drop`. `overlap`: a pond may be dropped again while a drop of it
      is under way. `abandon`: a drop's future may be dropped at an await. */
  datatype Regime = Regime(split: bool, overlap: bool, abandon: bool)

  predicate InPhase(w: World, d: DropId, x: Phase) {
    d in w.drops && w.drops[d].phase == x
  }

  predicate UnderWay(x: Phase) {
    x.Tombstoning? || x.Asking? || x.Deleting? || x.Failing?
  }

  /** Some drop of `p` has been through `begin_drop` and not through `end_drop`. */
  predicate BeingDropped(w: World, p: PondId) {
    exists d | d in w.drops :: w.drops[d].target == p && UnderWay(w.drops[d].phase) && !w.drops[d].phase.Tombstoning?
  }

  /** Some call is between its two halves. */
  predicate Busy(w: World) {
    w.pending != map[] || exists d | d in w.drops :: w.drops[d].phase.Tombstoning?
  }

  predicate Enabled(w: World, s: Step, g: Regime) {
    && (match s
        case Look(op, _) => op !in w.checkedAt
        case Insert(op) => op in w.pending
        case Complete(_) => true
        case Cancel(_) => true
        case Tombstone(d, p) =>
          d !in w.drops && (g.overlap || forall e | e in w.drops && w.drops[e].target == p :: !UnderWay(w.drops[e].phase))
        case Sweep(d) => InPhase(w, d, Tombstoning)
        case Hear(d, _) => InPhase(w, d, Asking)
        case EndDrop(d) => InPhase(w, d, Deleting) || InPhase(w, d, Failing)
        case Abandon(d) => g.abandon && (InPhase(w, d, Asking) || InPhase(w, d, Deleting)))
    && (g.split || s.Insert? || s.Sweep? || !Busy(w))
  }

  function To(w: World, d: DropId, x: Phase): World
    requires d in w.drops
  {
    w.(drops := w.drops[d := Drop(w.drops[d].target, x)])
  }

  function Apply(w: World, s: Step, g: Regime): World
    requires Enabled(w, s, g)
  {
    var now := w.clock;
    var w' := w.(clock := now + 1);
    match s
    case Look(op, pond) =>
      w'.(pending := w.pending[op := Pending(pond, PreCancelled(w.state, pond))], checkedAt := w.checkedAt[op := now])
    case Insert(op) =>
      w'.(state := Registered(w.state, op, w.pending[op].pond, w.pending[op].cancelled),
          pending := w.pending - {op}, insertedAt := w.insertedAt[op := now])
    case Complete(op) => w'.(state := Completed(w.state, op))
    case Cancel(op) => w'.(state := CancelledOne(w.state, op))
    case Tombstone(d, p) =>
      var w'' := w'.(state := Tombstoned(w.state, p), drops := w.drops[d := Drop(p, Tombstoning)]);
      if p in w.state.dropping then w'' else w''.(tombAt := w.tombAt[p := now], sweptAt := w.sweptAt - {p})
    case Sweep(d) =>
      var p := w.drops[d].target;
      To(w', d, Asking).(state := Swept(w.state, p),
                         sweptAt := if p in w.sweptAt then w.sweptAt else w.sweptAt[p := now])
    case Hear(d, ok) => To(w', d, if ok then Deleting else Failing)
    case EndDrop(d) => To(w', d, Ended).(state := Cleared(w.state, w.drops[d].target))
    case Abandon(d) => To(w', d, Abandoned)
  }

  ghost predicate Runs(from: World, steps: seq<Step>, g: Regime, to: World)
    decreases |steps|
  {
    if steps == [] then to == from
    else Enabled(from, steps[0], g) && Runs(Apply(from, steps[0], g), steps[1..], g, to)
  }

  ghost predicate Reachable(w: World, g: Regime) {
    exists steps :: Runs(INITIAL, steps, g, w)
  }

  // --------------------------------------------- what every interleaving keeps

  ghost predicate Timed(w: World) {
    && w.pending.Keys <= w.checkedAt.Keys && w.state.ops.Keys <= w.checkedAt.Keys
    && w.state.ops.Keys <= w.insertedAt.Keys && w.state.dropping <= w.tombAt.Keys
    && (forall o | o in w.checkedAt :: w.checkedAt[o] < w.clock)
    && (forall o | o in w.insertedAt :: w.insertedAt[o] < w.clock)
    && (forall p | p in w.sweptAt :: w.sweptAt[p] < w.clock)
  }

  /** Operation `o` got past the tombstone of `p`: it looked before the tombstone
      was set, and entered the map after the sweep that followed. */
  ghost predicate SlippedPast(w: World, o: OpId, p: PondId)
    requires Timed(w) && o in w.state.ops && p in w.state.dropping
  {
    w.checkedAt[o] < w.tombAt[p] && (p in w.sweptAt ==> w.sweptAt[p] < w.insertedAt[o])
  }

  /** `o` runs on `p`, or is about to, with a live token although `p` is tombstoned. */
  predicate Live(w: World, o: OpId, p: PondId) {
    o in w.state.ops && p in w.state.dropping && On(w.state.ops[o], p) && !w.state.ops[o].cancelled
  }

  predicate AboutToLive(w: World, o: OpId, p: PondId) {
    o in w.pending && p in w.state.dropping && w.pending[o].pond == Some(p) && !w.pending[o].cancelled
  }

  ghost predicate LiveInv(w: World)
    requires Timed(w)
  {
    && (forall o, p | Live(w, o, p) :: SlippedPast(w, o, p))
    && (forall o, p | AboutToLive(w, o, p) :: w.checkedAt[o] < w.tombAt[p])
  }

  ghost predicate Inv(w: World) {
    Timed(w) && LiveInv(w)
  }

  lemma TombstoneKeepsTimed(w: World, d: DropId, p: PondId, g: Regime)
    requires Timed(w) && Enabled(w, Tombstone(d, p), g)
    ensures Timed(Apply(w, Tombstone(d, p), g))
  {
    var to := Apply(w, Tombstone(d, p), g);
    assert to.clock == w.clock + 1 && to.checkedAt == w.checkedAt && to.insertedAt == w.insertedAt;
    assert to.pending == w.pending && to.state.ops == w.state.ops;
    if p !in w.state.dropping {
      assert to.sweptAt == w.sweptAt - {p} && to.tombAt.Keys == w.tombAt.Keys + {p};
      forall q | q in to.sweptAt ensures to.sweptAt[q] < to.clock { assert q in w.sweptAt; }
    } else {
      assert to.sweptAt == w.sweptAt && to.tombAt == w.tombAt;
    }
  }

  lemma SweepKeepsTimed(w: World, d: DropId, g: Regime)
    requires Timed(w) && Enabled(w, Sweep(d), g)
    ensures Timed(Apply(w, Sweep(d), g))
  {
    var to := Apply(w, Sweep(d), g);
    assert to.state.ops.Keys == w.state.ops.Keys;
    assert forall q | q in to.sweptAt :: to.sweptAt[q] == w.clock || (q in w.sweptAt && to.sweptAt[q] == w.sweptAt[q]);
  }

  lemma StepKeepsTimed(w: World, s: Step, g: Regime)
    requires Timed(w) && Enabled(w, s, g)
    ensures Timed(Apply(w, s, g))
  {
    match s {
      case Tombstone(d, p) => TombstoneKeepsTimed(w, d, p, g);
      case Sweep(d) => SweepKeepsTimed(w, d, g);
      case _ =>
    }
  }

  /** A step after which nobody is live who was not live before, all records kept. */
  lemma FewerLive(w: World, to: World)
    requires Inv(w) && Timed(to)
    requires forall o, p | Live(to, o, p) :: Live(w, o, p) && (SlippedPast(w, o, p) ==> SlippedPast(to, o, p))
    requires forall o, p | AboutToLive(to, o, p) ::
      AboutToLive(w, o, p) && to.checkedAt[o] == w.checkedAt[o] && to.tombAt[p] == w.tombAt[p]
    ensures Inv(to)
  {
  }

  lemma LookKeepsInv(w: World, o: OpId, pond: Option<PondId>, g: Regime)
    requires Inv(w) && Enabled(w, Look(o, pond), g)
    ensures Inv(Apply(w, Look(o, pond), g))
  {
    var to := Apply(w, Look(o, pond), g);
    StepKeepsTimed(w, Look(o, pond), g);
    forall q, p | AboutToLive(to, q, p) ensures to.checkedAt[q] < to.tombAt[p] {
      assert q != o && AboutToLive(w, q, p);
    }
    forall q, p | Live(to, q, p) ensures SlippedPast(to, q, p) {
      assert Live(w, q, p);
    }
  }

  lemma InsertKeepsInv(w: World, o: OpId, g: Regime)
    requires Inv(w) && Enabled(w, Insert(o), g)
    ensures Inv(Apply(w, Insert(o), g))
  {
    var to := Apply(w, Insert(o), g);
    StepKeepsTimed(w, Insert(o), g);
    forall q, p | Live(to, q, p) ensures SlippedPast(to, q, p) {
      if q == o { assert AboutToLive(w, o, p); } else { assert Live(w, q, p); }
    }
    forall q, p | AboutToLive(to, q, p) ensures to.checkedAt[q] < to.tombAt[p] {
      assert AboutToLive(w, q, p);
    }
  }

  /** Steps that only take live operations away. */
  lemma EndKeepsInv(w: World, s: Step, g: Regime)
    requires Inv(w) && Enabled(w, s, g)
    requires s.Complete? || s.Cancel? || s.Hear? || s.EndDrop? || s.Abandon?
    ensures Inv(Apply(w, s, g))
  {
    var to := Apply(w, s, g);
    StepKeepsTimed(w, s, g);
    forall o, p | Live(to, o, p)
      ensures Live(w, o, p) && (SlippedPast(w, o, p) ==> SlippedPast(to, o, p))
    {
    }
    forall o, p | AboutToLive(to, o, p) ensures AboutToLive(w, o, p) {}
    FewerLive(w, to);
  }

  /** Setting a tombstone anew: everyone on the pond looked before it. */
  lemma NewTombstoneKeepsInv(w: World, d: DropId, p: PondId, g: Regime)
    requires Inv(w) && Enabled(w, Tombstone(d, p), g) && p !in w.state.dropping
    ensures Inv(Apply(w, Tombstone(d, p), g))
  {
    var to := Apply(w, Tombstone(d, p), g);
    StepKeepsTimed(w, Tombstone(d, p), g);
    assert to.state.ops == w.state.ops && to.pending == w.pending && to.checkedAt == w.checkedAt;
    assert to.tombAt[p] == w.clock && p !in to.sweptAt;
    forall o, q | Live(to, o, q) ensures SlippedPast(to, o, q) {
      if q != p { assert Live(w, o, q) && SlippedPast(w, o, q); }
    }
    forall o, q | AboutToLive(to, o, q) ensures to.checkedAt[o] < to.tombAt[q] {
      if q != p { assert AboutToLive(w, o, q); }
    }
  }

  lemma TombstoneKeepsInv(w: World, d: DropId, p: PondId, g: Regime)
    requires Inv(w) && Enabled(w, Tombstone(d, p), g)
    ensures Inv(Apply(w, Tombstone(d, p), g))
  {
    if p !in w.state.dropping {
      NewTombstoneKeepsInv(w, d, p, g);
    } else {
      var to := Apply(w, Tombstone(d, p), g);
      StepKeepsTimed(w, Tombstone(d, p), g);
      assert to.state.dropping == w.state.dropping;
      forall o, q | Live(to, o, q) ensures Live(w, o, q) {}
      forall o, q | AboutToLive(to, o, q) ensures AboutToLive(w, o, q) {}
      FewerLive(w, to);
    }
  }

  lemma SweepKeepsInv(w: World, d: DropId, g: Regime)
    requires Inv(w) && Enabled(w, Sweep(d), g)
    ensures Inv(Apply(w, Sweep(d), g))
  {
    var to, p := Apply(w, Sweep(d), g), w.drops[d].target;
    StepKeepsTimed(w, Sweep(d), g);
    forall o, q | Live(to, o, q)
      ensures Live(w, o, q) && (SlippedPast(w, o, q) ==> SlippedPast(to, o, q))
    {
      assert q != p;
    }
    forall o, q | AboutToLive(to, o, q) ensures AboutToLive(w, o, q) {}
    FewerLive(w, to);
  }

  lemma {:induction false} RunKeepsInv(w: World, steps: seq<Step>, g: Regime, to: World)
    requires Inv(w) && Runs(w, steps, g, to)
    ensures Inv(to)
    decreases |steps|
  {
    if steps == [] {
    } else {
      var s := steps[0];
      match s {
        case Tombstone(d, p) => TombstoneKeepsInv(w, d, p, g);
        case Sweep(d) => SweepKeepsInv(w, d, g);
        case Look(o, pond) => LookKeepsInv(w, o, pond, g);
        case Insert(o) => InsertKeepsInv(w, o, g);
        case _ => EndKeepsInv(w, s, g);
      }
      RunKeepsInv(Apply(w, s, g), steps[1..], g, to);
    }
  }

  /** In any interleaving, overlapping and abandoned drops included, an operation on
      a tombstoned pond holds a live token only if it looked before the tombstone
      and, once a sweep has followed, entered the map after it. */
  lemma OnlySlippersRun(w: World, o: OpId, p: PondId, g: Regime)
    requires Reachable(w, g) && o in w.state.ops && p in w.state.dropping
    requires On(w.state.ops[o], p) && !w.state.ops[o].cancelled
    ensures Timed(w) && SlippedPast(w, o, p)
  {
    var steps :| Runs(INITIAL, steps, g, w);
    RunKeepsInv(INITIAL, steps, g, w);
  }

  // ------------------------------------------------ every tombstone has its drop

  /** Every tombstoned pond has a drop under way, which is yet to clear it. */
  ghost predicate TombstonesAreOwned(w: World) {
    forall p | p in w.state.dropping :: exists d :: d in w.drops && w.drops[d].target == p && UnderWay(w.drops[d].phase)
  }

  lemma StepKeepsOwned(w: World, s: Step, g: Regime)
    requires TombstonesAreOwned(w) && Enabled(w, s, g) && !s.Abandon?
    ensures TombstonesAreOwned(Apply(w, s, g))
  {
    var to := Apply(w, s, g);
    forall p | p in to.state.dropping
      ensures exists d :: d in to.drops && to.drops[d].target == p && UnderWay(to.drops[d].phase)
    {
      if s.Tombstone? && s.target == p {
        assert to.drops[s.d] == Drop(p, Tombstoning);
      } else {
        assert p in w.state.dropping;
        var d :| d in w.drops && w.drops[d].target == p && UnderWay(w.drops[d].phase);
        assert d in to.drops && to.drops[d].target == p && UnderWay(to.drops[d].phase);
      }
    }
  }

  lemma {:induction false} RunKeepsOwned(w: World, steps: seq<Step>, g: Regime, to: World)
    requires TombstonesAreOwned(w) && Runs(w, steps, g, to) && !g.abandon
    ensures TombstonesAreOwned(to)
    decreases |steps|
  {
    if steps == [] {
    } else {
      StepKeepsOwned(w, steps[0], g);
      RunKeepsOwned(Apply(w, steps[0], g), steps[1..], g, to);
    }
  }

  lemma {:induction false} RunsSnoc(a: World, steps: seq<Step>, g: Regime, b: World, s: Step)
    requires Runs(a, steps, g, b) && Enabled(b, s, g)
    ensures Runs(a, steps + [s], g, Apply(b, s, g))
    decreases |steps|
  {
    if steps == [] {
      assert [s][1..] == [];
      assert steps + [s] == [s];
    } else {
      assert (steps + [s])[1..] == steps[1..] + [s];
      RunsSnoc(Apply(a, steps[0], g), steps[1..], g, b, s);
    }
  }

  lemma InitialIsReachable(g: Regime)
    ensures Reachable(INITIAL, g)
  {
    assert Runs(INITIAL, [], g, INITIAL);
  }

  /** One step more. */
  lemma RunsOn(a: World, s: Step, g: Regime) returns (b: World)
    requires Reachable(a, g) && Enabled(a, s, g)
    ensures b == Apply(a, s, g) && Reachable(b, g)
  {
    b := Apply(a, s, g);
    var steps :| Runs(INITIAL, steps, g, a);
    RunsSnoc(INITIAL, steps, g, a, s);
  }

  /** The first drop of all has been through `begin_drop`. */
  lemma FirstDropBegins(p: PondId, g: Regime) returns (w: World)
    ensures Reachable(w, g) && w.drops == map[0 := Drop(p, Asking)] && w.pending == map[] && w.checkedAt == map[]
    ensures w.state == State(map[], {p}) && !Busy(w)
  {
    InitialIsReachable(g);
    var w1 := RunsOn(INITIAL, Tombstone(0, p), g);
    w := RunsOn(w1, Sweep(0), g);
  }

  /** A drop abandoned while it waits for the control plane leaves its tombstone for good. */
  lemma AbandonedDropLeavesTombstone(p: PondId, g: Regime) returns (w: World)
    requires g.abandon
    ensures Reachable(w, g) && !TombstonesAreOwned(w)
  {
    var begun := FirstDropBegins(p, g);
    w := RunsOn(begun, Abandon(0), g);
    assert p in w.state.dropping && forall d | d in w.drops :: w.drops[d].phase == Abandoned;
  }

  /** No tombstone outlives its drops, on success or on refusal, however drops and
      operations interleave and overlap: true of every run exactly when no drop is
      abandoned at an await. */
  lemma TombstonesEndUnlessAbandoned(g: Regime)
    ensures (forall w | Reachable(w, g) :: TombstonesAreOwned(w)) <==> !g.abandon
  {
    if g.abandon {
      var w := AbandonedDropLeavesTombstone("pond", g);
    } else {
      forall w | Reachable(w, g) ensures TombstonesAreOwned(w) {
        var steps :| Runs(INITIAL, steps, g, w);
        RunKeepsOwned(INITIAL, steps, g, w);
      }
    }
  }

  // -------------------------------------------------- nothing runs during a drop

  /** No operation runs with a live token on a pond between `begin_drop` and `end_drop`. */
  predicate Quiet(w: World) {
    forall o | o in w.state.ops && w.state.ops[o].pond.Some? && BeingDropped(w, w.state.ops[o].pond.value) ::
      w.state.ops[o].cancelled
  }

  predicate OneDropEach(w: World) {
    forall d, e | d in w.drops && e in w.drops && d != e && UnderWay(w.drops[d].phase) && UnderWay(w.drops[e].phase) ::
      w.drops[d].target != w.drops[e].target
  }

  predicate UnderWayIsTombstoned(w: World) {
    forall d | d in w.drops && UnderWay(w.drops[d].phase) :: w.drops[d].target in w.state.dropping
  }

  /** With whole calls only, at most one is between its halves. */
  predicate OneAtATime(w: World) {
    && (w.pending != map[] ==> forall d | d in w.drops :: !w.drops[d].phase.Tombstoning?)
    && (forall d, e | d in w.drops && e in w.drops && w.drops[d].phase.Tombstoning? && w.drops[e].phase.Tombstoning? :: d == e)
    && (forall o | o in w.pending :: w.pending[o].cancelled == PreCancelled(w.state, w.pending[o].pond))
  }

  predicate QuietInv(w: World) {
    OneDropEach(w) && UnderWayIsTombstoned(w) && OneAtATime(w) && Quiet(w)
  }

  lemma NotBusy(w: World)
    requires !Busy(w)
    ensures w.pending == map[] && forall d | d in w.drops :: !w.drops[d].phase.Tombstoning?
  {
  }

  lemma DroppedIsTombstoned(w: World, p: PondId)
    requires UnderWayIsTombstoned(w) && BeingDropped(w, p)
    ensures p in w.state.dropping
  {
  }

  lemma CallStepKeepsQuiet(w: World, s: Step, g: Regime)
    requires QuietInv(w) && Enabled(w, s, g) && !g.split && !g.overlap
    requires s.Look? || s.Insert? || s.Complete? || s.Cancel?
    ensures QuietInv(Apply(w, s, g))
  {
    var to := Apply(w, s, g);
    assert to.drops == w.drops && to.state.dropping == w.state.dropping;
    if s.Insert? {
      var pond := w.pending[s.op].pond;
      if pond.Some? && BeingDropped(w, pond.value) { DroppedIsTombstoned(w, pond.value); }
    } else {
      NotBusy(w);
    }
    forall o | o in to.state.ops && to.state.ops[o].pond.Some? && BeingDropped(to, to.state.ops[o].pond.value)
      ensures to.state.ops[o].cancelled
    {
      assert BeingDropped(w, to.state.ops[o].pond.value);
    }
  }

  /** A step that leaves the operations alone and finishes no `begin_drop`. */
  lemma SameOpsStayQuiet(w: World, to: World)
    requires Quiet(w) && to.state.ops == w.state.ops
    requires forall p | BeingDropped(to, p) :: BeingDropped(w, p)
    ensures Quiet(to)
  {
  }

  lemma TombstoneKeepsPlan(w: World, d: DropId, p: PondId, g: Regime)
    requires QuietInv(w) && Enabled(w, Tombstone(d, p), g) && !g.split && !g.overlap
    ensures var to := Apply(w, Tombstone(d, p), g); OneDropEach(to) && UnderWayIsTombstoned(to) && OneAtATime(to)
  {
    NotBusy(w);
    var to := Apply(w, Tombstone(d, p), g);
    assert to.drops == w.drops[d := Drop(p, Tombstoning)] && to.pending == map[];
    assert to.state.dropping == w.state.dropping + {p};
  }

  lemma TombstoneDropsNoOther(w: World, d: DropId, p: PondId, q: PondId, g: Regime)
    requires Enabled(w, Tombstone(d, p), g) && BeingDropped(Apply(w, Tombstone(d, p), g), q)
    ensures BeingDropped(w, q)
  {
    var to := Apply(w, Tombstone(d, p), g);
    assert to.drops == w.drops[d := Drop(p, Tombstoning)];
    var e :| e in to.drops && to.drops[e].target == q && UnderWay(to.drops[e].phase) && !to.drops[e].phase.Tombstoning?;
    assert e != d && e in w.drops && w.drops[e] == to.drops[e];
  }

  lemma TombstoneKeepsQuiet(w: World, d: DropId, p: PondId, g: Regime)
    requires QuietInv(w) && Enabled(w, Tombstone(d, p), g) && !g.split && !g.overlap
    ensures QuietInv(Apply(w, Tombstone(d, p), g))
  {
    TombstoneKeepsPlan(w, d, p, g);
    TombstoneStaysQuiet(w, d, p, g);
  }

  lemma TombstoneStaysQuiet(w: World, d: DropId, p: PondId, g: Regime)
    requires Quiet(w) && Enabled(w, Tombstone(d, p), g)
    ensures Quiet(Apply(w, Tombstone(d, p), g))
  {
    var to := Apply(w, Tombstone(d, p), g);
    forall q | BeingDropped(to, q) ensures BeingDropped(w, q) { TombstoneDropsNoOther(w, d, p, q, g); }
    SameOpsStayQuiet(w, to);
  }

  lemma SweepKeepsOthersQuiet(w: World, d: DropId, g: Regime, o: OpId)
    requires Quiet(w) && Enabled(w, Sweep(d), g) && o in w.state.ops && w.state.ops[o].pond.Some?
    requires BeingDropped(Apply(w, Sweep(d), g), w.state.ops[o].pond.value)
    ensures Swept(w.state, w.drops[d].target).ops[o].cancelled
  {
    var p, to := w.state.ops[o].pond.value, Apply(w, Sweep(d), g);
    if p != w.drops[d].target {
      var e :| e in to.drops && to.drops[e].target == p && UnderWay(to.drops[e].phase) && !to.drops[e].phase.Tombstoning?;
      assert e != d && e in w.drops && w.drops[e] == to.drops[e];
      assert BeingDropped(w, p);
    }
  }

  lemma SweepKeepsQuiet(w: World, d: DropId, g: Regime)
    requires QuietInv(w) && Enabled(w, Sweep(d), g)
    ensures QuietInv(Apply(w, Sweep(d), g))
  {
    var to := Apply(w, Sweep(d), g);
    assert w.pending == map[];
    forall o | o in to.state.ops && to.state.ops[o].pond.Some? && BeingDropped(to, to.state.ops[o].pond.value)
      ensures to.state.ops[o].cancelled
    {
      SweepKeepsOthersQuiet(w, d, g, o);
    }
  }

  lemma DropStepDropsNoOther(w: World, s: Step, q: PondId, g: Regime)
    requires Enabled(w, s, g) && (s.Hear? || s.EndDrop? || s.Abandon?) && BeingDropped(Apply(w, s, g), q)
    ensures BeingDropped(w, q)
  {
    var to := Apply(w, s, g);
    var d :| d in to.drops && to.drops[d].target == q && UnderWay(to.drops[d].phase) && !to.drops[d].phase.Tombstoning?;
    assert d in w.drops && w.drops[d].target == q && UnderWay(w.drops[d].phase);
  }

  lemma DropStepKeepsQuiet(w: World, s: Step, g: Regime)
    requires QuietInv(w) && Enabled(w, s, g) && !g.split && !g.overlap && (s.Hear? || s.EndDrop? || s.Abandon?)
    ensures QuietInv(Apply(w, s, g))
  {
    var to := Apply(w, s, g);
    NotBusy(w);
    forall q | BeingDropped(to, q) ensures BeingDropped(w, q) { DropStepDropsNoOther(w, s, q, g); }
    SameOpsStayQuiet(w, to);
  }

  lemma {:induction false} RunKeepsQuiet(w: World, steps: seq<Step>, g: Regime, to: World)
    requires QuietInv(w) && Runs(w, steps, g, to) && !g.split && !g.overlap
    ensures QuietInv(to)
    decreases |steps|
  {
    if steps == [] {
    } else {
      match steps[0] {
        case Tombstone(d, p) => TombstoneKeepsQuiet(w, d, p, g);
        case Sweep(d) => SweepKeepsQuiet(w, d, g);
        case Hear(_, _) => DropStepKeepsQuiet(w, steps[0], g);
        case EndDrop(_) => DropStepKeepsQuiet(w, steps[0], g);
        case Abandon(_) => DropStepKeepsQuiet(w, steps[0], g);
        case _ => CallStepKeepsQuiet(w, steps[0], g);
      }
      RunKeepsQuiet(Apply(w, steps[0], g), steps[1..], g, to);
    }
  }

  /** A registration that looks, then is overtaken by a whole `begin_drop`. */
  lemma OvertakenRegistration(o: OpId, p: PondId, g: Regime) returns (w: World)
    requires g.split
    ensures Reachable(w, g) && !Quiet(w)
  {
    InitialIsReachable(g);
    var w1 := RunsOn(INITIAL, Look(o, Some(p)), g);
    var w2 := RunsOn(w1, Tombstone(0, p), g);
    var w3 := RunsOn(w2, Sweep(0), g);
    assert w3.pending == map[o := Pending(Some(p), false)] && w3.drops == map[0 := Drop(p, Asking)];
    w := RunsOn(w3, Insert(o), g);
    LiveDuringDrop(w, o, p, 0);
  }

  lemma LiveDuringDrop(w: World, o: OpId, p: PondId, d: DropId)
    requires o in w.state.ops && w.state.ops[o] == OpInfo(Some(p), false)
    requires InPhase(w, d, Asking) || InPhase(w, d, Deleting)
    requires w.drops[d].target == p
    ensures !Quiet(w)
  {
    assert BeingDropped(w, p);
  }

  /** The first drop deletes files; the second, refused because the pond is no longer
      registered, clears the one tombstone; then a query registers. */
  lemma OverlappingDrop(o: OpId, p: PondId, g: Regime) returns (w: World)
    requires g.overlap
    ensures Reachable(w, g) && !Quiet(w)
  {
    var deleting := FirstDropDeletes(p, g);
    var second := SecondDropBegins(deleting, p, g);
    var cleared := SecondDropEnds(second, p, g);
    w := QueryRegisters(cleared, o, p, g);
    LiveDuringDrop(w, o, p, 0);
  }

  lemma FirstDropDeletes(p: PondId, g: Regime) returns (w: World)
    ensures Reachable(w, g) && w.drops == map[0 := Drop(p, Deleting)] && w.pending == map[] && w.checkedAt == map[]
    ensures w.state == State(map[], {p})
  {
    var begun := FirstDropBegins(p, g);
    w := RunsOn(begun, Hear(0, true), g);
  }

  lemma SecondDropBegins(w: World, p: PondId, g: Regime) returns (to: World)
    requires Reachable(w, g) && w.drops == map[0 := Drop(p, Deleting)] && w.pending == map[] && w.checkedAt == map[]
    requires g.overlap && w.state == State(map[], {p})
    ensures Reachable(to, g) && to.state == w.state && to.pending == map[] && to.checkedAt == map[]
    ensures to.drops == map[0 := Drop(p, Deleting), 1 := Drop(p, Asking)]
  {
    assert !Busy(w);
    var w1 := RunsOn(w, Tombstone(1, p), g);
    to := RunsOn(w1, Sweep(1), g);
  }

  lemma SecondDropEnds(w: World, p: PondId, g: Regime) returns (to: World)
    requires Reachable(w, g) && w.drops == map[0 := Drop(p, Deleting), 1 := Drop(p, Asking)]
    requires w.pending == map[] && w.checkedAt == map[] && w.state == State(map[], {p})
    ensures Reachable(to, g) && to.state == State(map[], {}) && to.pending == map[] && to.checkedAt == map[]
    ensures to.drops == map[0 := Drop(p, Deleting), 1 := Drop(p, Ended)]
  {
    assert !Busy(w);
    var w1 := RunsOn(w, Hear(1, false), g);
    assert !Busy(w1);
    to := RunsOn(w1, EndDrop(1), g);
  }

  lemma QueryRegisters(w: World, o: OpId, p: PondId, g: Regime) returns (to: World)
    requires Reachable(w, g) && w.pending == map[] && w.checkedAt == map[] && p !in w.state.dropping
    requires forall d | d in w.drops :: !w.drops[d].phase.Tombstoning?
    ensures Reachable(to, g) && to.drops == w.drops
    ensures o in to.state.ops && to.state.ops[o] == OpInfo(Some(p), false)
  {
    assert !Busy(w);
    var w1 := RunsOn(w, Look(o, Some(p)), g);
    to := RunsOn(w1, Insert(o), g);
  }

  /** No operation runs on a pond while it is being dropped: true of every run exactly
      when each call is one step and no two drops of one pond overlap. */
  lemma DropsAreQuietExactly(g: Regime)
    ensures (forall w | Reachable(w, g) :: Quiet(w)) <==> !g.split && !g.overlap
  {
    if g.split {
      var w := OvertakenRegistration("op", "pond", g);
    } else if g.overlap {
      var w := OverlappingDrop("op", "pond", g);
    } else {
      forall w | Reachable(w, g) ensures Quiet(w) {
        var steps :| Runs(INITIAL, steps, g, w);
        RunKeepsQuiet(INITIAL, steps, g, w);
      }
    }
  }

  // ------------------------------------------- who is cancelled, and who is not

  /** `o` runs on `pond` with a live token, or is about to. */
  predicate HasLiveToken(w: World, o: OpId, pond: Option<PondId>) {
    || (o in w.pending && w.pending[o] == Pending(pond, false))
    || (o !in w.pending && o in w.state.ops && w.state.ops[o] == OpInfo(pond, false))
  }

  /** No drop of `pond` sweeps along the run. */
  ghost predicate NeverSwept(w: World, steps: seq<Step>, g: Regime, pond: Option<PondId>)
    decreases |steps|
  {
    steps == [] ||
    (&& Enabled(w, steps[0], g)
     && (steps[0].Sweep? ==> pond != Some(w.drops[steps[0].d].target))
     && NeverSwept(Apply(w, steps[0], g), steps[1..], g, pond))
  }

  lemma StepKeepsToken(w: World, s: Step, g: Regime, o: OpId, pond: Option<PondId>)
    requires Timed(w) && Enabled(w, s, g) && HasLiveToken(w, o, pond)
    requires s != Cancel(o) && s != Complete(o) && (s.Sweep? ==> pond != Some(w.drops[s.d].target))
    ensures HasLiveToken(Apply(w, s, g), o, pond)
  {
  }

  lemma {:induction false} RunKeepsToken(w: World, steps: seq<Step>, g: Regime, to: World, o: OpId, pond: Option<PondId>)
    requires Timed(w) && Runs(w, steps, g, to) && HasLiveToken(w, o, pond)
    requires Cancel(o) !in steps && NeverSwept(w, steps, g, pond)
    ensures HasLiveToken(to, o, pond) || Complete(o) in steps
    decreases |steps|
  {
    if steps == [] {
    } else {
      var s := steps[0];
      assert steps == [s] + steps[1..];
      StepKeepsTimed(w, s, g);
      if s != Complete(o) {
        StepKeepsToken(w, s, g, o, pond);
        RunKeepsToken(Apply(w, s, g), steps[1..], g, to, o, pond);
      }
    }
  }

  /** Dropping one pond disturbs nothing on another: an operation that looked while its
      pond was not tombstoned, or has no pond, keeps a live token until it completes, in
      every continuation that neither cancels it nor sweeps its own pond. */
  lemma BystandersStayLive(w: World, o: OpId, pond: Option<PondId>, steps: seq<Step>, g: Regime, to: World)
    requires Reachable(w, g) && Enabled(w, Look(o, pond), g) && !(pond.Some? && pond.value in w.state.dropping)
    requires var w' := Apply(w, Look(o, pond), g); Runs(w', steps, g, to) && NeverSwept(w', steps, g, pond)
    requires Cancel(o) !in steps
    ensures HasLiveToken(to, o, pond) || Complete(o) in steps
  {
    var before :| Runs(INITIAL, before, g, w);
    RunKeepsInv(INITIAL, before, g, w);
    StepKeepsTimed(w, Look(o, pond), g);
    RunKeepsToken(Apply(w, Look(o, pond), g), steps, g, to, o, pond);
  }

  /** `o` has looked, and does not run with a live token now. */
  predicate Finished(w: World, o: OpId, gone: bool) {
    && o in w.checkedAt && o !in w.pending
    && (o in w.state.ops ==> !gone && w.state.ops[o].cancelled)
  }

  lemma StepKeepsFinished(w: World, s: Step, g: Regime, o: OpId, gone: bool)
    requires Enabled(w, s, g) && Finished(w, o, gone)
    ensures Finished(Apply(w, s, g), o, gone)
  {
  }

  lemma {:induction false} RunKeepsFinished(w: World, steps: seq<Step>, g: Regime, to: World, o: OpId, gone: bool)
    requires Runs(w, steps, g, to) && Finished(w, o, gone)
    ensures Finished(to, o, gone)
    decreases |steps|
  {
    if steps == [] {
    } else {
      StepKeepsFinished(w, steps[0], g, o, gone);
      RunKeepsFinished(Apply(w, steps[0], g), steps[1..], g, to, o, gone);
    }
  }

  /** A completed operation is gone for good, and a cancelled one never runs again with
      a live token. */
  lemma EndsAreFinal(w: World, o: OpId, steps: seq<Step>, g: Regime, to: World, gone: bool)
    requires Timed(w) && o in w.state.ops && o !in w.pending
    requires var s := if gone then Complete(o) else Cancel(o); Enabled(w, s, g) && Runs(Apply(w, s, g), steps, g, to)
    ensures if gone then o !in to.state.ops else o in to.state.ops ==> to.state.ops[o].cancelled
  {
    RunKeepsFinished(Apply(w, if gone then Complete(o) else Cancel(o), g), steps, g, to, o, gone);
  }
}
