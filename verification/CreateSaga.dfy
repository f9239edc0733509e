/** Creating a pond: place it, make it real on its node, and give the placement
    back if that fails, with any number of creations and any other use of the
    registry going on at the same time. */
module CreateSaga {
  import opened Options
  import R = Registry

  type RequestId = nat
  type Endpoint = string

  /** What `get_pond_location` returned: the row it read and its owner's address.
      `db` is the database it was read from (a proof record). */
  datatype Reading = Reading(row: R.PondId, endpoint: Endpoint, db: R.Db)

  /** Where one `create_pond_assignment` stands. `made` is the pond a node has made
      real for it, and `taken` the ponds its compensation removed (proof records). */
  datatype Saga =
    | Placed(id: R.PondId)
    | Located(id: R.PondId, at: Reading)             // the node at `at.endpoint` is being asked
    | Worked(id: R.PondId, at: Reading, made: R.PondId)
    | Failed(id: R.PondId)                           // `compensate` comes next
    | Succeeded(id: R.PondId, at: Reading, made: R.PondId)
    | Rejected(error: R.Error)                       // never placed
    | Compensated(id: R.PondId, taken: set<R.PondId>)  // error, `compensated: true`
    | Orphaned(id: R.PondId, cause: R.Error)         // error, `compensated: false`

  /** `storage` holds every pond a node has made real, and which node. */
  datatype World = World(reg: R.World, sagas: map<RequestId, Saga>, storage: set<(R.NodeId, R.PondId)>)

  const INITIAL := World(R.EMPTY, map[], {})

  datatype Step =
    | Create(r: RequestId, op: R.Op)
    | Locate(r: RequestId, row: R.PondId)
    | Work(r: RequestId, row: R.PondId)              // a node serves the call, for the row it finds
    | Answer(r: RequestId, ok: bool)                 // the call returns, or fails, or its answer is lost
    | Compensate(r: RequestId, broken: bool)         // `broken`: the registry itself fails
    | Other(op: R.Op)                                // drops, forgets, tiers, nodes, ...

  /** The registry operation a step performs, if it may change a row. */
  function Operation(s: Step): Option<R.Op> {
    match s
    case Create(_, op) => Some(op)
    case Other(op) => Some(op)
    case _ => None
  }

  /** `mayClash`: creations may name a pond by an id generated for another. */
  predicate Enabled(w: World, s: Step, mayClash: bool) {
    && (Operation(s).Some? ==>
          R.Enabled(w.reg, Operation(s).value) && (mayClash || !R.Clashes(w.reg, Operation(s).value)))
    && match s
       case Create(r, op) => r !in w.sagas && op.DoCreate?
       case Locate(r, row) =>
         r in w.sagas && w.sagas[r].Placed? &&
         var rows := R.Locatable(w.reg.db, w.sagas[r].id); row in rows || rows == {}
       case Work(r, row) =>
         r in w.sagas && (w.sagas[r].Located? || w.sagas[r].Worked?) && row in R.Matching(w.reg.db, w.sagas[r].id)
       case Answer(r, ok) => r in w.sagas && (w.sagas[r].Worked? || (w.sagas[r].Located? && !ok))
       case Compensate(r, _) => r in w.sagas && w.sagas[r].Failed?
       case Other(op) => true
  }

  function With(w: World, r: RequestId, saga: Saga): World {
    w.(sagas := w.sagas[r := saga])
  }

  function Apply(w: World, s: Step, mayClash: bool): World
    requires Enabled(w, s, mayClash)
  {
    match s
    case Create(r, op) =>
      var result := R.CreatePond(w.reg.db, op.name, op.owner, op.tier, op.id, op.pick).1;
      With(w, r, if result.Ok? then Placed(op.id) else Rejected(result.error)).(reg := R.Apply(w.reg, op))
    case Locate(r, row) =>
      var id, db := w.sagas[r].id, w.reg.db;
      With(w, r, if row in R.Locatable(db, id)
                 then Located(id, Reading(row, db.nodes[db.ponds[row].node].internal, db)) else Failed(id))
    case Work(r, row) =>
      With(w, r, Worked(w.sagas[r].id, w.sagas[r].at, row)).(storage := w.storage + {(w.reg.db.ponds[row].node, row)})
    case Answer(r, ok) =>
      var saga := w.sagas[r];
      With(w, r, if ok then Succeeded(saga.id, saga.at, saga.made) else Failed(saga.id))
    case Compensate(r, broken) =>
      var id := w.sagas[r].id;
      if broken then With(w, r, Orphaned(id, R.Storage))
      else
        var dropped := R.DropPond(w.reg.db, id).1;
        With(w, r, if dropped.Ok? then Compensated(id, R.Matching(w.reg.db, id)) else Orphaned(id, dropped.error))
          .(reg := R.Apply(w.reg, R.DoDrop(id)))
    case Other(op) => w.(reg := R.Apply(w.reg, op))
  }

  ghost predicate Runs(from: World, steps: seq<Step>, mayClash: bool, to: World)
    decreases |steps|
  {
    if steps == [] then to == from
    else Enabled(from, steps[0], mayClash) && Runs(Apply(from, steps[0], mayClash), steps[1..], mayClash, to)
  }

  ghost predicate Reachable(w: World, mayClash: bool) {
    exists steps :: Runs(INITIAL, steps, mayClash, w)
  }

  // --------------------------------------------------------------- invariant

  /** No row with this id is left, and none can come back. */
  predicate IsGone(w: World, id: R.PondId) {
    id in w.reg.used && id !in w.reg.db.ponds
  }

  predicate WasPlaced(w: World, id: R.PondId) {
    id in w.reg.used && id in w.reg.placed
  }

  /** The reading is of a row with this id or name, and of its owner's address. */
  predicate WasRead(w: World, id: R.PondId, at: Reading, mayClash: bool) {
    && at.row in R.Matching(at.db, id) && at.row in w.reg.placed
    && at.db.ponds[at.row].node == w.reg.placed[at.row]
    && w.reg.placed[at.row] in at.db.nodes && at.endpoint == at.db.nodes[w.reg.placed[at.row]].internal
    && id in w.reg.placed && w.reg.placed[id] in at.db.nodes && (!mayClash ==> at.row == id)
  }

  /** The owner of `made` has made it real. */
  predicate WasMade(w: World, id: R.PondId, made: R.PondId, mayClash: bool) {
    made in w.reg.placed && (w.reg.placed[made], made) in w.storage && (!mayClash ==> made == id)
  }

  predicate SagaInv(w: World, saga: Saga, mayClash: bool) {
    match saga
    case Placed(id) => WasPlaced(w, id)
    case Located(id, at) => WasPlaced(w, id) && WasRead(w, id, at, mayClash)
    case Worked(id, at, made) => WasPlaced(w, id) && WasRead(w, id, at, mayClash) && WasMade(w, id, made, mayClash)
    case Failed(id) => WasPlaced(w, id)
    case Succeeded(id, at, made) => WasPlaced(w, id) && WasRead(w, id, at, mayClash) && WasMade(w, id, made, mayClash)
    case Rejected(_) => true
    case Compensated(id, taken) => IsGone(w, id) && (!mayClash ==> taken <= {id})
    case Orphaned(id, cause) => cause == R.Storage || (cause == R.PondNotFound && IsGone(w, id))
  }

  predicate RegInv(reg: R.World, mayClash: bool) {
    R.Inv(reg) && (!mayClash ==> R.NoNameWasAnothersId(reg))
  }

  predicate Inv(w: World, mayClash: bool) {
    RegInv(w.reg, mayClash) && forall r | r in w.sagas :: SagaInv(w, w.sagas[r], mayClash)
  }

  /** Ids and placements are only ever added; a used id never gets a row again. */
  predicate Grown(reg: R.World, to: R.World) {
    && reg.used <= to.used
    && (forall id | id in reg.placed :: id in to.placed && to.placed[id] == reg.placed[id])
    && (forall id | id in reg.used && id !in reg.db.ponds :: id !in to.db.ponds)
  }

  lemma OperationsGrow(reg: R.World, op: R.Op, mayClash: bool)
    requires RegInv(reg, mayClash) && R.Enabled(reg, op) && (mayClash || !R.Clashes(reg, op))
    ensures RegInv(R.Apply(reg, op), mayClash) && Grown(reg, R.Apply(reg, op))
  {
    R.StepKeepsInv(reg, op);
    R.OnlyNamedPondsChange(reg, op);
    if !mayClash { R.StepKeepsNamesApart(reg, op); }
  }

  lemma SagasStay(w: World, to: World, saga: Saga, mayClash: bool)
    requires SagaInv(w, saga, mayClash) && Grown(w.reg, to.reg) && w.storage <= to.storage
    ensures SagaInv(to, saga, mayClash)
  {
  }

  lemma DroppedIsGone(db: R.Db, id: R.PondId)
    ensures var (to, r) := R.DropPond(db, id);
      id !in to.ponds && (r.Err? ==> r.error == R.PondNotFound && id !in db.ponds)
  {
    assert id in db.ponds ==> id in R.Matching(db, id);
  }

  lemma LocateKeepsSaga(w: World, r: RequestId, row: R.PondId, mayClash: bool)
    requires Inv(w, mayClash) && Enabled(w, Locate(r, row), mayClash)
    ensures var to := Apply(w, Locate(r, row), mayClash); SagaInv(to, to.sagas[r], mayClash)
  {
    assert SagaInv(w, w.sagas[r], mayClash);
    var id := w.sagas[r].id;
    if row in R.Locatable(w.reg.db, id) {
      assert R.RowOk(w.reg, row, w.reg.db.ponds[row]);
      if !mayClash { R.IdsAreExact(w.reg, id); }
    }
  }

  lemma WorkKeepsSaga(w: World, r: RequestId, row: R.PondId, mayClash: bool)
    requires Inv(w, mayClash) && Enabled(w, Work(r, row), mayClash)
    ensures var to := Apply(w, Work(r, row), mayClash); SagaInv(to, to.sagas[r], mayClash)
  {
    assert SagaInv(w, w.sagas[r], mayClash);
    assert R.RowOk(w.reg, row, w.reg.db.ponds[row]);
    if !mayClash { R.IdsAreExact(w.reg, w.sagas[r].id); }
  }

  lemma CompensateKeepsSaga(w: World, r: RequestId, broken: bool, mayClash: bool)
    requires Inv(w, mayClash) && Enabled(w, Compensate(r, broken), mayClash)
    ensures var to := Apply(w, Compensate(r, broken), mayClash);
      SagaInv(to, to.sagas[r], mayClash) && RegInv(to.reg, mayClash) && Grown(w.reg, to.reg)
  {
    assert SagaInv(w, w.sagas[r], mayClash);
    var id := w.sagas[r].id;
    OperationsGrow(w.reg, R.DoDrop(id), mayClash);
    DroppedIsGone(w.reg.db, id);
    if !mayClash { R.IdsAreExact(w.reg, id); }
  }

  lemma CreateKeepsSaga(w: World, r: RequestId, op: R.Op, mayClash: bool)
    requires Inv(w, mayClash) && Enabled(w, Create(r, op), mayClash)
    ensures var to := Apply(w, Create(r, op), mayClash); SagaInv(to, to.sagas[r], mayClash)
  {
  }

  /** The saga a step is about, and everybody else's. */
  lemma StepKeepsInv(w: World, s: Step, mayClash: bool)
    requires Inv(w, mayClash) && Enabled(w, s, mayClash)
    ensures Inv(Apply(w, s, mayClash), mayClash)
  {
    var to := Apply(w, s, mayClash);
    match s {
      case Create(r, op) => OperationsGrow(w.reg, op, mayClash); CreateKeepsSaga(w, r, op, mayClash);
      case Other(op) => OperationsGrow(w.reg, op, mayClash);
      case Compensate(r, broken) => CompensateKeepsSaga(w, r, broken, mayClash);
      case Locate(r, row) => LocateKeepsSaga(w, r, row, mayClash);
      case Work(r, row) => WorkKeepsSaga(w, r, row, mayClash);
      case Answer(r, _) => assert SagaInv(w, w.sagas[r], mayClash);
    }
    assert Grown(w.reg, to.reg);
    forall q | q in to.sagas ensures SagaInv(to, to.sagas[q], mayClash) {
      if q in w.sagas && (s.Other? || q != s.r) { SagasStay(w, to, w.sagas[q], mayClash); }
    }
  }

  lemma {:induction false} RunKeepsInv(w: World, steps: seq<Step>, mayClash: bool, to: World)
    requires Inv(w, mayClash) && Runs(w, steps, mayClash, to)
    ensures Inv(to, mayClash)
    decreases |steps|
  {
    if steps == [] {
    } else {
      StepKeepsInv(w, steps[0], mayClash);
      RunKeepsInv(Apply(w, steps[0], mayClash), steps[1..], mayClash, to);
    }
  }

  lemma ReachableInv(w: World, mayClash: bool)
    requires Reachable(w, mayClash)
    ensures Inv(w, mayClash)
  {
    var steps :| Runs(INITIAL, steps, mayClash, w);
    RunKeepsInv(INITIAL, steps, mayClash, w);
  }

  // ------------------------------------------------------------ the promises

  /** However creations, drops and everything else interleave, names that are ids
      included. Success: the pond was placed, and a node made real, on its owner, a
      pond with that id or name. `compensated: true`: no row with its id exists, then
      or later. `compensated: false`: a row is left behind only if the registry
      itself failed to answer the drop. */
  lemma CreatesAreAllOrNothing(w: World)
    requires Reachable(w, true)
    ensures forall r | r in w.sagas && w.sagas[r].Succeeded? ::
      && w.sagas[r].id in w.reg.placed && w.sagas[r].made in w.reg.placed
      && (w.reg.placed[w.sagas[r].made], w.sagas[r].made) in w.storage
    ensures forall r | r in w.sagas && w.sagas[r].Compensated? :: w.sagas[r].id !in w.reg.db.ponds
    ensures forall r | r in w.sagas && w.sagas[r].Orphaned? && w.sagas[r].cause != R.Storage ::
      w.sagas[r].id !in w.reg.db.ponds
  {
    ReachableInv(w, true);
    forall r | r in w.sagas ensures Outcome(w, w.sagas[r]) { SagaHasOutcome(w, w.sagas[r]); }
  }

  /** What the answer of a creation means. */
  predicate Outcome(w: World, saga: Saga) {
    && (saga.Succeeded? ==>
          saga.id in w.reg.placed && saga.made in w.reg.placed && (w.reg.placed[saga.made], saga.made) in w.storage)
    && (saga.Compensated? ==> saga.id !in w.reg.db.ponds)
    && (saga.Orphaned? && saga.cause != R.Storage ==> saga.id !in w.reg.db.ponds)
  }

  lemma SagaHasOutcome(w: World, saga: Saga)
    requires SagaInv(w, saga, true)
    ensures Outcome(w, saga)
  {
  }

  /** The address a successful creation reports was, when read, that of the node on
      which the pond whose row was read was placed; and the row read was this pond's
      own unless another pond was called by its id at that moment. */
  lemma ReportedAddressIsOfTheRowRead(w: World, r: RequestId)
    requires Reachable(w, true) && r in w.sagas && w.sagas[r].Succeeded?
    ensures var Succeeded(id, at, _) := w.sagas[r];
      && at.row in R.Matching(at.db, id) && at.row in w.reg.placed && id in w.reg.placed
      && at.db.ponds[at.row].node == w.reg.placed[at.row] && w.reg.placed[at.row] in at.db.nodes
      && at.endpoint == at.db.nodes[w.reg.placed[at.row]].internal
      && ((forall p | p in at.db.ponds && p != id :: at.db.ponds[p].name != id) ==> at.row == id)
  {
    ReachableInv(w, true);
    assert SagaInv(w, w.sagas[r], true);
  }

  /** The node asked to make a pond real is its owner, unless some other pond is
      called by its id at that moment. */
  lemma TheOwnerIsAsked(w: World, r: RequestId, row: R.PondId)
    requires Reachable(w, true) && Enabled(w, Locate(r, row), true) && Apply(w, Locate(r, row), true).sagas[r].Located?
    requires forall p | p in w.reg.db.ponds && p != w.sagas[r].id :: w.reg.db.ponds[p].name != w.sagas[r].id
    ensures var id, db := w.sagas[r].id, w.reg.db;
      && id in db.ponds && id in w.reg.placed && w.reg.placed[id] == db.ponds[id].node && w.reg.placed[id] in db.nodes
      && Apply(w, Locate(r, row), true).sagas[r].at == Reading(id, db.nodes[w.reg.placed[id]].internal, db)
  {
    ReachableInv(w, true);
    assert row in R.Locatable(w.reg.db, w.sagas[r].id) && row == w.sagas[r].id;
    assert R.RowOk(w.reg, row, w.reg.db.ponds[row]);
  }

  /** The row read was this pond's, the address that of the node it was placed on,
      and that node has made this pond real. */
  predicate OwnersSuccess(w: World, saga: Saga)
    requires saga.Succeeded?
  {
    && saga.at.row == saga.id == saga.made && saga.id in w.reg.placed
    && w.reg.placed[saga.id] in saga.at.db.nodes
    && saga.at.endpoint == saga.at.db.nodes[w.reg.placed[saga.id]].internal
    && (w.reg.placed[saga.id], saga.id) in w.storage
  }

  /** Every success is the owner's, in every run, exactly when no creation may clash
      with an id. */
  lemma SuccessIsTheOwnersExactly(mayClash: bool)
    ensures (forall w, r | Reachable(w, mayClash) && r in w.sagas && w.sagas[r].Succeeded? :: OwnersSuccess(w, w.sagas[r]))
      <==> !mayClash
  {
    if mayClash {
      var w := StrangerIsMadeReal();
      assert !OwnersSuccess(w, w.sagas[0]);
    } else {
      forall w, r | Reachable(w, mayClash) && r in w.sagas && w.sagas[r].Succeeded? ensures OwnersSuccess(w, w.sagas[r]) {
        ReachableInv(w, false);
        assert SagaInv(w, w.sagas[r], false);
      }
    }
  }

  /** A failed creation takes no pond but its own, in every run, exactly when no
      creation may clash with an id. */
  lemma CompensationTakesItsOwnExactly(mayClash: bool)
    ensures (forall w, r | Reachable(w, mayClash) && r in w.sagas && w.sagas[r].Compensated? ::
               w.sagas[r].taken <= {w.sagas[r].id}) <==> !mayClash
  {
    if mayClash {
      var w := CompensationTakesStranger();
      if w.sagas[0].taken <= {w.sagas[0].id} { R.SubsetSize(w.sagas[0].taken, {w.sagas[0].id}); }
    } else {
      forall w, r | Reachable(w, mayClash) && r in w.sagas && w.sagas[r].Compensated?
        ensures w.sagas[r].taken <= {w.sagas[r].id}
      {
        ReachableInv(w, false);
        assert SagaInv(w, w.sagas[r], false);
      }
    }
  }

  /** What a compensation takes is what its record says, and nothing else changes. */
  lemma CompensationTakes(w: World, r: RequestId, mayClash: bool)
    requires Reachable(w, mayClash) && Enabled(w, Compensate(r, false), mayClash)
    ensures var to := Apply(w, Compensate(r, false), mayClash);
      && to.reg.db.nodes == w.reg.db.nodes
      && (to.sagas[r].Compensated? ==> to.reg.db.ponds == w.reg.db.ponds - to.sagas[r].taken && to.sagas[r].taken != {})
      && (to.sagas[r].Orphaned? ==> to.reg.db.ponds == w.reg.db.ponds && w.sagas[r].id !in w.reg.db.ponds)
  {
    DroppedIsGone(w.reg.db, w.sagas[r].id);
  }

  /** `get_pond_location` fails a creation only when its row is already gone. */
  lemma LocateFailsOnlyIfDropped(w: World, r: RequestId, row: R.PondId, mayClash: bool)
    requires Reachable(w, mayClash) && Enabled(w, Locate(r, row), mayClash)
    ensures Apply(w, Locate(r, row), mayClash).sagas[r].Failed? <==> R.Matching(w.reg.db, w.sagas[r].id) == {}
    ensures Apply(w, Locate(r, row), mayClash).sagas[r].Failed? ==> IsGone(w, w.sagas[r].id)
  {
    ReachableInv(w, mayClash);
    var id := w.sagas[r].id;
    assert SagaInv(w, w.sagas[r], mayClash);
    R.LocatableIsMatching(w.reg, id);
    assert id in w.reg.db.ponds ==> id in R.Matching(w.reg.db, id);
  }

  // ------------------------------------------------------- runs with a clash

  lemma {:induction false} RunsSnoc(a: World, steps: seq<Step>, mayClash: bool, b: World, s: Step)
    requires Runs(a, steps, mayClash, b) && Enabled(b, s, mayClash)
    ensures Runs(a, steps + [s], mayClash, Apply(b, s, mayClash))
    decreases |steps|
  {
    if steps == [] {
      assert [s][1..] == [];
      assert steps + [s] == [s];
    } else {
      assert (steps + [s])[1..] == steps[1..] + [s];
      RunsSnoc(Apply(a, steps[0], mayClash), steps[1..], mayClash, b, s);
    }
  }

  /** One step more. */
  lemma RunsOn(a: World, s: Step) returns (b: World)
    requires Reachable(a, true) && Enabled(a, s, true)
    ensures b == Apply(a, s, true) && Reachable(b, true)
  {
    b := Apply(a, s, true);
    var steps :| Runs(INITIAL, steps, true, a);
    RunsSnoc(INITIAL, steps, true, a, s);
  }

  const NODE_A := R.Node("", "a:1", 1, true, 0)
  const NODE_B := R.Node("", "b:1", 1, true, 0)

  /** The creation of `id` has been placed on node `a`; on `b` there is a pond called
      by that id. */
  predicate Clashed(w: World, id: R.PondId, other: R.PondId, a: R.NodeId, b: R.NodeId) {
    && w.reg.db.nodes == map[a := NODE_A, b := NODE_B]
    && w.reg.db.ponds.Keys == {id, other} && R.Matching(w.reg.db, id) == {id, other}
    && w.reg.db.ponds[id].node == a && w.reg.db.ponds[other].node == b
    && w.reg.placed == map[id := a, other := b] && 0 in w.sagas
  }

  lemma TwoNodes(a: R.NodeId, b: R.NodeId) returns (w: World)
    requires a != b
    ensures Reachable(w, true) && w == INITIAL.(reg := R.World(R.Db(map[a := NODE_A, b := NODE_B], map[]), {}, map[], {}))
  {
    assert Runs(INITIAL, [], true, INITIAL);
    var w1 := RunsOn(INITIAL, Other(R.DoRegister(a, "", "a:1", 1, 0)));
    w := RunsOn(w1, Other(R.DoRegister(b, "", "b:1", 1, 0)));
    assert w.reg.db.nodes == map[a := NODE_A, b := NODE_B];
  }

  lemma ClashingStart(name: string, id: R.PondId, other: R.PondId, a: R.NodeId, b: R.NodeId) returns (w: World)
    requires R.IsLegalName(name) && R.IsPondId(id) && R.IsPondId(other) && id != other && name != id && a != b
    ensures Reachable(w, true) && w.sagas == map[0 := Placed(id)] && Clashed(w, id, other, a, b)
  {
    var w0 := TwoNodes(a, b);
    var tier := R.TierName(R.Small);
    var w1 := FirstCreated(w0, name, id, a, R.DoCreate(Some(name), "o", tier, id, a), tier);
    w := SecondCreated(w1, name, id, other, a, b, R.DoCreate(Some(id), "o", tier, other, b), tier);
  }

  lemma FirstCreated(w0: World, name: string, id: R.PondId, a: R.NodeId, create: R.Op, tier: string) returns (w: World)
    requires R.IsLegalName(name) && R.IsPondId(id) && R.IsActive(w0.reg.db, a) && tier == R.TierName(R.Small)
    requires w0.sagas == map[] && w0.reg.db.ponds == map[] && w0.reg.used == {} && w0.reg.placed == map[]
    requires create == R.DoCreate(Some(name), "o", tier, id, a) && Reachable(w0, true)
    ensures Reachable(w, true)
    ensures w.sagas == map[0 := Placed(id)] && w.reg.db == R.Db(w0.reg.db.nodes, map[id := R.Pond(name, "o", a, tier)])
    ensures w.reg.used == {id} && w.reg.placed == map[id := a]
  {
    R.Creates(w0.reg.db, name, "o", tier, id, a);
    w := RunsOn(w0, Create(0, create));
  }

  lemma SecondCreated(w1: World, name: string, id: R.PondId, other: R.PondId, a: R.NodeId, b: R.NodeId, clash: R.Op, tier: string)
      returns (w: World)
    requires R.IsPondId(id) && R.IsPondId(other) && id != other && name != id && a != b && tier == R.TierName(R.Small)
    requires w1.reg.db == R.Db(map[a := NODE_A, b := NODE_B], map[id := R.Pond(name, "o", a, tier)])
    requires w1.reg.used == {id} && w1.reg.placed == map[id := a] && w1.sagas == map[0 := Placed(id)]
    requires clash == R.DoCreate(Some(id), "o", tier, other, b) && Reachable(w1, true)
    ensures Reachable(w, true) && w.sagas == w1.sagas && Clashed(w, id, other, a, b)
  {
    R.Creates(w1.reg.db, id, "o", tier, other, b);
    w := RunsOn(w1, Other(clash));
    var p, q := R.Pond(name, "o", a, tier), R.Pond(id, "o", b, tier);
    assert w.reg.db.ponds == map[id := p, other := q] && w.reg.placed == map[id := a, other := b];
    BothHaveTheId(w, id, other, p, q);
  }

  lemma BothHaveTheId(w: World, id: R.PondId, other: R.PondId, p: R.Pond, q: R.Pond)
    requires id != other && q.name == id && w.reg.db.ponds == map[id := p, other := q]
    ensures R.Matching(w.reg.db, id) == {id, other} && w.reg.db.ponds.Keys == {id, other}
  {
  }

  lemma TwoIds() returns (id: R.PondId, other: R.PondId)
    ensures R.IsPondId(id) && R.IsPondId(other) && id != other && |id| == 36
  {
    id, other := seq(36, i => '0'), seq(36, i => '1');
    assert id[0] != other[0];
  }

  /** The location of the other pond is returned, and its owner makes it real. */
  lemma StrangerIsMadeReal() returns (w: World)
    ensures Reachable(w, true) && 0 in w.sagas && w.sagas[0].Succeeded? && w.sagas[0].made != w.sagas[0].id
  {
    var id, other := TwoIds();
    var w0 := ClashingStart("pond", id, other, "a", "b");
    w := OtherIsMade(w0, id, other, "a", "b");
  }

  lemma OtherIsMade(w0: World, id: R.PondId, other: R.PondId, a: R.NodeId, b: R.NodeId) returns (w: World)
    requires Reachable(w0, true) && id != other && a != b && Clashed(w0, id, other, a, b) && w0.sagas[0] == Placed(id)
    ensures Reachable(w, true) && 0 in w.sagas
    ensures w.sagas[0].Succeeded? && w.sagas[0].id == id && w.sagas[0].made == other
  {
    var w1 := RunsOn(w0, Locate(0, other));
    assert w1.sagas[0].Located?;
    var w2 := RunsOn(w1, Work(0, other));
    w := RunsOn(w2, Answer(0, true));
  }

  /** The node cannot be reached, and both ponds are removed. */
  lemma CompensationTakesStranger() returns (w: World)
    ensures Reachable(w, true) && 0 in w.sagas && w.sagas[0].Compensated? && |w.sagas[0].taken| == 2
  {
    var id, other := TwoIds();
    var w0 := ClashingStart("pond", id, other, "a", "b");
    w := BothAreTaken(w0, id, other, "a", "b");
  }

  lemma BothAreTaken(w0: World, id: R.PondId, other: R.PondId, a: R.NodeId, b: R.NodeId) returns (w: World)
    requires Reachable(w0, true) && id != other && a != b && Clashed(w0, id, other, a, b) && w0.sagas[0] == Placed(id)
    ensures Reachable(w, true) && 0 in w.sagas && w.sagas[0] == Compensated(id, {id, other})
  {
    var w1 := RunsOn(w0, Locate(0, id));
    assert w1.sagas[0].Located? && w1.reg == w0.reg;
    var w2 := RunsOn(w1, Answer(0, false));
    w := RunsOn(w2, Compensate(0, false));
  }

  // ---------------------------------------------------------- told from the steps

  predicate HasSucceeded(w: World, r: RequestId) {
    r in w.sagas && w.sagas[r].Succeeded?
  }

  predicate HasFailed(w: World, r: RequestId) {
    r in w.sagas && (w.sagas[r].Failed? || w.sagas[r].Compensated? || w.sagas[r].Orphaned?)
  }

  lemma {:induction false} SuccessIsAnswered(w: World, steps: seq<Step>, mayClash: bool, to: World, r: RequestId)
    requires Runs(w, steps, mayClash, to)
    ensures HasSucceeded(to, r) <==> HasSucceeded(w, r) || Answer(r, true) in steps
    ensures Answer(r, false) in steps ==> HasFailed(to, r)
    ensures HasFailed(w, r) ==> HasFailed(to, r)
    decreases |steps|
  {
    if steps == [] {
    } else {
      SuccessIsAnswered(Apply(w, steps[0], mayClash), steps[1..], mayClash, to, r);
      assert steps == [steps[0]] + steps[1..];
    }
  }

  /** Told from the run alone: a creation reports success exactly when its node's call
      returned, and one whose call failed, or whose answer was lost, reports failure
      once it has compensated. */
  lemma AnswersAreTheNodes(steps: seq<Step>, mayClash: bool, w: World, r: RequestId)
    requires Runs(INITIAL, steps, mayClash, w) && r in w.sagas
    ensures w.sagas[r].Succeeded? <==> Answer(r, true) in steps
    ensures Answer(r, false) in steps ==> w.sagas[r].Failed? || w.sagas[r].Compensated? || w.sagas[r].Orphaned?
  {
    SuccessIsAnswered(INITIAL, steps, mayClash, w, r);
  }

  /** A creation nobody disturbs: if its node answers it succeeds, with the row in place;
      if not, the tables are as before it. */
  lemma UndisturbedCreation(w: World, r: RequestId, op: R.Op, ok: bool) returns (to: World)
    requires Reachable(w, true) && r !in w.sagas && op.DoCreate? && R.Enabled(w.reg, op) && !R.Clashes(w.reg, op)
    requires (forall p | p in w.reg.db.ponds :: w.reg.db.ponds[p].name != op.id)
    requires R.CreatePond(w.reg.db, op.name, op.owner, op.tier, op.id, op.pick).1.Ok?
    ensures Reachable(to, true) && r in to.sagas
    ensures if ok then to.sagas[r].Succeeded? && to.sagas[r].id == op.id && to.reg.db.ponds.Keys == w.reg.db.ponds.Keys + {op.id}
            else to.sagas[r] == Compensated(op.id, {op.id}) && to.reg.db == w.reg.db
  {
    var w2 := PlacedAndLocated(w, r, op);
    if ok {
      to := NodeMakesIt(w2, r);
    } else {
      to := NodeRefusesIt(w2, r, w.reg.db);
    }
  }

  lemma PlacedAndLocated(w: World, r: RequestId, op: R.Op) returns (to: World)
    requires Reachable(w, true) && r !in w.sagas && op.DoCreate? && R.Enabled(w.reg, op) && !R.Clashes(w.reg, op)
    requires (forall p | p in w.reg.db.ponds :: w.reg.db.ponds[p].name != op.id)
    requires R.CreatePond(w.reg.db, op.name, op.owner, op.tier, op.id, op.pick).1.Ok?
    ensures Reachable(to, true) && r in to.sagas && to.sagas[r].Located? && to.sagas[r].id == op.id
    ensures R.Matching(to.reg.db, op.id) == {op.id} && to.reg.db.nodes == w.reg.db.nodes
    ensures to.reg.db.ponds - {op.id} == w.reg.db.ponds && to.reg.db.ponds.Keys == w.reg.db.ponds.Keys + {op.id}
  {
    R.CreationIsPlacement(w.reg.db, op.name, op.owner, op.tier, op.id, op.pick);
    var w1 := RunsOn(w, Create(r, op));
    OwnRowOnly(w.reg.db, w1.reg.db, op.id);
    ReachableInv(w1, true);
    R.LocatableIsMatching(w1.reg, op.id);
    to := RunsOn(w1, Locate(r, op.id));
  }

  lemma NodeMakesIt(w: World, r: RequestId) returns (to: World)
    requires Reachable(w, true) && r in w.sagas && w.sagas[r].Located? && w.sagas[r].id in R.Matching(w.reg.db, w.sagas[r].id)
    ensures Reachable(to, true) && r in to.sagas && to.sagas[r].Succeeded? && to.sagas[r].id == w.sagas[r].id && to.reg == w.reg
  {
    var w1 := RunsOn(w, Work(r, w.sagas[r].id));
    to := RunsOn(w1, Answer(r, true));
  }

  lemma NodeRefusesIt(w: World, r: RequestId, db: R.Db) returns (to: World)
    requires Reachable(w, true) && r in w.sagas && w.sagas[r].Located?
    requires var id := w.sagas[r].id;
      R.Matching(w.reg.db, id) == {id} && w.reg.db.nodes == db.nodes && w.reg.db.ponds - {id} == db.ponds
    ensures Reachable(to, true) && r in to.sagas && to.sagas[r] == Compensated(w.sagas[r].id, {w.sagas[r].id}) && to.reg.db == db
  {
    var w1 := RunsOn(w, Answer(r, false));
    assert w1.reg == w.reg && w1.sagas[r] == Failed(w.sagas[r].id);
    to := GivesBack(w1, r, w.sagas[r].id, db);
  }

  lemma GivesBack(w: World, r: RequestId, id: R.PondId, db: R.Db) returns (to: World)
    requires Reachable(w, true) && r in w.sagas && w.sagas[r] == Failed(id)
    requires R.Matching(w.reg.db, id) == {id} && w.reg.db.nodes == db.nodes && w.reg.db.ponds - {id} == db.ponds
    ensures Reachable(to, true) && r in to.sagas && to.sagas[r] == Compensated(id, {id}) && to.reg.db == db
  {
    DropLeaves(w.reg.db, id, db);
    to := RunsOn(w, Compensate(r, false));
  }

  lemma DropLeaves(db: R.Db, id: R.PondId, rest: R.Db)
    requires R.Matching(db, id) == {id} && db.nodes == rest.nodes && db.ponds - {id} == rest.ponds
    ensures R.DropPond(db, id) == (rest, R.Ok(()))
  {
  }

  lemma OwnRowOnly(db: R.Db, to: R.Db, id: R.PondId)
    requires id !in db.ponds && id in to.ponds && to == db.(ponds := db.ponds[id := to.ponds[id]])
    requires forall p | p in db.ponds :: db.ponds[p].name != id
    ensures R.Matching(to, id) == {id} && to.ponds - {id} == db.ponds
  {
  }
}
