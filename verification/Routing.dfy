/** Where a pond's work runs: each node's placement decision, and the path of a
    request through a cluster of forwarding nodes. A request carries a reference,
    and every node it reaches asks the registry anew what that reference means. */
module Routing {
  import opened Options
  import R = Registry

  type NodeId = R.NodeId
  type PondId = R.PondId
  type Endpoint = string

  /** A node's own registration, if it is clustered at all. */
  datatype Me = Alone | Clustered(id: NodeId, endpoint: Endpoint)

  /** What the registry says of the pond's owner. */
  datatype PondInfo = PondInfo(nodeId: Option<NodeId>, nodeEndpoint: Option<Endpoint>)

  datatype Placement = Local | NoOwner | Forward(owner: NodeId, endpoint: Endpoint)

  /** `Option::filter(|s| !s.is_empty())`. */
  function Named(s: Option<string>): Option<string> {
    if s == Some("") then None else s
  }

  /** `AgentOps::placement`. */
  function Place(me: Me, info: PondInfo): Placement {
    match me
    case Alone => Local
    case Clustered(id, endpoint) =>
      var owner, address := Named(info.nodeId), Named(info.nodeEndpoint);
      if owner.None? then NoOwner
      else if owner.value == id then Local
      else if address.None? then NoOwner
      else if address.value == endpoint then NoOwner
      else Forward(owner.value, address.value)
  }

  /** A clustered node serves a pond exactly when it is named as the owner; no
      address ever makes it the owner, and it never dials itself. */
  lemma OwnershipIsIdentity(me: Me, info: PondInfo)
    requires me.Clustered? && me.id != ""
    ensures Place(me, info) == Local <==> info.nodeId == Some(me.id)
    ensures Place(me, info).Forward? ==>
      && Place(me, info).endpoint != me.endpoint && Place(me, info).endpoint != ""
      && info == PondInfo(Some(Place(me, info).owner), Some(Place(me, info).endpoint))
  {
  }

  // ---------------------------------------------------------- a request's path

  datatype Request =
    | At(me: Me)                      // arrived, not looked up yet
    | Dialling(endpoint: Endpoint)
    | Executed(id: NodeId, pond: PondId)
    | Refused
    | NotFound
    | Unreachable

  /** What a lookup found: the pond's owner and, if it has one, its address. */
  datatype Found = Found(owner: NodeId, endpoint: Option<Endpoint>)

  /** `last` is what the last lookup found, `changes` counts the lookups that found
      something else than the one before (proof records). */
  datatype World = World(reg: R.World, request: Request, hops: nat, changes: nat, last: Option<Found>)

  datatype Step =
    | Lookup(row: PondId)             // the row the registry returns, if any has the reference
    | Answer(me: Me)                  // a node answers the dialled endpoint
    | NoAnswer
    | Other(op: R.Op)                 // the registry goes on working

  /** `honest`: a node answering at an endpoint advertises that endpoint. `steady`:
      the registry does nothing to change the addresses the reference leads to. */
  datatype Regime = Regime(honest: bool, steady: bool)

  predicate Enabled(w: World, s: Step, ref: string, g: Regime) {
    match s
    case Lookup(row) => w.request.At? && R.CanReturn(w.reg.db, ref, row)
    case Answer(me) => w.request.Dialling? && me.Clustered? && (g.honest ==> me.endpoint == w.request.endpoint)
    case NoAnswer => w.request.Dialling?
    case Other(op) =>
      R.Enabled(w.reg, op) && (g.steady ==> Addresses(R.Apply(w.reg, op).db, ref) == Addresses(w.reg.db, ref))
  }

  function Find(db: R.Db, row: PondId): Found
    requires row in db.ponds
  {
    var n := db.ponds[row].node;
    Found(n, if n in db.nodes then Some(db.nodes[n].internal) else None)
  }

  function InfoOf(f: Found): PondInfo {
    PondInfo(Some(f.owner), f.endpoint)
  }

  predicate IsDialable(f: Found) {
    f.owner != "" && Named(f.endpoint).Some?
  }

  /** The addresses a request for `ref` can be sent to. */
  function Addresses(db: R.Db, ref: string): set<Endpoint> {
    set row | row in R.Matching(db, ref) && IsDialable(Find(db, row)) :: Find(db, row).endpoint.value
  }

  /** The outcome of one lookup and placement, by the registry's `pond_info`. */
  function Decided(w: World, row: PondId, ref: string): World
    requires w.request.At?
  {
    match R.PondInfo(w.reg.db, ref, row)
    case Err(_) => w.(request := NotFound)
    case Ok((pond, endpoint)) =>
      var f := Found(pond.node, endpoint);
      var looked := w.(last := Some(f), changes := w.changes + if w.last.Some? && w.last.value != f then 1 else 0);
      match Place(w.request.me, InfoOf(f))
      case Local => looked.(request := Executed(pond.node, row))
      case NoOwner => looked.(request := Refused)
      case Forward(_, e) => looked.(request := Dialling(e), hops := w.hops + 1)
  }

  function Apply(w: World, s: Step, ref: string, g: Regime): World
    requires Enabled(w, s, ref, g)
  {
    match s
    case Lookup(row) => Decided(w, row, ref)
    case Answer(me) => w.(request := At(me))
    case NoAnswer => w.(request := Unreachable)
    case Other(op) => w.(reg := R.Apply(w.reg, op))
  }

  ghost predicate Runs(w: World, steps: seq<Step>, ref: string, g: Regime, to: World)
    decreases |steps|
  {
    if steps == [] then to == w
    else Enabled(w, steps[0], ref, g) && Runs(Apply(w, steps[0], ref, g), steps[1..], ref, g, to)
  }

  /** A request as it arrives at a greeter. */
  function Arrived(reg: R.World, me: Me): World {
    World(reg, At(me), 0, 0, None)
  }

  /** Where a request for `ref`, arriving at some greeter when the registry is `reg`, can get to. */
  ghost predicate Reachable(reg: R.World, ref: string, g: Regime, to: World) {
    exists me: Me, steps: seq<Step> :: me.Clustered? && Runs(Arrived(reg, me), steps, ref, g, to)
  }

  ghost predicate CanHop(reg: R.World, ref: string, g: Regime, n: nat) {
    exists to :: Reachable(reg, ref, g, to) && to.hops == n
  }

  // ---------------------------------------------------------------- who executes

  /** The node that executes is the owner of the row its own lookup returned, and is so
      by its id alone. */
  lemma ExecutionIsOfTheRowReturned(w: World, row: PondId, ref: string, g: Regime)
    requires Enabled(w, Lookup(row), ref, g) && w.request.me.Clustered?
    ensures var to := Apply(w, Lookup(row), ref, g);
      && (to.request.NotFound? <==> R.Matching(w.reg.db, ref) == {})
      && (to.request.Executed? ==>
            && to.request == Executed(w.request.me.id, row) && row in R.Matching(w.reg.db, ref)
            && w.reg.db.ponds[row].node == w.request.me.id != "")
      && (row in R.Matching(w.reg.db, ref) && w.reg.db.ponds[row].node == w.request.me.id != "" ==> to.request.Executed?)
  {
    if row in R.Matching(w.reg.db, ref) && w.request.me.id != "" {
      OwnershipIsIdentity(w.request.me, InfoOf(Find(w.reg.db, row)));
    }
  }

  /** Whoever executed is the node the pond was placed on. */
  predicate OwnerInv(w: World) {
    && (w.request.At? ==> w.request.me.Clustered?)
    && (w.request.Executed? ==> w.request.pond in w.reg.placed && w.reg.placed[w.request.pond] == w.request.id)
  }

  lemma StepKeepsOwner(w: World, s: Step, ref: string, g: Regime)
    requires OwnerInv(w) && R.Inv(w.reg) && Enabled(w, s, ref, g)
    ensures OwnerInv(Apply(w, s, ref, g)) && R.Inv(Apply(w, s, ref, g).reg)
  {
    match s {
      case Lookup(row) =>
        ExecutionIsOfTheRowReturned(w, row, ref, g);
        if row in R.Matching(w.reg.db, ref) { assert R.RowOk(w.reg, row, w.reg.db.ponds[row]); }
      case Other(op) =>
        R.StepKeepsInv(w.reg, op);
        R.StepKeepsPlaced(w.reg, op);
      case _ =>
    }
  }

  lemma {:induction false} RunKeepsOwner(w: World, steps: seq<Step>, ref: string, g: Regime, to: World)
    requires OwnerInv(w) && R.Inv(w.reg) && Runs(w, steps, ref, g, to)
    ensures OwnerInv(to)
    decreases |steps|
  {
    if steps == [] {
    } else {
      StepKeepsOwner(w, steps[0], ref, g);
      RunKeepsOwner(Apply(w, steps[0], ref, g), steps[1..], ref, g, to);
    }
  }

  /** From any greeter, whatever the registry does meanwhile and whatever addresses
      nodes advertise, a request that is executed is executed for a pond on the node
      that pond was placed on. */
  lemma RequestsReachTheOwner(reg: R.World, ref: string, g: Regime, to: World)
    requires R.Reachable(reg) && Reachable(reg, ref, g, to) && to.request.Executed?
    ensures to.request.pond in to.reg.placed && to.reg.placed[to.request.pond] == to.request.id
  {
    R.ReachableInv(reg);
    var me: Me, steps: seq<Step> :| me.Clustered? && Runs(Arrived(reg, me), steps, ref, g, to);
    RunKeepsOwner(Arrived(reg, me), steps, ref, g, to);
  }

  // ------------------------------------------------------------------ how far off

  /** With honest nodes, a request stands where its last lookup sent it. */
  predicate HopInv(w: World) {
    && w.hops <= w.changes + (if w.last.Some? then 1 else 0)
    && (w.last.None? ==> w.hops == 0)
    && (w.request.At? ==> w.request.me.Clustered?
                          && (w.last.Some? ==> w.last.value.endpoint == Some(w.request.me.endpoint)))
    && (w.request.Dialling? ==> w.last.Some? && w.last.value.endpoint == Some(w.request.endpoint))
  }

  lemma {:induction false} RunKeepsHops(w: World, steps: seq<Step>, ref: string, g: Regime, to: World)
    requires HopInv(w) && Runs(w, steps, ref, g, to) && g.honest
    ensures HopInv(to)
    decreases |steps|
  {
    if steps == [] {
    } else {
      RunKeepsHops(Apply(w, steps[0], ref, g), steps[1..], ref, g, to);
    }
  }

  /** With honest nodes, whatever the registry does meanwhile, a request makes at most
      one hop, plus one for each time a lookup found another owner or address than
      the lookup before. */
  lemma HonestHopsFollowTheRegistry(reg: R.World, ref: string, steady: bool, to: World)
    requires Reachable(reg, ref, Regime(true, steady), to)
    ensures to.hops <= to.changes + 1
  {
    var g := Regime(true, steady);
    var me: Me, steps: seq<Step> :| me.Clustered? && Runs(Arrived(reg, me), steps, ref, g, to);
    RunKeepsHops(Arrived(reg, me), steps, ref, g, to);
  }

  // ------------------------------------------------ exactly when one hop is enough

  /** In a steady registry the reference leads to one address at most. */
  predicate OneAddress(db: R.Db, ref: string) {
    forall a, b | a in Addresses(db, ref) && b in Addresses(db, ref) :: a == b
  }

  lemma OneAddressIsAtMostOne(db: R.Db, ref: string)
    ensures OneAddress(db, ref) <==> |Addresses(db, ref)| <= 1
  {
    var s := Addresses(db, ref);
    if a, b :| a in s && b in s && a != b {
      R.SubsetSize({a, b}, s);
      assert |{a, b}| == 2;
    } else if s != {} {
      var a :| a in s;
      assert s == {a};
    }
  }

  /** Where a request stands in a steady registry that leads to `addresses`. */
  predicate SteadyInv(w: World, ref: string, addresses: set<Endpoint>, honest: bool) {
    && Addresses(w.reg.db, ref) == addresses && w.hops <= 1
    && (w.request.Dialling? ==> w.request.endpoint in addresses)
    && (w.request.At? ==> w.request.me.Clustered? && (w.hops == 1 ==> honest && w.request.me.endpoint in addresses))
  }

  lemma LookupKeepsSteady(w: World, row: PondId, ref: string, addresses: set<Endpoint>, g: Regime)
    requires SteadyInv(w, ref, addresses, g.honest) && Enabled(w, Lookup(row), ref, g)
    requires forall a, b | a in addresses && b in addresses :: a == b
    ensures SteadyInv(Apply(w, Lookup(row), ref, g), ref, addresses, g.honest)
  {
    if row in R.Matching(w.reg.db, ref) {
      var f := Find(w.reg.db, row);
      if Place(w.request.me, InfoOf(f)).Forward? {
        assert IsDialable(f) && f.endpoint.value in Addresses(w.reg.db, ref);
      }
    }
  }

  lemma {:induction false} SteadyRun(w: World, steps: seq<Step>, ref: string, addresses: set<Endpoint>, g: Regime, to: World)
    requires SteadyInv(w, ref, addresses, g.honest) && Runs(w, steps, ref, g, to) && g.steady
    requires if g.honest then forall a, b | a in addresses && b in addresses :: a == b else addresses == {}
    ensures to.hops <= 1
    decreases |steps|
  {
    if steps == [] {
    } else {
      if steps[0].Lookup? { LookupKeepsSteady(w, steps[0].row, ref, addresses, g); }
      SteadyRun(Apply(w, steps[0], ref, g), steps[1..], ref, addresses, g, to);
    }
  }

  /** A node that, asked for the row `p`, sends the request on. */
  predicate SendsTo(me: Me, db: R.Db, ref: string, p: PondId) {
    me.Clustered? && p in R.Matching(db, ref) && Place(me, InfoOf(Find(db, p))).Forward?
  }

  /** Two nodes that pass a request back and forth: `mp` answers where row `p`
      leads and sends it where `q` leads, and the other way round. */
  predicate PassBack(db: R.Db, ref: string, p: PondId, mp: Me, q: PondId, mq: Me, honest: bool) {
    && SendsTo(mp, db, ref, q) && SendsTo(mq, db, ref, p)
    && (honest ==> Find(db, p).endpoint == Some(mp.endpoint) && Find(db, q).endpoint == Some(mq.endpoint))
  }

  lemma {:induction false} PassingGoesOn(w: World, ref: string, g: Regime, p: PondId, mp: Me, q: PondId, mq: Me, n: nat)
      returns (steps: seq<Step>, to: World)
    requires w.request == At(mq) && PassBack(w.reg.db, ref, p, mp, q, mq, g.honest)
    ensures Runs(w, steps, ref, g, to) && to.hops == w.hops + n
    decreases n
  {
    if n == 0 {
      steps, to := [], w;
    } else {
      var w1 := Apply(w, Lookup(p), ref, g);
      var w2 := Apply(w1, Answer(mp), ref, g);
      var rest;
      rest, to := PassingGoesOn(w2, ref, g, q, mq, p, mp, n - 1);
      steps := [Lookup(p), Answer(mp)] + rest;
      assert steps[1..] == [Answer(mp)] + rest && steps[1..][1..] == rest;
      assert Runs(w1, steps[1..], ref, g, to);
    }
  }

  /** Two addresses behind one reference: their owners pass the request back and forth. */
  lemma TwoAddressesPassBack(db: R.Db, ref: string) returns (p: PondId, mp: Me, q: PondId, mq: Me)
    requires !OneAddress(db, ref)
    ensures PassBack(db, ref, p, mp, q, mq, true)
  {
    var a, b :| a in Addresses(db, ref) && b in Addresses(db, ref) && a != b;
    p :| p in R.Matching(db, ref) && IsDialable(Find(db, p)) && Find(db, p).endpoint.value == a;
    q :| q in R.Matching(db, ref) && IsDialable(Find(db, q)) && Find(db, q).endpoint.value == b;
    mp, mq := Clustered(Find(db, p).owner, a), Clustered(Find(db, q).owner, b);
  }

  /** A node that answers under another id and address sends the request back to
      where it came from. */
  lemma DishonestAnswerPassesBack(db: R.Db, ref: string) returns (p: PondId, me: Me)
    requires Addresses(db, ref) != {}
    ensures PassBack(db, ref, p, me, p, me, false)
  {
    var a :| a in Addresses(db, ref);
    p :| p in R.Matching(db, ref) && IsDialable(Find(db, p)) && Find(db, p).endpoint.value == a;
    var owner := Find(db, p).owner;
    me := Clustered(owner + "x", a + "x");
    assert |owner + "x"| != |owner| && |a + "x"| != |a|;
  }

  lemma UnboundedOtherwise(reg: R.World, ref: string, g: Regime, n: nat) returns (to: World)
    requires !(if g.honest then OneAddress(reg.db, ref) else Addresses(reg.db, ref) == {})
    ensures Reachable(reg, ref, g, to) && to.hops == n
  {
    var p, mp, q, mq;
    if g.honest {
      p, mp, q, mq := TwoAddressesPassBack(reg.db, ref);
    } else {
      p, mp := DishonestAnswerPassesBack(reg.db, ref);
      q, mq := p, mp;
    }
    var steps;
    steps, to := PassingGoesOn(Arrived(reg, mq), ref, g, p, mp, q, mq, n);
  }

  /** With the addresses behind a reference held still, every request for it makes at
      most one hop exactly when there is at most one address and nodes advertise
      the address they answer at, or no address at all. Otherwise some request
      makes any number of hops. */
  lemma ForwardingIsBoundedExactly(reg: R.World, ref: string, honest: bool)
    ensures (forall to | Reachable(reg, ref, Regime(honest, true), to) :: to.hops <= 1)
      <==> |Addresses(reg.db, ref)| <= if honest then 1 else 0
    ensures |Addresses(reg.db, ref)| > (if honest then 1 else 0) ==>
      forall n: nat :: CanHop(reg, ref, Regime(honest, true), n)
  {
    var g, s := Regime(honest, true), Addresses(reg.db, ref);
    OneAddressIsAtMostOne(reg.db, ref);
    if |s| <= (if honest then 1 else 0) {
      forall to | Reachable(reg, ref, g, to) ensures to.hops <= 1 {
        var me: Me, steps: seq<Step> :| me.Clustered? && Runs(Arrived(reg, me), steps, ref, g, to);
        SteadyRun(Arrived(reg, me), steps, ref, s, g, to);
      }
    } else {
      forall n: nat ensures CanHop(reg, ref, g, n) {
        var to := UnboundedOtherwise(reg, ref, g, n);
      }
      var to := UnboundedOtherwise(reg, ref, g, 2);
    }
  }

  /** When no pond is called by another's id, no reference leads to two addresses. */
  lemma ExactReferencesHaveOneAddress(db: R.Db, ref: string)
    requires R.NamesUnique(db) && R.NoNameIsAnothersId(db)
    ensures |Addresses(db, ref)| <= 1
  {
    forall a, b | a in Addresses(db, ref) && b in Addresses(db, ref) ensures a == b {
      var p :| p in R.Matching(db, ref) && IsDialable(Find(db, p)) && Find(db, p).endpoint.value == a;
      var q :| q in R.Matching(db, ref) && IsDialable(Find(db, q)) && Find(db, q).endpoint.value == b;
      assert p == q;
    }
    OneAddressIsAtMostOne(db, ref);
  }

  /** In every registry that can come about, every reference, honest nodes: one hop is
      enough exactly when no creation may clash with an id. */
  lemma HonestForwardingIsBoundedIfNothingClashes(mayClash: bool)
    ensures (forall reg, ref, to | R.ReachableIf(reg, mayClash) && Reachable(reg, ref, Regime(true, true), to) :: to.hops <= 1)
      <==> !mayClash
  {
    if mayClash {
      var reg, id := AmbiguousReferenceLoops();
      assert CanHop(reg, id, Regime(true, true), 2);
      var to :| Reachable(reg, id, Regime(true, true), to) && to.hops == 2;
    } else {
      forall reg, ref, to | R.ReachableIf(reg, mayClash) && Reachable(reg, ref, Regime(true, true), to)
        ensures to.hops <= 1
      {
        var ops :| R.Runs(R.EMPTY, ops, reg) && R.NoClash(R.EMPTY, ops);
        R.RunKeepsNamesApart(R.EMPTY, ops, reg);
        R.NamesApart(reg);
        ExactReferencesHaveOneAddress(reg.db, ref);
        ForwardingIsBoundedExactly(reg, ref, true);
      }
    }
  }

  /** A pond on one node, and on another a pond called by its id: with both nodes
      honest and the registry at rest, a request for that id makes any number of hops. */
  lemma AmbiguousReferenceLoops() returns (reg: R.World, id: PondId)
    ensures R.ReachableIf(reg, true)
    ensures forall n: nat :: CanHop(reg, id, Regime(true, true), n)
  {
    var other: PondId := seq(36, i => '1');
    id := seq(36, i => '0');
    assert id[0] != other[0];
    var a, b := R.Node("", "a:1", 1, true, 0), R.Node("", "b:1", 1, true, 0);
    reg := R.DropCanTakeTwo("pond", id, other, a, b, "a", "b");
    assert Find(reg.db, id).endpoint == Some("a:1") && Find(reg.db, other).endpoint == Some("b:1");
    assert "a:1" in Addresses(reg.db, id) && "b:1" in Addresses(reg.db, id);
    OneAddressIsAtMostOne(reg.db, id);
    assert "a:1"[0] != "b:1"[0];
    ForwardingIsBoundedExactly(reg, id, true);
  }

  predicate IsRegistration(s: Step) {
    s.Other? && s.op.DoRegister?
  }

  /** With honest nodes that never re-register, and no name that is an id, a pond
      dropped and created again elsewhere under its name still costs a second hop:
      the lookup found another owner than the one before. */
  lemma RecreatedPondCostsAHop(name: string, id: PondId, id': PondId, a: NodeId, b: NodeId, ea: Endpoint, eb: Endpoint, me: Me)
      returns (reg: R.World, steps: seq<Step>, to: World)
    requires R.IsLegalName(name) && R.IsPondId(id) && R.IsPondId(id') && id != id' && name !in {id, id'}
    requires a != b && "" !in {a, b, ea, eb} && ea != eb
    requires me.Clustered? && me.id !in {a, b} && me.endpoint !in {ea, eb}
    ensures R.ReachableIf(reg, false) && Runs(Arrived(reg, me), steps, name, Regime(true, false), to)
    ensures (forall s | s in steps :: !IsRegistration(s)) && to.hops == 2 && to.changes == 1
  {
    reg := PondOn(name, id, a, b, ea, eb);
    var g, answer := Regime(true, false), Answer(Clustered(a, ea));
    var drop, create := R.DoDrop(name), R.DoCreate(Some(name), "o", R.TierName(R.Small), id', b);
    LookupForwards(Arrived(reg, me), id, name, g, a, ea);
    var w1 := Apply(Arrived(reg, me), Lookup(id), name, g);
    var reg' := Recreated(reg, name, id, id', a, b, drop, create);
    var w3 := w1.(reg := reg');
    var w4 := Apply(w3, answer, name, g);
    LookupForwards(w4, id', name, g, b, eb);
    to := Apply(w4, Lookup(id'), name, g);
    RunsTwo(w3, answer, Lookup(id'), name, g);
    RunsTwo(w1, Other(drop), Other(create), name, g);
    RunsAppend(w1, [Other(drop), Other(create)], w3, [answer, Lookup(id')], name, g, to);
    steps := [Lookup(id)] + ([Other(drop), Other(create)] + [answer, Lookup(id')]);
    assert steps[1..] == [Other(drop), Other(create)] + [answer, Lookup(id')];
  }

  lemma LookupForwards(w: World, row: PondId, ref: string, g: Regime, owner: NodeId, e: Endpoint)
    requires w.request.At? && w.request.me.Clustered? && w.request.me.id != owner && w.request.me.endpoint != e
    requires row in R.Matching(w.reg.db, ref) && w.reg.db.ponds[row].node == owner && owner != "" && e != ""
    requires owner in w.reg.db.nodes && w.reg.db.nodes[owner].internal == e
    ensures var f := Found(owner, Some(e));
      Apply(w, Lookup(row), ref, g) ==
      World(w.reg, Dialling(e), w.hops + 1, w.changes + if w.last.Some? && w.last.value != f then 1 else 0, Some(f))
  {
  }

  lemma Recreated(reg: R.World, name: string, id: PondId, id': PondId, a: NodeId, b: NodeId, drop: R.Op, create: R.Op)
      returns (to: R.World)
    requires R.IsLegalName(name) && R.IsPondId(id') && id != id' && name !in {id, id'}
    requires reg.used == {id} && R.IsActive(reg.db, b) && reg.db.ponds == map[id := R.Pond(name, "o", a, R.TierName(R.Small))]
    requires drop == R.DoDrop(name) && create == R.DoCreate(Some(name), "o", R.TierName(R.Small), id', b)
    ensures R.Enabled(reg, drop) && R.Enabled(R.Apply(reg, drop), create) && to == R.Apply(R.Apply(reg, drop), create)
    ensures to.db == R.Db(reg.db.nodes, map[id' := R.Pond(name, "o", b, R.TierName(R.Small))])
  {
    assert R.Matching(reg.db, name) == {id};
    var mid := R.Apply(reg, drop);
    assert mid.db.ponds == map[];
    R.Creates(mid.db, name, "o", R.TierName(R.Small), id', b);
    to := R.Apply(mid, create);
  }

  lemma RunsTwo(w: World, s: Step, t: Step, ref: string, g: Regime)
    requires Enabled(w, s, ref, g) && Enabled(Apply(w, s, ref, g), t, ref, g)
    ensures Runs(w, [s, t], ref, g, Apply(Apply(w, s, ref, g), t, ref, g))
  {
    assert [s, t][1..] == [t] && [t][1..] == [];
    assert Runs(Apply(w, s, ref, g), [t], ref, g, Apply(Apply(w, s, ref, g), t, ref, g));
  }

  lemma {:induction false} RunsAppend(a: World, s: seq<Step>, b: World, t: seq<Step>, ref: string, g: Regime, c: World)
    requires Runs(a, s, ref, g, b) && Runs(b, t, ref, g, c)
    ensures Runs(a, s + t, ref, g, c)
    decreases |s|
  {
    if s == [] {
      assert s + t == t;
    } else {
      assert (s + t)[1..] == s[1..] + t;
      RunsAppend(Apply(a, s[0], ref, g), s[1..], b, t, ref, g, c);
    }
  }

  /** A registry of two nodes with one pond, on the first. */
  lemma PondOn(name: string, id: PondId, a: NodeId, b: NodeId, ea: Endpoint, eb: Endpoint) returns (reg: R.World)
    requires R.IsLegalName(name) && R.IsPondId(id) && name != id && a != b
    ensures R.ReachableIf(reg, false) && reg.used == {id}
    ensures reg.db.nodes == map[a := R.Node("", ea, 1, true, 0), b := R.Node("", eb, 1, true, 0)]
    ensures reg.db.ponds == map[id := R.Pond(name, "o", a, R.TierName(R.Small))]
  {
    var first, second := R.DoRegister(a, "", ea, 1, 0), R.DoRegister(b, "", eb, 1, 0);
    var create := R.DoCreate(Some(name), "o", R.TierName(R.Small), id, a);
    var w1 := R.Apply(R.EMPTY, first);
    var w2 := R.Apply(w1, second);
    R.Creates(w2.db, name, "o", R.TierName(R.Small), id, a);
    reg := R.Apply(w2, create);
    var ops := [first, second, create];
    assert ops[1..] == [second, create] && ops[1..][1..] == [create] && [create][1..] == [];
    assert R.Runs(w2, [create], reg) && R.NoClash(w2, [create]);
    assert R.Runs(w1, ops[1..], reg) && R.NoClash(w1, ops[1..]);
    assert R.Runs(R.EMPTY, ops, reg) && R.NoClash(R.EMPTY, ops);
  }

  // -------------------------------------------------------------- no false refusal

  /** This node can have row `row` served: it is the owner, or can dial the owner. */
  predicate CanServe(me: Me, db: R.Db, row: PondId)
    requires row in db.ponds && me.Clustered?
  {
    var f := Find(db, row);
    f.owner != "" && (f.owner == me.id || (Named(f.endpoint).Some? && f.endpoint.value != me.endpoint))
  }

  /** The steps of a request that meets no trouble. */
  function Untroubled(me: Me, db: R.Db, row: PondId): seq<Step>
    requires row in db.ponds && me.Clustered? && CanServe(me, db, row)
  {
    var f := Find(db, row);
    if f.owner == me.id then [Lookup(row)] else [Lookup(row), Answer(Clustered(f.owner, f.endpoint.value)), Lookup(row)]
  }

  /** A greeter refuses a pond only when it cannot have it served; otherwise, if the
      owner answers and finds the same row, the owner executes. */
  lemma RefusedOnlyIfUnservable(reg: R.World, me: Me, ref: string, row: PondId, g: Regime) returns (to: World)
    requires row in R.Matching(reg.db, ref) && me.Clustered?
    ensures Apply(Arrived(reg, me), Lookup(row), ref, g).request.Refused? <==> !CanServe(me, reg.db, row)
    ensures CanServe(me, reg.db, row) ==>
      && Runs(Arrived(reg, me), Untroubled(me, reg.db, row), ref, g, to)
      && to.request == Executed(reg.db.ponds[row].node, row)
  {
    var w, f := Arrived(reg, me), Find(reg.db, row);
    var w1 := Apply(w, Lookup(row), ref, g);
    to := w1;
    if CanServe(me, reg.db, row) {
      if f.owner == me.id {
        assert [Lookup(row)][1..] == [];
      } else {
        var answer := Answer(Clustered(f.owner, f.endpoint.value));
        var w2 := Apply(w1, answer, ref, g);
        to := Apply(w2, Lookup(row), ref, g);
        var steps := [Lookup(row), answer, Lookup(row)];
        assert steps[1..] == [answer, Lookup(row)] && steps[1..][1..] == [Lookup(row)] && [Lookup(row)][1..] == [];
        assert Runs(w2, [Lookup(row)], ref, g, to);
        assert Runs(w1, [answer, Lookup(row)], ref, g, to);
      }
    }
  }

  /** A node that is not clustered executes whatever pond it finds, and never forwards. */
  lemma UnclusteredNodesServeAll(reg: R.World, ref: string, row: PondId, g: Regime)
    requires R.CanReturn(reg.db, ref, row)
    ensures var to := Apply(Arrived(reg, Alone), Lookup(row), ref, g);
      to.hops == 0 && to.request ==
        if R.Matching(reg.db, ref) == {} then NotFound else Executed(reg.db.ponds[row].node, row)
  {
  }
}
