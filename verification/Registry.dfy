/** The control plane's registry of nodes and ponds: two tables behind one lock.
    Every operation is a function from database to database, which the class's
    methods are proved to compute; the invariants are about any sequence of them. */
module Registry {
  import opened Chars
  import opened Options

  datatype Error =
    Invalid | NoNodeAvailable | NameConflict | PondNotFound | NodeNotFound | PondStillOwned | Storage

  datatype Result<T> = Ok(value: T) | Err(error: Error)

  type NodeId = string
  type PondId = string

  datatype Node = Node(mcp: string, internal: string, capacity: nat, active: bool, lastHeartbeat: int)

  datatype Pond = Pond(name: string, owner: string, node: NodeId, tier: string)

  /** Both tables under their primary keys. */
  datatype Db = Db(nodes: map<NodeId, Node>, ponds: map<PondId, Pond>)

  // ------------------------------------------------------------ names, tiers

  /** `pond_name::validate`: 1 to 64 ASCII letters, digits, `_` or `-`. */
  predicate IsLegalName(name: string) {
    0 < |name| <= 64 && forall i | 0 <= i < |name| :: IsIdentChar(name[i]) || name[i] == '-'
  }

  /** The text of a generated id: 36 characters, hexadecimal digits and dashes. */
  predicate IsPondId(id: string) {
    |id| == 36 && forall i | 0 <= i < |id| :: IsDigit(id[i]) || 'a' <= id[i] <= 'f' || id[i] == '-'
  }

  datatype Tier = Uncapped | XSmall | Small | Medium | Large | XLarge

  function TierName(t: Tier): string {
    match t
    case Uncapped => "none"
    case XSmall => "x-small"
    case Small => "small"
    case Medium => "medium"
    case Large => "large"
    case XLarge => "x-large"
  }

  /** `PondTier::parse`. */
  function ParseTier(s: string): Option<Tier> {
    var t := Lower(Trim(s));
    if t == "none" || t == "uncapped" then Some(Uncapped)
    else if t == "x-small" || t == "xsmall" then Some(XSmall)
    else if t == "small" then Some(Small)
    else if t == "medium" then Some(Medium)
    else if t == "large" then Some(Large)
    else if t == "x-large" || t == "xlarge" then Some(XLarge)
    else None
  }

  /** `PondTier::parse_for_create`: nothing said means medium. */
  function ParseTierForCreate(s: string): Option<Tier> {
    if Trim(s) == "" then Some(Medium) else ParseTier(s)
  }

  predicate IsTierName(s: string) {
    exists t: Tier :: s == TierName(t)
  }

  // ------------------------------------------------------------- operations

  function RegisterNode(db: Db, id: NodeId, mcp: string, internal: string, capacity: nat, now: int): Db {
    db.(nodes := db.nodes[id := Node(mcp, internal, capacity, true, now)])
  }

  function Heartbeat(db: Db, id: NodeId, now: int): (Db, Result<()>) {
    if id in db.nodes then
      (db.(nodes := db.nodes[id := db.nodes[id].(lastHeartbeat := now, active := true)]), Ok(()))
    else (db, Err(NodeNotFound))
  }

  predicate IsStale(n: Node, ttl: nat, now: int) {
    n.active && n.lastHeartbeat < now - ttl
  }

  function ReapStaleNodes(db: Db, ttl: nat, now: int): Db {
    db.(nodes := map n | n in db.nodes ::
      if IsStale(db.nodes[n], ttl, now) then db.nodes[n].(active := false) else db.nodes[n])
  }

  predicate IsActive(db: Db, n: NodeId) {
    n in db.nodes && db.nodes[n].active
  }

  /** The random choice of `create_pond`: any active node, if there is one. */
  predicate CanPick(db: Db, pick: NodeId) {
    IsActive(db, pick) || forall n | n in db.nodes :: !db.nodes[n].active
  }

  predicate HasName(ponds: map<PondId, Pond>, name: string) {
    exists p | p in ponds :: ponds[p].name == name
  }

  /** `id` is the id generated for this call; a row with that key already there
      would be refused by the table. */
  function CreatePond(db: Db, name: Option<string>, owner: string, tier: string, id: PondId, pick: NodeId): (Db, Result<Pond>) {
    var parsed := ParseTierForCreate(tier);
    if parsed.None? then (db, Err(Invalid))
    else if parsed.value == Uncapped then (db, Err(Invalid))
    else if name.Some? && !IsLegalName(name.value) then (db, Err(Invalid))
    else if !IsActive(db, pick) then (db, Err(NoNodeAvailable))
    else
      var called := if name.Some? then name.value else id;
      if HasName(db.ponds, called) then (db, Err(NameConflict))
      else if id in db.ponds then (db, Err(Storage))
      else
        var pond := Pond(called, owner, pick, TierName(parsed.value));
        (db.(ponds := db.ponds[id := pond]), Ok(pond))
  }

  /** `pond_id = ref OR name = ref`. */
  predicate Matches(db: Db, id: PondId, ref: string)
    requires id in db.ponds
  {
    id == ref || db.ponds[id].name == ref
  }

  function Matching(db: Db, ref: string): set<PondId> {
    set id | id in db.ponds && Matches(db, id, ref)
  }

  function SetPondTier(db: Db, ref: string, tier: string): (Db, Result<()>) {
    var parsed := ParseTier(tier);
    if parsed.None? then (db, Err(Invalid))
    else if Matching(db, ref) == {} then (db, Err(PondNotFound))
    else
      (db.(ponds := map id | id in db.ponds ::
             if Matches(db, id, ref) then db.ponds[id].(tier := TierName(parsed.value)) else db.ponds[id]), Ok(()))
  }

  /** What the LEFT JOIN of `forget_pond` refuses: an active owner with an endpoint. */
  predicate IsServed(db: Db, p: Pond) {
    IsActive(db, p.node) && db.nodes[p.node].internal != ""
  }

  /** `row` is the one matching row `LIMIT 1` returns, if any matches. */
  predicate CanReturn(db: Db, ref: string, row: PondId) {
    row in Matching(db, ref) || Matching(db, ref) == {}
  }

  function ForgetPond(db: Db, ref: string, row: PondId): (Db, Result<Pond>) {
    if row !in Matching(db, ref) then (db, Err(PondNotFound))
    else if IsServed(db, db.ponds[row]) then (db, Err(PondStillOwned))
    else (db.(ponds := db.ponds - {row}), Ok(db.ponds[row]))
  }

  function DropPond(db: Db, ref: string): (Db, Result<()>) {
    if Matching(db, ref) == {} then (db, Err(PondNotFound))
    else (db.(ponds := db.ponds - Matching(db, ref)), Ok(()))
  }

  /** The rows the inner join of `get_pond_location` can return. */
  function Locatable(db: Db, ref: string): set<PondId> {
    set id | id in db.ponds && Matches(db, id, ref) && db.ponds[id].node in db.nodes
  }

  /** `pond_info`: the row `LIMIT 1` returns and its owner's endpoint, absent when
      the owner has no node row. */
  function PondInfo(db: Db, ref: string, row: PondId): Result<(Pond, Option<string>)> {
    if row !in Matching(db, ref) then Err(PondNotFound)
    else
      var p := db.ponds[row];
      Ok((p, if p.node in db.nodes then Some(db.nodes[p.node].internal) else None))
  }

  // ------------------------------------------------------------- the object

  class Tables {
    var nodes: map<NodeId, Node>
    var ponds: map<PondId, Pond>

    constructor ()
      ensures View() == Db(map[], map[])
    {
      nodes, ponds := map[], map[];
    }

    function View(): Db
      reads this
    {
      Db(nodes, ponds)
    }

    method Register(id: NodeId, mcp: string, internal: string, capacity: nat, now: int)
      modifies this
      ensures View() == RegisterNode(old(View()), id, mcp, internal, capacity, now)
    {
      nodes := nodes[id := Node(mcp, internal, capacity, true, now)];
    }

    method Beat(id: NodeId, now: int) returns (r: Result<()>)
      modifies this
      ensures (View(), r) == Heartbeat(old(View()), id, now)
    {
      if id !in nodes {
        return Err(NodeNotFound);
      }
      nodes := nodes[id := nodes[id].(lastHeartbeat := now, active := true)];
      r := Ok(());
    }

    method Create(name: Option<string>, owner: string, tier: string, id: PondId, pick: NodeId) returns (r: Result<Pond>)
      requires CanPick(View(), pick)
      modifies this`ponds
      ensures (View(), r) == CreatePond(old(View()), name, owner, tier, id, pick)
    {
      var parsed := ParseTierForCreate(tier);
      if parsed.None? || parsed.value == Uncapped {
        return Err(Invalid);
      }
      if name.Some? && !IsLegalName(name.value) {
        return Err(Invalid);
      }
      if !(pick in nodes && nodes[pick].active) {
        return Err(NoNodeAvailable);
      }
      var called := if name.Some? then name.value else id;
      if HasName(ponds, called) {
        return Err(NameConflict);
      }
      if id in ponds {
        return Err(Storage);
      }
      var pond := Pond(called, owner, pick, TierName(parsed.value));
      ponds := ponds[id := pond];
      r := Ok(pond);
    }

    method SetTier(ref: string, tier: string) returns (r: Result<()>)
      modifies this`ponds
      ensures (View(), r) == SetPondTier(old(View()), ref, tier)
    {
      var parsed := ParseTier(tier);
      if parsed.None? {
        return Err(Invalid);
      }
      var rows := Matching(View(), ref);
      if rows == {} {
        return Err(PondNotFound);
      }
      ghost var before := View();
      ponds := map id | id in ponds :: if id in rows then ponds[id].(tier := TierName(parsed.value)) else ponds[id];
      assert ponds == SetPondTier(before, ref, tier).0.ponds;
      r := Ok(());
    }

    method Forget(ref: string, row: PondId) returns (r: Result<Pond>)
      requires CanReturn(View(), ref, row)
      modifies this`ponds
      ensures (View(), r) == ForgetPond(old(View()), ref, row)
    {
      if Matching(View(), ref) == {} {
        return Err(PondNotFound);
      }
      var p := ponds[row];
      if p.node in nodes && nodes[p.node].active && nodes[p.node].internal != "" {
        return Err(PondStillOwned);
      }
      ponds := ponds - {row};
      r := Ok(p);
    }

    method Drop(ref: string) returns (r: Result<()>)
      modifies this`ponds
      ensures (View(), r) == DropPond(old(View()), ref)
    {
      var rows := Matching(View(), ref);
      if rows == {} {
        return Err(PondNotFound);
      }
      ponds := ponds - rows;
      r := Ok(());
    }
  }

  // ----------------------------------------------------- sequences of operations

  datatype Op =
    | DoRegister(node: NodeId, mcp: string, internal: string, capacity: nat, now: int)
    | DoHeartbeat(node: NodeId, now: int)
    | DoReap(ttl: nat, now: int)
    | DoCreate(name: Option<string>, owner: string, tier: string, id: PondId, pick: NodeId)
    | DoSetTier(ref: string, tier: string)
    | DoForget(ref: string, row: PondId)
    | DoDrop(ref: string)

  /** `used` holds every id ever generated, which makes a new one new. `placed`, where
      each created pond was put, and `granted`, the ids given the uncapped tier, are
      proof records. */
  datatype World = World(db: Db, used: set<PondId>, placed: map<PondId, NodeId>, granted: set<PondId>)

  const EMPTY := World(Db(map[], map[]), {}, map[], {})

  predicate Enabled(w: World, op: Op) {
    match op
    case DoCreate(_, _, _, id, pick) => IsPondId(id) && id !in w.used && CanPick(w.db, pick)
    case DoForget(ref, row) => CanReturn(w.db, ref, row)
    case _ => true
  }

  function Apply(w: World, op: Op): World
    requires Enabled(w, op)
  {
    match op
    case DoRegister(n, mcp, internal, capacity, now) => w.(db := RegisterNode(w.db, n, mcp, internal, capacity, now))
    case DoHeartbeat(n, now) => w.(db := Heartbeat(w.db, n, now).0)
    case DoReap(ttl, now) => w.(db := ReapStaleNodes(w.db, ttl, now))
    case DoCreate(name, owner, tier, id, pick) =>
      var (db, r) := CreatePond(w.db, name, owner, tier, id, pick);
      w.(db := db, used := w.used + {id}, placed := if r.Ok? then w.placed[id := pick] else w.placed)
    case DoSetTier(ref, tier) =>
      w.(db := SetPondTier(w.db, ref, tier).0,
         granted := if ParseTier(tier) == Some(Uncapped) then w.granted + Matching(w.db, ref) else w.granted)
    case DoForget(ref, row) => w.(db := ForgetPond(w.db, ref, row).0)
    case DoDrop(ref) => w.(db := DropPond(w.db, ref).0)
  }

  ghost predicate Runs(from: World, ops: seq<Op>, to: World)
    decreases |ops|
  {
    if ops == [] then to == from
    else Enabled(from, ops[0]) && Runs(Apply(from, ops[0]), ops[1..], to)
  }

  ghost predicate Reachable(w: World) {
    exists ops :: Runs(EMPTY, ops, w)
  }

  predicate RowOk(w: World, id: PondId, p: Pond) {
    && IsLegalName(p.name) && IsPondId(id) && id in w.used
    && IsTierName(p.tier) && (p.tier == "none" ==> id in w.granted)
    && id in w.placed && w.placed[id] == p.node && p.node in w.db.nodes
  }

  predicate NamesUnique(db: Db) {
    forall p, q | p in db.ponds && q in db.ponds && p != q :: db.ponds[p].name != db.ponds[q].name
  }

  predicate Inv(w: World) {
    && (forall id | id in w.db.ponds :: RowOk(w, id, w.db.ponds[id]))
    && NamesUnique(w.db) && w.placed.Keys <= w.used
    && (forall id | id in w.placed :: w.placed[id] in w.db.nodes)
  }

  lemma TierNamesAreDistinct(t: Tier)
    ensures IsTierName(TierName(t)) && (TierName(t) == "none" <==> t == Uncapped)
  {
  }

  /** A database that grew by one well-formed row. */
  lemma RowAdded(w: World, id: PondId, pond: Pond, to: World)
    requires Inv(w) && id !in w.db.ponds && to.db == w.db.(ponds := w.db.ponds[id := pond])
    requires to.used == w.used + {id} && to.placed == w.placed[id := pond.node] && to.granted == w.granted
    requires id !in w.used && RowOk(to, id, pond) && !HasName(w.db.ponds, pond.name)
    ensures Inv(to)
  {
    forall q | q in to.db.ponds ensures RowOk(to, q, to.db.ponds[q]) {
      if q != id { assert RowOk(w, q, w.db.ponds[q]); }
    }
  }

  lemma UsedGrows(w: World, id: PondId)
    requires Inv(w)
    ensures Inv(w.(used := w.used + {id}))
  {
    var to := w.(used := w.used + {id});
    forall q | q in to.db.ponds ensures RowOk(to, q, to.db.ponds[q]) { assert RowOk(w, q, w.db.ponds[q]); }
  }

  lemma CreateKeepsInv(w: World, op: Op)
    requires Inv(w) && Enabled(w, op) && op.DoCreate?
    ensures Inv(Apply(w, op))
  {
    var (db, r) := CreatePond(w.db, op.name, op.owner, op.tier, op.id, op.pick);
    CreationIsPlacement(w.db, op.name, op.owner, op.tier, op.id, op.pick);
    if r.Ok? {
      assert !HasName(w.db.ponds, r.value.name) && IsTierName(r.value.tier);
      RowAdded(w, op.id, r.value, Apply(w, op));
    } else {
      UsedGrows(w, op.id);
    }
  }

  lemma SetTierKeepsInv(w: World, op: Op)
    requires Inv(w) && Enabled(w, op) && op.DoSetTier?
    ensures Inv(Apply(w, op))
  {
    var to, parsed := Apply(w, op), ParseTier(op.tier);
    if parsed.Some? { TierNamesAreDistinct(parsed.value); }
    forall id | id in to.db.ponds ensures RowOk(to, id, to.db.ponds[id]) {
      assert RowOk(w, id, w.db.ponds[id]);
      assert Matches(w.db, id, op.ref) ==> id in Matching(w.db, op.ref);
    }
    forall p, q | p in to.db.ponds && q in to.db.ponds && p != q ensures to.db.ponds[p].name != to.db.ponds[q].name {
      assert w.db.ponds[p].name != w.db.ponds[q].name;
    }
  }

  lemma StepKeepsInv(w: World, op: Op)
    requires Inv(w) && Enabled(w, op)
    ensures Inv(Apply(w, op))
  {
    if op.DoCreate? {
      CreateKeepsInv(w, op);
    } else if op.DoSetTier? {
      SetTierKeepsInv(w, op);
    } else {
      var to := Apply(w, op);
      forall id | id in to.db.ponds ensures RowOk(to, id, to.db.ponds[id]) {
        assert RowOk(w, id, w.db.ponds[id]);
      }
    }
  }

  lemma {:induction false} RunKeepsInv(w: World, ops: seq<Op>, to: World)
    requires Inv(w) && Runs(w, ops, to)
    ensures Inv(to)
    decreases |ops|
  {
    if ops == [] {
    } else {
      StepKeepsInv(w, ops[0]);
      RunKeepsInv(Apply(w, ops[0]), ops[1..], to);
    }
  }

  lemma ReachableInv(w: World)
    requires Reachable(w)
    ensures Inv(w)
  {
    var ops :| Runs(EMPTY, ops, w);
    RunKeepsInv(EMPTY, ops, w);
  }

  /** After any operations: names are unique and legal, stored tiers canonical, the
      uncapped tier only ever granted afterwards, and every pond where it was placed. */
  lemma RegistryIsSound(w: World)
    requires Reachable(w)
    ensures NamesUnique(w.db)
    ensures forall id | id in w.db.ponds :: RowOk(w, id, w.db.ponds[id])
  {
    ReachableInv(w);
  }

  /** Creation puts a pond on a node active at that moment, never uncapped, under
      the name asked for or else the id; or changes nothing. */
  lemma CreationIsPlacement(db: Db, name: Option<string>, owner: string, tier: string, id: PondId, pick: NodeId)
    requires CanPick(db, pick) && IsPondId(id)
    ensures var (to, r) := CreatePond(db, name, owner, tier, id, pick);
      && (r.Ok? ==> IsActive(db, r.value.node) && r.value.tier != "none" && IsLegalName(r.value.name)
                    && r.value.name == (if name.Some? then name.value else id)
                    && id !in db.ponds && to == db.(ponds := db.ponds[id := r.value]))
      && (r.Err? ==> to == db)
      && (r == Err(NoNodeAvailable) ==> forall n | n in db.nodes :: !db.nodes[n].active)
  {
    var parsed := ParseTierForCreate(tier);
    if parsed.Some? { TierNamesAreDistinct(parsed.value); }
  }

  /** Placements are only ever added. */
  lemma StepKeepsPlaced(w: World, op: Op)
    requires Inv(w) && Enabled(w, op)
    ensures forall id | id in w.placed :: id in Apply(w, op).placed && Apply(w, op).placed[id] == w.placed[id]
  {
  }

  lemma {:induction false} PlacedIsKept(w: World, ops: seq<Op>, to: World, id: PondId)
    requires Inv(w) && Runs(w, ops, to) && id in w.placed
    ensures id in to.placed && to.placed[id] == w.placed[id]
    decreases |ops|
  {
    if ops == [] {
    } else {
      StepKeepsInv(w, ops[0]);
      StepKeepsPlaced(w, ops[0]);
      PlacedIsKept(Apply(w, ops[0]), ops[1..], to, id);
    }
  }

  /** However the registry is operated, a pond stays on the node it was placed on. */
  lemma PlacementIsForever(w: World, ops: seq<Op>, to: World, id: PondId)
    requires Reachable(w) && Runs(w, ops, to) && id in w.db.ponds && id in to.db.ponds
    ensures to.db.ponds[id].node == w.db.ponds[id].node
  {
    var before :| Runs(EMPTY, before, w);
    RunKeepsInv(EMPTY, before, w);
    RunKeepsInv(w, ops, to);
    assert RowOk(w, id, w.db.ponds[id]) && RowOk(to, id, to.db.ponds[id]);
    PlacedIsKept(w, ops, to, id);
  }

  /** `forget_pond` takes away at most the one row it read, and never one whose
      owner is active and reachable. */
  lemma ForgetSparesServedPonds(db: Db, ref: string, row: PondId)
    requires CanReturn(db, ref, row)
    ensures var (to, r) := ForgetPond(db, ref, row);
      && to.nodes == db.nodes
      && (forall id | id in db.ponds && (IsServed(db, db.ponds[id]) || id != row || r.Err?) ::
            id in to.ponds && to.ponds[id] == db.ponds[id])
      && (r.Ok? <==> Matching(db, ref) != {} && var n := db.ponds[row].node;
                     !(n in db.nodes && db.nodes[n].active && db.nodes[n].internal != ""))
      && (r.Ok? ==> r.value == db.ponds[row] && row !in to.ponds && to.ponds.Keys < db.ponds.Keys)
      && (r.Err? ==> r.error == if Matching(db, ref) == {} then PondNotFound else PondStillOwned)
  {
    assert row in Matching(db, ref) ==> row in db.ponds;
  }

  // ------------------------------------------------------ what a reference means

  /** No pond is called by another pond's id. */
  predicate NoNameIsAnothersId(db: Db) {
    forall p, q | p in db.ponds && q in db.ponds && p != q :: db.ponds[p].name != q
  }

  lemma RefMeansAtMostTwo(db: Db, ref: string)
    requires NamesUnique(db)
    ensures |Matching(db, ref)| <= 2
  {
    var rows := Matching(db, ref);
    if exists p :: p in rows && p != ref {
      var p :| p in rows && p != ref;
      assert db.ponds[p].name == ref;
      forall q | q in rows ensures q in {ref, p} {}
      SubsetSize(rows, {ref, p});
    } else {
      SubsetSize(rows, {ref});
    }
  }

  lemma SubsetSize<T>(a: set<T>, b: set<T>)
    requires a <= b
    ensures |a| <= |b|
  {
    assert b == a + (b - a);
  }

  lemma RefMeansOne(db: Db, ref: string)
    requires NoNameIsAnothersId(db) && NamesUnique(db)
    ensures |Matching(db, ref)| <= 1
  {
    var rows := Matching(db, ref);
    if p :| p in rows {
      forall q | q in rows ensures q == p { assert q in db.ponds && p in db.ponds; }
      SubsetSize(rows, {p});
    }
  }

  lemma RefMeansTwo(db: Db, p: PondId, q: PondId)
    requires p in db.ponds && q in db.ponds && p != q && db.ponds[p].name == q
    ensures |Matching(db, q)| >= 2
  {
    SubsetSize({p, q}, Matching(db, q));
    assert |{p, q}| == 2;
  }

  /** Every reference means at most one pond exactly when no pond is called by
      another's id; otherwise a drop by that id takes both. */
  lemma RefsAreExactUnless(db: Db)
    requires NamesUnique(db)
    ensures (forall ref :: |Matching(db, ref)| <= 1) <==> NoNameIsAnothersId(db)
    ensures forall ref :: |Matching(db, ref)| <= 2
  {
    forall ref ensures |Matching(db, ref)| <= 2 { RefMeansAtMostTwo(db, ref); }
    if NoNameIsAnothersId(db) {
      forall ref ensures |Matching(db, ref)| <= 1 { RefMeansOne(db, ref); }
    } else {
      var p, q :| p in db.ponds && q in db.ponds && p != q && db.ponds[p].name == q;
      RefMeansTwo(db, p, q);
    }
  }

  /** Creation checks names only, so a pond can be given another's id as its name,
      on the same node or another; dropping that id then removes both. */
  lemma DropCanTakeTwo(name: string, id: PondId, other: PondId, a: Node, b: Node, na: NodeId, nb: NodeId) returns (w: World)
    requires IsLegalName(name) && IsPondId(id) && IsPondId(other) && id != other && name != id
    requires na != nb && a.active && b.active
    ensures Reachable(w) && w.db.nodes == map[na := a, nb := b]
    ensures w.db.ponds.Keys == {id, other} == Matching(w.db, id)
    ensures w.db.ponds[id].node == na && w.db.ponds[other].node == nb && w.db.ponds[other].name == id
    ensures DropPond(w.db, id) == (w.db.(ponds := map[]), Ok(()))
  {
    var tier := TierName(Small);
    var nodes := [DoRegister(na, a.mcp, a.internal, a.capacity, a.lastHeartbeat),
                  DoRegister(nb, b.mcp, b.internal, b.capacity, b.lastHeartbeat)];
    var w2 := Apply(Apply(EMPTY, nodes[0]), nodes[1]);
    TwoRun(EMPTY, nodes[0], nodes[1]);
    assert w2.db == Db(map[na := a, nb := b], map[]);
    var first, second := DoCreate(Some(name), "o", tier, id, na), DoCreate(Some(id), "o", tier, other, nb);
    Creates(w2.db, name, "o", tier, id, na);
    var w3 := Apply(w2, first);
    var p, q := Pond(name, "o", na, tier), Pond(id, "o", nb, tier);
    assert w3.db.ponds == map[id := p];
    Creates(w3.db, id, "o", tier, other, nb);
    w := Apply(w3, second);
    assert w.db.ponds == map[id := p, other := q];
    TwoRun(w2, first, second);
    RunsAppend(EMPTY, nodes, w2, [first, second], w);
  }

  /** A creation that nothing stands in the way of. */
  lemma Creates(db: Db, name: string, owner: string, tier: string, id: PondId, pick: NodeId)
    requires IsLegalName(name) && tier == TierName(Small) && IsActive(db, pick) && !HasName(db.ponds, name) && id !in db.ponds
    ensures var pond := Pond(name, owner, pick, tier);
      CreatePond(db, Some(name), owner, tier, id, pick) == (db.(ponds := db.ponds[id := pond]), Ok(pond))
  {
    SmallCanBeAsked();
  }

  lemma TwoRun(w: World, a: Op, b: Op)
    requires Enabled(w, a) && Enabled(Apply(w, a), b)
    ensures Runs(w, [a, b], Apply(Apply(w, a), b))
  {
    assert [a, b][1..] == [b] && [b][1..] == [];
    assert Runs(Apply(w, a), [b], Apply(Apply(w, a), b));
  }

  lemma {:induction false} RunsAppend(a: World, s: seq<Op>, b: World, t: seq<Op>, c: World)
    requires Runs(a, s, b) && Runs(b, t, c)
    ensures Runs(a, s + t, c)
    decreases |s|
  {
    if s == [] {
      assert s + t == t;
    } else {
      assert (s + t)[1..] == s[1..] + t;
      RunsAppend(Apply(a, s[0]), s[1..], b, t, c);
    }
  }

  lemma SmallCanBeAsked()
    ensures ParseTierForCreate(TierName(Small)) == Some(Small)
  {
    TierNamesReadBack(Small);
    TrimKeeps(TierName(Small));
  }

  // -------------------------------------------------- names that are not ids

  /** A creation that gives a pond an id ever generated for another as its name, or
      generates an id some pond is called by. */
  predicate Clashes(w: World, op: Op) {
    op.DoCreate? && ((op.name.Some? && op.name.value in w.used) || HasName(w.db.ponds, op.id))
  }

  /** No pond is called by an id generated for another, in the table or not. */
  predicate NoNameWasAnothersId(w: World) {
    forall p | p in w.db.ponds && w.db.ponds[p].name in w.used :: w.db.ponds[p].name == p
  }

  lemma StepKeepsNamesApart(w: World, op: Op)
    requires Inv(w) && Enabled(w, op) && !Clashes(w, op) && NoNameWasAnothersId(w)
    ensures NoNameWasAnothersId(Apply(w, op))
  {
    var to := Apply(w, op);
    OnlyNamedPondsChange(w, op);
    forall p | p in to.db.ponds && to.db.ponds[p].name in to.used ensures to.db.ponds[p].name == p {
      if p in w.db.ponds && op.DoCreate? { assert w.db.ponds[p].name != op.id; }
    }
  }

  lemma IdsAreExact(w: World, id: PondId)
    requires NoNameWasAnothersId(w) && id in w.used
    ensures Matching(w.db, id) == if id in w.db.ponds then {id} else {}
  {
  }

  ghost predicate NoClash(w: World, ops: seq<Op>)
    decreases |ops|
  {
    ops == [] || (Enabled(w, ops[0]) && !Clashes(w, ops[0]) && NoClash(Apply(w, ops[0]), ops[1..]))
  }

  lemma {:induction false} RunKeepsNamesApart(w: World, ops: seq<Op>, to: World)
    requires Inv(w) && NoNameWasAnothersId(w) && Runs(w, ops, to) && NoClash(w, ops)
    ensures Inv(to) && NoNameWasAnothersId(to)
    decreases |ops|
  {
    if ops == [] {
    } else {
      StepKeepsInv(w, ops[0]);
      StepKeepsNamesApart(w, ops[0]);
      RunKeepsNamesApart(Apply(w, ops[0]), ops[1..], to);
    }
  }

  ghost predicate ReachableIf(w: World, mayClash: bool) {
    exists ops :: Runs(EMPTY, ops, w) && (mayClash || NoClash(EMPTY, ops))
  }

  /** Every reference means at most one pond, in every run, exactly when no creation
      may clash. */
  lemma RefsAreExactIfNothingClashes(mayClash: bool)
    ensures (forall w, ref | ReachableIf(w, mayClash) :: |Matching(w.db, ref)| <= 1) <==> !mayClash
  {
    if mayClash {
      var id, other := seq(36, i => '0'), seq(36, i => '1');
      assert id[0] != other[0];
      var n := Node("", "n:1", 1, true, 0);
      var w := DropCanTakeTwo("a", id, other, n, n, "m", "n");
      assert ReachableIf(w, mayClash) && |{id, other}| == 2;
    } else {
      forall w, ref | ReachableIf(w, mayClash) ensures |Matching(w.db, ref)| <= 1 {
        var ops :| Runs(EMPTY, ops, w) && NoClash(EMPTY, ops);
        RunKeepsNamesApart(EMPTY, ops, w);
        NamesApart(w);
        RefsAreExactUnless(w.db);
      }
    }
  }

  lemma NamesApart(w: World)
    requires Inv(w) && NoNameWasAnothersId(w)
    ensures NoNameIsAnothersId(w.db)
  {
    forall p, q | p in w.db.ponds && q in w.db.ponds && p != q ensures w.db.ponds[p].name != q {
      assert RowOk(w, q, w.db.ponds[q]);
    }
  }

  // ---------------------------------------------- what one operation leaves alone

  predicate Names(w: World, op: Op, id: PondId)
    requires id in w.db.ponds
  {
    match op
    case DoCreate(_, _, _, _, _) => false
    case DoSetTier(ref, _) => Matches(w.db, id, ref)
    case DoForget(_, row) => id == row
    case DoDrop(ref) => Matches(w.db, id, ref)
    case _ => false
  }

  /** No operation touches a pond it does not name; one that does can change its
      tier or take it away, and nothing else; and only a creation adds one. */
  lemma OnlyNamedPondsChange(w: World, op: Op)
    requires Inv(w) && Enabled(w, op)
    ensures var to := Apply(w, op);
      && (forall id | id in w.db.ponds && !Names(w, op, id) :: id in to.db.ponds && to.db.ponds[id] == w.db.ponds[id])
      && (forall id | id in w.db.ponds && id in to.db.ponds ::
            to.db.ponds[id] == w.db.ponds[id].(tier := to.db.ponds[id].tier))
      && (forall id | id in to.db.ponds && id !in w.db.ponds :: op.DoCreate? && op.id == id)
  {
    if op.DoDrop? {
      DropChangesOnlyNamed(w.db, op.ref);
    } else if op.DoSetTier? {
      SetTierChangesOnlyNamed(w.db, op.ref, op.tier);
    } else if op.DoCreate? {
      CreateChangesNone(w.db, op.name, op.owner, op.tier, op.id, op.pick);
    }
  }

  lemma CreateChangesNone(db: Db, name: Option<string>, owner: string, tier: string, id: PondId, pick: NodeId)
    ensures var to := CreatePond(db, name, owner, tier, id, pick).0;
      && (forall q | q in db.ponds :: q in to.ponds && to.ponds[q] == db.ponds[q])
      && (forall q | q in to.ponds && q !in db.ponds :: q == id)
  {
  }

  lemma DropChangesOnlyNamed(db: Db, ref: string)
    ensures var to := DropPond(db, ref).0;
      && (forall id | id in to.ponds :: id in db.ponds && to.ponds[id] == db.ponds[id])
      && (forall id | id in db.ponds && !Matches(db, id, ref) :: id in to.ponds)
  {
  }

  lemma SetTierChangesOnlyNamed(db: Db, ref: string, tier: string)
    ensures var to := SetPondTier(db, ref, tier).0;
      && to.ponds.Keys == db.ponds.Keys
      && (forall id | id in db.ponds && !Matches(db, id, ref) :: to.ponds[id] == db.ponds[id])
      && (forall id | id in db.ponds :: to.ponds[id] == db.ponds[id].(tier := to.ponds[id].tier))
  {
  }

  lemma TrimKeeps(s: string)
    requires s != "" && !IsWhitespace(s[0]) && !IsWhitespace(s[|s| - 1])
    ensures Trim(s) == s
  {
  }

  lemma LowerKeeps(s: string)
    requires forall i | 0 <= i < |s| :: !('A' <= s[i] <= 'Z')
    ensures Lower(s) == s
  {
  }

  /** A stored tier reads back as the tier it stands for. */
  lemma TierNamesReadBack(t: Tier)
    ensures ParseTier(TierName(t)) == Some(t)
  {
    TrimKeeps(TierName(t));
    LowerKeeps(TierName(t));
  }

  /** After `set_pond_tier` every pond it names is stored at the tier asked for,
      under its canonical name; asking for no tier at all changes nothing. */
  lemma TierIsSetAsAsked(db: Db, ref: string, tier: string)
    ensures var (to, r) := SetPondTier(db, ref, tier);
      if ParseTier(tier).Some? && Matching(db, ref) != {} then
        && r.Ok? && to.ponds.Keys == db.ponds.Keys
        && forall id | id in Matching(db, ref) :: ParseTier(to.ponds[id].tier) == ParseTier(tier)
      else r.Err? && to == db
  {
    if ParseTier(tier).Some? { TierNamesReadBack(ParseTier(tier).value); }
  }

  /** Both reads of a pond find its owner's address, as last registered by the node
      the pond was placed on: they fail only when no pond has the reference. */
  lemma OwnersAreFound(w: World, ref: string, row: PondId)
    requires Reachable(w) && CanReturn(w.db, ref, row)
    ensures Locatable(w.db, ref) == Matching(w.db, ref)
    ensures var r := PondInfo(w.db, ref, row);
      if Matching(w.db, ref) == {} then r == Err(PondNotFound)
      else row in w.placed && w.placed[row] in w.db.nodes
           && r == Ok((w.db.ponds[row], Some(w.db.nodes[w.placed[row]].internal)))
  {
    ReachableInv(w);
    LocatableIsMatching(w, ref);
    if row in Matching(w.db, ref) { assert RowOk(w, row, w.db.ponds[row]); }
  }

  lemma LocatableIsMatching(w: World, ref: string)
    requires Inv(w)
    ensures Locatable(w.db, ref) == Matching(w.db, ref)
  {
    forall id | id in Matching(w.db, ref) ensures id in Locatable(w.db, ref) { assert RowOk(w, id, w.db.ponds[id]); }
  }

  // --------------------------------------------------------- which nodes are active

  predicate Registers(op: Op, n: NodeId) {
    op.DoRegister? && op.node == n
  }

  /** A registration or a heartbeat of `n`. */
  predicate SignOfLife(op: Op, n: NodeId) {
    Registers(op, n) || (op.DoHeartbeat? && op.node == n)
  }

  function SignedAt(op: Op): int
    requires op.DoRegister? || op.DoHeartbeat?
  {
    op.now
  }

  predicate Condemns(op: Op, lastSign: int) {
    op.DoReap? && lastSign < op.now - op.ttl
  }

  /** `i` is the last operation of `ops` to satisfy `Registers`. */
  predicate LastRegistered(ops: seq<Op>, n: NodeId, i: int) {
    0 <= i < |ops| && Registers(ops[i], n) && forall k | i < k < |ops| :: !Registers(ops[k], n)
  }

  predicate LastSigned(ops: seq<Op>, n: NodeId, i: int) {
    0 <= i < |ops| && SignOfLife(ops[i], n) && forall k | i < k < |ops| :: !SignOfLife(ops[k], n)
  }

  /** What the table knows of `n` after `ops`, told from `ops` alone: `r` is its
      last registration and `i` its last sign of life. */
  predicate Tells(ops: seq<Op>, n: NodeId, node: Node, r: int, i: int)
    requires LastRegistered(ops, n, r) && LastSigned(ops, n, i)
  {
    && node.mcp == ops[r].mcp && node.internal == ops[r].internal && node.capacity == ops[r].capacity
    && node.lastHeartbeat == SignedAt(ops[i])
    && (node.active <==> forall k | i < k < |ops| :: !Condemns(ops[k], SignedAt(ops[i])))
  }

  ghost predicate Known(ops: seq<Op>, n: NodeId, node: Node) {
    exists r, i :: LastRegistered(ops, n, r) && LastSigned(ops, n, i) && Tells(ops, n, node, r, i)
  }

  /** The run `ops` from `w`, one more operation included. */
  lemma {:induction false} RunsInit(w: World, ops: seq<Op>, to: World) returns (mid: World)
    requires ops != [] && Runs(w, ops, to)
    ensures Runs(w, ops[..|ops| - 1], mid) && Enabled(mid, ops[|ops| - 1]) && to == Apply(mid, ops[|ops| - 1])
    decreases |ops|
  {
    if |ops| == 1 {
      mid := w;
      assert ops[..0] == [] && ops[1..] == [];
    } else {
      mid := RunsInit(Apply(w, ops[0]), ops[1..], to);
      var init := ops[..|ops| - 1];
      assert init[0] == ops[0] && init[1..] == ops[1..][..|ops| - 2];
    }
  }

  lemma KnownSnoc(init: seq<Op>, op: Op, n: NodeId, before: Node, after: Node)
    requires Known(init, n, before) && !SignOfLife(op, n)
    requires after == before.(active := before.active && !Condemns(op, before.lastHeartbeat))
    ensures Known(init + [op], n, after)
  {
    var r, i :| LastRegistered(init, n, r) && LastSigned(init, n, i) && Tells(init, n, before, r, i);
    var ops := init + [op];
    assert LastRegistered(ops, n, r) && LastSigned(ops, n, i);
    if before.active {
      forall k | i < k < |init| ensures !Condemns(ops[k], SignedAt(ops[i])) { assert !Condemns(init[k], SignedAt(init[i])); }
    } else {
      var k :| i < k < |init| && Condemns(init[k], SignedAt(init[i]));
      assert Condemns(ops[k], SignedAt(ops[i]));
    }
    assert ops[|init|] == op;
    assert Tells(ops, n, after, r, i);
  }

  lemma SignSnoc(init: seq<Op>, op: Op, n: NodeId, before: Node, after: Node)
    requires SignOfLife(op, n) && (Registers(op, n) || Known(init, n, before))
    requires after == if Registers(op, n) then Node(op.mcp, op.internal, op.capacity, true, op.now)
                      else before.(lastHeartbeat := op.now, active := true)
    ensures Known(init + [op], n, after)
  {
    var ops := init + [op];
    assert ops[|init|] == op && LastSigned(ops, n, |init|);
    if Registers(op, n) {
      assert LastRegistered(ops, n, |init|);
      assert Tells(ops, n, after, |init|, |init|);
    } else {
      var r, i :| LastRegistered(init, n, r) && LastSigned(init, n, i) && Tells(init, n, before, r, i);
      assert LastRegistered(ops, n, r);
      assert Tells(ops, n, after, r, |init|);
    }
  }

  lemma RegisteredSnoc(init: seq<Op>, op: Op, n: NodeId)
    ensures (exists r :: LastRegistered(init + [op], n, r)) <==> Registers(op, n) || exists r :: LastRegistered(init, n, r)
  {
    var ops := init + [op];
    assert ops[|init|] == op;
    if Registers(op, n) {
      assert LastRegistered(ops, n, |init|);
    } else {
      if r :| LastRegistered(init, n, r) { assert LastRegistered(ops, n, r); }
      if r :| LastRegistered(ops, n, r) {
        assert forall k | 0 <= k < |init| :: ops[k] == init[k];
        assert LastRegistered(init, n, r);
      }
    }
  }

  /** What one operation does to what the table knows of `n`. */
  lemma NodeAfter(w: World, op: Op, n: NodeId)
    requires Enabled(w, op)
    ensures var (nodes, nodes') := (w.db.nodes, Apply(w, op).db.nodes);
      && (n in nodes' <==> n in nodes || Registers(op, n))
      && (n in nodes' ==>
            if Registers(op, n) then nodes'[n] == Node(op.mcp, op.internal, op.capacity, true, op.now)
            else if SignOfLife(op, n) then nodes'[n] == nodes[n].(lastHeartbeat := op.now, active := true)
            else nodes'[n] == nodes[n].(active := nodes[n].active && !Condemns(op, nodes[n].lastHeartbeat)))
  {
  }

  /** A node is in the table exactly when it has registered, under the addresses it
      gave last; it is active exactly when no reaping since its last sign of life
      found that sign too old. */
  lemma {:induction false} NodesAreActiveWhileHeard(ops: seq<Op>, to: World, n: NodeId)
    requires Runs(EMPTY, ops, to)
    ensures n in to.db.nodes <==> exists r :: LastRegistered(ops, n, r)
    ensures n in to.db.nodes ==> Known(ops, n, to.db.nodes[n])
    decreases |ops|
  {
    if ops == [] {
    } else {
      var init, op := ops[..|ops| - 1], ops[|ops| - 1];
      var mid := RunsInit(EMPTY, ops, to);
      NodesAreActiveWhileHeard(init, mid, n);
      assert ops == init + [op];
      RegisteredSnoc(init, op, n);
      NodeAfter(mid, op, n);
      if n in to.db.nodes { KnownAfter(init, op, n, mid, to); }
    }
  }

  lemma KnownAfter(init: seq<Op>, op: Op, n: NodeId, mid: World, to: World)
    requires Enabled(mid, op) && to == Apply(mid, op) && n in to.db.nodes
    requires n in mid.db.nodes ==> Known(init, n, mid.db.nodes[n])
    ensures Known(init + [op], n, to.db.nodes[n])
  {
    NodeAfter(mid, op, n);
    var after := to.db.nodes[n];
    if SignOfLife(op, n) {
      SignSnoc(init, op, n, if n in mid.db.nodes then mid.db.nodes[n] else after, after);
    } else {
      KnownSnoc(init, op, n, mid.db.nodes[n], after);
    }
  }

  // ----------------------------------------------- where ponds come from and go

  lemma SlicesOfInit<T>(s: seq<T>, i: nat)
    requires i < |s|
    ensures s[..|s| - 1][..i] == s[..i]
  {
  }

  /** `ops[i]` placed `id` on `n`, active when it did. */
  ghost predicate PlacedBy(ops: seq<Op>, i: int, id: PondId, n: NodeId) {
    0 <= i < |ops| && ops[i].DoCreate? && ops[i].id == id && ops[i].pick == n
    && exists mid :: Runs(EMPTY, ops[..i], mid) && IsActive(mid.db, n)
  }

  /** Every pond was created, by an operation of the run, on the node it is still on,
      and that node was active at that moment. */
  lemma {:induction false} PondsWerePlacedOnActiveNodes(ops: seq<Op>, to: World, id: PondId)
    requires Runs(EMPTY, ops, to) && id in to.db.ponds
    ensures exists i :: PlacedBy(ops, i, id, to.db.ponds[id].node)
    decreases |ops|
  {
    assert ops != [];
    var init, last := ops[..|ops| - 1], |ops| - 1;
    var mid := RunsInit(EMPTY, ops, to);
    RunKeepsInv(EMPTY, init, mid);
    PlacedBefore(mid, ops[last], id);
    var n := to.db.ponds[id].node;
    if id in mid.db.ponds {
      PondsWerePlacedOnActiveNodes(init, mid, id);
      var i :| PlacedBy(init, i, id, n);
      SlicesOfInit(ops, i);
      assert PlacedBy(ops, i, id, n);
    } else {
      assert PlacedBy(ops, last, id, n);
    }
  }

  /** A pond in the table after an operation was there before, on the same node, or was
      placed by it. */
  lemma PlacedBefore(w: World, op: Op, id: PondId)
    requires Inv(w) && Enabled(w, op) && id in Apply(w, op).db.ponds
    ensures var n := Apply(w, op).db.ponds[id].node;
      if id in w.db.ponds then w.db.ponds[id].node == n
      else op.DoCreate? && op.id == id && op.pick == n && IsActive(w.db, n)
  {
    OnlyNamedPondsChange(w, op);
  }

  /** `op` takes `id` away: a drop by its id or name, or a forget that read this row
      when its owner was not both active and reachable. */
  predicate Takes(w: World, op: Op, id: PondId)
    requires id in w.db.ponds
  {
    || (op.DoDrop? && Matches(w.db, id, op.ref))
    || (op.DoForget? && op.row == id && Matches(w.db, id, op.ref) && !IsServed(w.db, w.db.ponds[id]))
  }

  ghost predicate TakenBy(w: World, ops: seq<Op>, i: int, id: PondId) {
    0 <= i < |ops| && exists mid :: Runs(w, ops[..i], mid) && id in mid.db.ponds && Takes(mid, ops[i], id)
  }

  lemma TakenNow(w: World, op: Op, id: PondId)
    requires Enabled(w, op) && id in w.db.ponds && id !in Apply(w, op).db.ponds
    ensures Takes(w, op, id)
  {
    if op.DoForget? { ForgetSparesServedPonds(w.db, op.ref, op.row); }
  }

  /** A pond that is gone was dropped by its id or name, or forgotten at a moment
      when its owner was not both active and reachable. */
  lemma {:induction false} PondsVanishOnlyAsAsked(w: World, ops: seq<Op>, to: World, id: PondId)
    requires Runs(w, ops, to) && id in w.db.ponds && id !in to.db.ponds
    ensures exists i :: TakenBy(w, ops, i, id)
    decreases |ops|
  {
    assert ops != [];
    var next := Apply(w, ops[0]);
    if id in next.db.ponds {
      PondsVanishOnlyAsAsked(next, ops[1..], to, id);
      var i :| TakenBy(next, ops[1..], i, id);
      var mid :| Runs(next, ops[1..][..i], mid) && id in mid.db.ponds && Takes(mid, ops[1..][i], id);
      assert ops[..i + 1][1..] == ops[1..][..i];
      assert Runs(w, ops[..i + 1], mid);
      assert TakenBy(w, ops, i + 1, id);
    } else {
      TakenNow(w, ops[0], id);
      assert ops[..0] == [] && Runs(w, ops[..0], w);
      assert TakenBy(w, ops, 0, id);
    }
  }

  // ------------------------------------------------------ what creation asks for

  /** The name asked for is 1 to 64 ASCII letters, digits, underscores or dashes. */
  predicate MayBeCalled(name: string) {
    1 <= |name| <= 64 && forall c | c in name ::
      'a' <= c <= 'z' || 'A' <= c <= 'Z' || '0' <= c <= '9' || c == '_' || c == '-'
  }

  lemma LegalMeans(name: string)
    ensures IsLegalName(name) <==> MayBeCalled(name)
  {
    forall i | 0 <= i < |name| ensures name[i] in name {}
  }

  /** The tiers there are, and how each may be spelled, whatever the case and the white
      space around it. */
  lemma TierSpellings(s: string)
    ensures var l := Lower(Trim(s));
      && (ParseTier(s) == Some(Uncapped) <==> l in {"none", "uncapped"})
      && (ParseTier(s) == Some(XSmall) <==> l in {"x-small", "xsmall"})
      && (ParseTier(s) == Some(Small) <==> l == "small")
      && (ParseTier(s) == Some(Medium) <==> l == "medium")
      && (ParseTier(s) == Some(Large) <==> l == "large")
      && (ParseTier(s) == Some(XLarge) <==> l in {"x-large", "xlarge"})
  {
  }

  /** The tier asked for at creation: medium if nothing is said. */
  predicate AsksFor(tier: string, t: Tier) {
    if Trim(tier) == "" then t == Medium else ParseTier(tier) == Some(t)
  }

  /** A creation succeeds exactly when it asks for a tier there is, but the uncapped one,
      and for a legal name or none, a node is active, and neither the name nor the id is
      taken; the row says what was asked. */
  lemma CreationSucceedsExactly(db: Db, name: Option<string>, owner: string, tier: string, id: PondId, pick: NodeId)
    requires CanPick(db, pick) && IsPondId(id)
    ensures var r := CreatePond(db, name, owner, tier, id, pick).1;
      var called := if name.Some? then name.value else id;
      && (r.Ok? <==> (exists t :: t != Uncapped && AsksFor(tier, t)) && (name.Some? ==> MayBeCalled(name.value))
                     && (exists n | n in db.nodes :: db.nodes[n].active)
                     && (forall p | p in db.ponds :: db.ponds[p].name != called) && id !in db.ponds)
      && (r.Ok? ==> r.value.name == called && r.value.owner == owner && r.value.node == pick
                    && exists t :: AsksFor(tier, t) && r.value.tier == TierName(t))
  {
    if name.Some? { LegalMeans(name.value); }
    var parsed := ParseTierForCreate(tier);
    assert forall t :: AsksFor(tier, t) <==> parsed == Some(t);
    assert IsActive(db, pick) <==> exists n | n in db.nodes :: db.nodes[n].active;
  }

  /** Why a creation is refused. */
  lemma RefusalsSayWhy(db: Db, name: Option<string>, owner: string, tier: string, id: PondId, pick: NodeId)
    requires CanPick(db, pick)
    ensures var (to, r) := CreatePond(db, name, owner, tier, id, pick);
      var asked := (exists t :: t != Uncapped && AsksFor(tier, t)) && (name.Some? ==> MayBeCalled(name.value));
      && (r.Err? ==> to == db)
      && (r == Err(Invalid) <==> !asked)
      && (r == Err(NoNodeAvailable) <==> asked && forall n | n in db.nodes :: !db.nodes[n].active)
      && (r == Err(NameConflict) ==> exists p | p in db.ponds :: db.ponds[p].name == if name.Some? then name.value else id)
  {
    if name.Some? { LegalMeans(name.value); }
    var parsed := ParseTierForCreate(tier);
    assert forall t :: AsksFor(tier, t) <==> parsed == Some(t);
    assert IsActive(db, pick) <==> exists n | n in db.nodes :: db.nodes[n].active;
  }

  /** A heartbeat is answered well exactly by a registry that has the node, told from
      the run; an unknown node is told so, and nothing changes. */
  lemma HeartbeatsAreAnswered(ops: seq<Op>, w: World, n: NodeId, now: int)
    requires Runs(EMPTY, ops, w)
    ensures var (to, r) := Heartbeat(w.db, n, now);
      if exists i :: LastRegistered(ops, n, i) then r == Ok(()) && IsActive(to, n) && to.nodes[n].lastHeartbeat == now
      else r == Err(NodeNotFound) && to == w.db
  {
    NodesAreActiveWhileHeard(ops, w, n);
  }

  /** A drop takes every pond with that id or that name, no other, and says whether
      there was one. */
  lemma DropsAreExact(db: Db, ref: string)
    ensures var (to, r) := DropPond(db, ref);
      && to.nodes == db.nodes
      && (forall id :: id in to.ponds <==> id in db.ponds && id != ref && db.ponds[id].name != ref)
      && (forall id | id in to.ponds :: to.ponds[id] == db.ponds[id])
      && r == if exists id | id in db.ponds :: id == ref || db.ponds[id].name == ref then Ok(()) else Err(PondNotFound)
  {
    if id :| id in db.ponds && (id == ref || db.ponds[id].name == ref) { assert id in Matching(db, ref); }
  }
}
