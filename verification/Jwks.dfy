/** Refreshing an issuer's signing keys: one fetch at a time, and not too often.
    Time is a clock that never goes back, in nanoseconds. */
module Jwks {
  import opened Options

  /** The largest `Duration`. */
  const DURATION_MAX: nat := 0xFFFF_FFFF_FFFF_FFFF * 1_000_000_000 + 999_999_999
  const U32_MAX: nat := 0xFFFF_FFFF

  /** The interval after a success, and the first wait after a failure. */
  datatype Config = Config(interval: nat, base: nat)

  predicate IsConfig(c: Config) {
    c.interval <= DURATION_MAX && c.base <= DURATION_MAX
  }

  datatype RefreshState = RefreshState(completedAt: Option<nat>, failures: nat)

  function Min(a: nat, b: nat): nat {
    if a < b then a else b
  }

  function Pow2(n: nat): nat {
    if n == 0 then 1 else 2 * Pow2(n - 1)
  }

  function SaturatingMul(a: nat, b: nat): nat {
    Min(a * b, DURATION_MAX)
  }

  /** `JwksCache::floor`. */
  function Floor(c: Config, failures: nat): nat {
    if failures == 0 then c.interval
    else Min(SaturatingMul(c.base, Pow2(Min(failures - 1, 16))), c.interval)
  }

  /** `JwksCache::too_soon`; `elapsed` saturates at zero. */
  predicate TooSoon(c: Config, s: RefreshState, now: nat) {
    s.completedAt.Some? && (if now < s.completedAt.value then 0 else now - s.completedAt.value) < Floor(c, s.failures)
  }

  /** What `refresh` records when the fetch is over. */
  function Recorded(s: RefreshState, now: nat, ok: bool): RefreshState {
    RefreshState(Some(now), if ok then 0 else Min(s.failures + 1, U32_MAX))
  }

  // ------------------------------------------------------------- the document

  type Kid = string

  /** A declared algorithm: one that names a signature, or any other. */
  datatype Algorithm = Signature(name: string) | NotSignature(name: string)

  /** One entry of the published set; `material` is absent when no key can be built. */
  datatype Jwk = Jwk(kid: Option<Kid>, forEncryption: bool, alg: Option<Algorithm>, material: Option<string>)

  datatype SigningKey = SigningKey(key: string, alg: Option<Algorithm>)

  predicate IsSigningKey(j: Jwk) {
    j.kid.Some? && !j.forEncryption && !(j.alg.Some? && j.alg.value.NotSignature?) && j.material.Some?
  }

  /** The keys of a document: the last usable entry of each name. */
  function Imported(document: seq<Jwk>): map<Kid, SigningKey> {
    if document == [] then map[]
    else
      var earlier, j := Imported(document[..|document| - 1]), document[|document| - 1];
      if IsSigningKey(j) then earlier[j.kid.value := SigningKey(j.material.value, j.alg)] else earlier
  }

  predicate Offers(document: seq<Jwk>, kid: Kid, i: int) {
    0 <= i < |document| && IsSigningKey(document[i]) && document[i].kid == Some(kid)
  }

  /** Entry `i` is the last to offer `kid`, and is what was imported under it. */
  predicate ImportedFrom(document: seq<Jwk>, kid: Kid, i: int)
    requires kid in Imported(document)
  {
    && Offers(document, kid, i) && (forall k | i < k < |document| :: !Offers(document, kid, k))
    && Imported(document)[kid] == SigningKey(document[i].material.value, document[i].alg)
  }

  /** A key is known exactly when the document publishes it for signing, and it is
      never freed of the algorithm it was published for. */
  lemma {:induction false} ImportsSigningKeysOnly(document: seq<Jwk>, kid: Kid)
    ensures kid in Imported(document) <==> exists i :: Offers(document, kid, i)
    ensures kid in Imported(document) ==> exists i :: ImportedFrom(document, kid, i)
  {
    if document == [] {
    } else {
      var last := |document| - 1;
      var init := document[..last];
      ImportsSigningKeysOnly(init, kid);
      assert forall i | 0 <= i < last :: Offers(init, kid, i) <==> Offers(document, kid, i);
      if Offers(document, kid, last) {
        assert ImportedFrom(document, kid, last);
      } else if kid in Imported(init) {
        var i :| ImportedFrom(init, kid, i);
        forall k | i < k < |document| ensures !Offers(document, kid, k) {
          if k < last { assert !Offers(init, kid, k); }
        }
        assert ImportedFrom(document, kid, i);
      } else {
        forall i ensures !Offers(document, kid, i) { assert !Offers(init, kid, i); }
      }
    }
  }

  // ---------------------------------------------------------------- the object

  datatype Answer = Found(key: SigningKey) | UnknownKid | IdpUnavailable

  class JwksCache {
    const config: Config
    var keys: map<Kid, SigningKey>
    var fetches: nat
    var refreshesCompleted: nat
    var state: RefreshState
    ghost var document: seq<Jwk>   // the last one read

    ghost predicate Valid()
      reads this
    {
      keys == Imported(document)
    }

    constructor (config: Config)
      ensures this.config == config && fetches == 0 && refreshesCompleted == 0
      ensures state == RefreshState(None, 0) && keys == map[] && Valid()
    {
      this.config := config;
      keys, document := map[], [];
      fetches, refreshesCompleted, state := 0, 0, RefreshState(None, 0);
    }

    /** `refresh_inner`: `response` is the document, absent when the fetch failed. */
    method RefreshInner(response: Option<seq<Jwk>>) returns (ok: bool)
      requires Valid()
      modifies this`fetches, this`keys, this`document
      ensures Valid() && fetches == old(fetches) + 1 && ok == response.Some?
      ensures document == if ok then response.value else old(document)
    {
      fetches := fetches + 1;
      if response.None? {
        return false;
      }
      var imported: map<Kid, SigningKey> := map[];
      for i := 0 to |response.value|
        invariant imported == Imported(response.value[..i])
      {
        var jwk := response.value[i];
        assert response.value[..i + 1][..i] == response.value[..i];
        if jwk.kid.None? || jwk.forEncryption {
          continue;
        }
        if jwk.alg.Some? && jwk.alg.value.NotSignature? {
          continue;
        }
        if jwk.material.Some? {
          imported := imported[jwk.kid.value := SigningKey(jwk.material.value, jwk.alg)];
        }
      }
      assert response.value[..|response.value|] == response.value;
      keys, document := imported, response.value;
      ok := true;
    }

    /** `refresh`, run to its end at `finish`. */
    method Refresh(finish: nat, response: Option<seq<Jwk>>)
      requires Valid()
      modifies this
      ensures Valid() && fetches == old(fetches) + 1 && refreshesCompleted == old(refreshesCompleted) + 1
      ensures state == Recorded(old(state), finish, response.Some?)
      ensures document == if response.Some? then response.value else old(document)
    {
      var ok := RefreshInner(response);
      var failures := if ok then 0 else Min(state.failures + 1, U32_MAX);
      state := RefreshState(Some(finish), failures);
      refreshesCompleted := refreshesCompleted + 1;
    }

    /** `refresh_once` after the guard is taken, for a caller whose snapshot is `generation`. */
    method RefreshGuarded(generation: nat, now: nat, finish: nat, response: Option<seq<Jwk>>) returns (fetched: bool)
      requires Valid()
      modifies this
      ensures fetched == (old(refreshesCompleted) == generation && !TooSoon(config, old(state), now))
      ensures Valid() && refreshesCompleted == old(refreshesCompleted) + if fetched then 1 else 0
      ensures fetches == old(fetches) + if fetched then 1 else 0
      ensures state == if fetched then Recorded(old(state), finish, response.Some?) else old(state)
      ensures document == if fetched && response.Some? then response.value else old(document)
    {
      if refreshesCompleted != generation || TooSoon(config, state, now) {
        return false;
      }
      Refresh(finish, response);
      return true;
    }

    /** `key_for`, for one caller at a time. A hit costs nothing. A miss fetches once
        if the floor allows it. An unknown kid is reported only when the last refresh
        succeeded, and its document has no such signing key; when it failed, the
        issuer is reported instead. */
    method KeyFor(kid: Kid, now: nat, finish: nat, response: Option<seq<Jwk>>) returns (r: Answer)
      requires Valid()
      modifies this
      ensures Valid()
      ensures fetches == old(fetches) + if kid in old(keys) || TooSoon(config, old(state), now) then 0 else 1
      ensures r.Found? <==> kid in keys
      ensures r.Found? ==> r.key == keys[kid] && exists i :: Offers(document, kid, i)
      ensures r.UnknownKid? ==> state.completedAt.Some? && state.failures == 0 && forall i :: !Offers(document, kid, i)
      ensures r.IdpUnavailable? ==> state.failures > 0
      ensures fetches == old(fetches) ==> keys == old(keys) && document == old(document) && state == old(state)
      ensures fetches > old(fetches) ==> state.completedAt == Some(finish)
      ensures fetches > old(fetches) && response.Some? ==>
        document == response.value && (r.Found? <==> exists i :: Offers(response.value, kid, i))
      ensures fetches > old(fetches) && response.Some? && r.Found? ==>
        && kid in Imported(response.value)
        && r.key == Imported(response.value)[kid] && exists i :: ImportedFrom(response.value, kid, i)
      ensures fetches > old(fetches) && response.None? ==> r.IdpUnavailable? && keys == old(keys) && document == old(document)
    {
      if kid !in keys {
        if !TooSoon(config, state, now) {
          var generation := refreshesCompleted;
          var _ := RefreshGuarded(generation, now, finish, response);
        }
      }
      ImportsSigningKeysOnly(document, kid);
      if kid in keys {
        r := Found(keys[kid]);
      } else if state.failures > 0 {
        r := IdpUnavailable;
      } else {
        r := UnknownKid;
      }
    }
  }

  // ------------------------------------------------------------------ floors

  lemma {:induction false} Pow2Grows(m: nat, n: nat)
    requires m <= n
    ensures 1 <= Pow2(m) <= Pow2(n)
  {
    if m < n { Pow2Grows(m, n - 1); } else if m > 0 { Pow2Grows(m - 1, n - 1); }
  }

  lemma MulGrows(a: nat, b: nat, c: nat)
    requires b <= c
    ensures a * b <= a * c
  {
  }

  /** The floor is the doubled base, capped by the interval: neither the saturating
      product nor the 32-bit shift ever bites. */
  lemma FloorFormula(c: Config, failures: nat)
    requires IsConfig(c) && failures > 0
    ensures Floor(c, failures) == Min(c.base * Pow2(Min(failures - 1, 16)), c.interval)
    ensures Pow2(Min(failures - 1, 16)) <= U32_MAX
  {
    Pow2Grows(Min(failures - 1, 16), 16);
    assert Pow2(4) == 16;
    assert Pow2(8) == 256;
    assert Pow2(12) == 4096;
    assert Pow2(16) == 65536;
  }

  /** A fetch is allowed exactly when none has completed, or the wait since then has
      passed: the interval after a success, the doubled base, capped, after failures. */
  lemma FetchesAreAllowedAfterTheFloor(c: Config, s: RefreshState, now: nat)
    requires IsConfig(c)
    ensures var wait := if s.failures == 0 then c.interval else Min(c.base * Pow2(Min(s.failures - 1, 16)), c.interval);
      TooSoon(c, s, now) <==> s.completedAt.Some? && wait > 0 && now < s.completedAt.value + wait
  {
    if s.failures > 0 { FloorFormula(c, s.failures); }
  }

  /** The floor never shrinks as failures add up, never exceeds the interval, and
      never falls below the smaller of base and interval. */
  lemma FloorIsMonotone(c: Config, m: nat, n: nat)
    requires IsConfig(c)
    ensures 0 < m <= n ==> Floor(c, m) <= Floor(c, n)
    ensures Min(c.base, c.interval) <= Floor(c, n) <= c.interval
  {
    if n > 0 {
      FloorFormula(c, n);
      Pow2Grows(0, Min(n - 1, 16));
      MulGrows(c.base, 1, Pow2(Min(n - 1, 16)));
    }
    if 0 < m <= n {
      FloorFormula(c, m);
      Pow2Grows(Min(m - 1, 16), Min(n - 1, 16));
      MulGrows(c.base, Pow2(Min(m - 1, 16)), Pow2(Min(n - 1, 16)));
    }
  }

  function SumOfFloors(c: Config, n: nat): nat {
    if n == 0 then 0 else SumOfFloors(c, n - 1) + Floor(c, n)
  }

  /** While under the interval, `n` failures cost `base * (2^n - 1)`. */
  lemma {:induction false} SumIsGeometric(c: Config, n: nat)
    requires IsConfig(c) && n <= 17 && (n > 0 ==> c.base * Pow2(n - 1) <= c.interval)
    ensures SumOfFloors(c, n) == c.base * (Pow2(n) - 1)
  {
    if n == 0 {
    } else {
      if n > 1 {
        Pow2Grows(n - 2, n - 1);
        MulGrows(c.base, Pow2(n - 2), Pow2(n - 1));
      }
      SumIsGeometric(c, n - 1);
      FloorFormula(c, n);
      Distribute(c.base, Pow2(n - 1));
    }
  }

  lemma Distribute(a: nat, p: nat)
    ensures a * (p - 1) + a * p == a * (2 * p - 1)
  {
  }

  // ------------------------------------------------------------ interleavings

  type CallerId = nat

  /** Where one `key_for` that missed stands. */
  datatype Caller =
    | Missed                                    // too_soon is checked next
    | Hurrying                                  // snapshot is taken next
    | Queued(gen: nat)                          // awaiting the guard
    | Guarded(gen: nat)                         // re-checks next
    | Cleared(gen: nat)                         // may fetch
    | Fetching(gen: nat, start: nat)
    | Stamped(gen: nat)                         // state recorded, counter not bumped
    | Releasing                                 // about to drop the guard
    | Returned
    | Abandoned                                 // its future was dropped

  datatype Fetch = Fetch(start: nat, end: nat, ok: bool)

  /** `history` records the completed fetches and `dropped` counts those whose
      caller was dropped in mid-fetch (proof records). */
  datatype World = World(now: nat, fetches: nat, completed: nat, state: RefreshState, holder: Option<CallerId>,
                         callers: map<CallerId, Caller>, history: seq<Fetch>, dropped: nat)

  const INITIAL := World(0, 0, 0, RefreshState(None, 0), None, map[], [], 0)

  datatype Step =
    | Tick(passed: nat)
    | Arrive(c: CallerId)
    | CheckFloor(c: CallerId)
    | Snapshot(c: CallerId)
    | Acquire(c: CallerId)
    | Recheck(c: CallerId)
    | StartFetch(c: CallerId)
    | Stamp(c: CallerId, ok: bool)
    | Bump(c: CallerId)
    | Release(c: CallerId)
    | Abandon(c: CallerId)

  predicate Enabled(w: World, s: Step, mayDrop: bool) {
    s.Tick? || (s.Arrive? && s.c !in w.callers) ||
    (!s.Tick? && s.c in w.callers &&
     var me := w.callers[s.c];
     match s
     case CheckFloor(_) => me.Missed?
     case Snapshot(_) => me.Hurrying?
     case Acquire(_) => me.Queued? && w.holder.None?
     case Recheck(_) => me.Guarded?
     case StartFetch(_) => me.Cleared?
     case Stamp(_, _) => me.Fetching?
     case Bump(_) => me.Stamped?
     case Release(_) => me.Releasing?
     case Abandon(_) => me.Missed? || me.Queued? || (me.Fetching? && mayDrop)  // the await points
     case _ => false)
  }

  function With(w: World, c: CallerId, caller: Caller): World {
    w.(callers := w.callers[c := caller])
  }

  function Apply(cfg: Config, w: World, s: Step, mayDrop: bool): World
    requires Enabled(w, s, mayDrop)
  {
    match s
    case Tick(passed) => w.(now := w.now + passed)
    case Arrive(c) => With(w, c, Missed)
    case CheckFloor(c) => With(w, c, if TooSoon(cfg, w.state, w.now) then Returned else Hurrying)
    case Snapshot(c) => With(w, c, Queued(w.completed))
    case Acquire(c) => With(w, c, Guarded(w.callers[c].gen)).(holder := Some(c))
    case Recheck(c) =>
      var gen := w.callers[c].gen;
      With(w, c, if w.completed != gen || TooSoon(cfg, w.state, w.now) then Releasing else Cleared(gen))
    case StartFetch(c) => With(w, c, Fetching(w.callers[c].gen, w.now)).(fetches := w.fetches + 1)
    case Stamp(c, ok) =>
      With(w, c, Stamped(w.callers[c].gen)).(state := Recorded(w.state, w.now, ok),
        history := w.history + [Fetch(w.callers[c].start, w.now, ok)])
    case Bump(c) => With(w, c, Releasing).(completed := w.completed + 1)
    case Release(c) => With(w, c, Returned).(holder := None)
    case Abandon(c) =>
      if w.callers[c].Fetching? then With(w, c, Abandoned).(holder := None, dropped := w.dropped + 1)
      else With(w, c, Abandoned)
  }

  ghost predicate Runs(cfg: Config, from: World, steps: seq<Step>, mayDrop: bool, to: World)
    decreases |steps|
  {
    if steps == [] then to == from
    else Enabled(from, steps[0], mayDrop)
         && Runs(cfg, Apply(cfg, from, steps[0], mayDrop), steps[1..], mayDrop, to)
  }

  ghost predicate Reachable(cfg: Config, w: World, mayDrop: bool) {
    exists steps :: Runs(cfg, INITIAL, steps, mayDrop, w)
  }

  // --------------------------------------------------------------- invariant

  predicate HasGuard(c: Caller) {
    c.Guarded? || c.Cleared? || c.Fetching? || c.Stamped? || c.Releasing?
  }

  function Trailing(h: seq<Fetch>): nat {
    if h == [] || h[|h| - 1].ok then 0 else 1 + Trailing(h[..|h| - 1])
  }

  /** The earliest instant the floor allows a fetch after `h`. */
  function Earliest(cfg: Config, h: seq<Fetch>): nat {
    if h == [] then 0 else h[|h| - 1].end + Floor(cfg, Trailing(h))
  }

  ghost predicate Spaced(cfg: Config, h: seq<Fetch>) {
    forall i | 0 <= i < |h| :: Earliest(cfg, h[..i]) <= h[i].start <= h[i].end
  }

  predicate CallerInv(cfg: Config, w: World, c: Caller) {
    match c
    case Queued(g) => g <= w.completed
    case Guarded(g) => g <= w.completed
    case Cleared(g) => g == w.completed && Earliest(cfg, w.history) <= w.now
    case Fetching(g, start) => g == w.completed && Earliest(cfg, w.history) <= start <= w.now
    case Stamped(g) => g == w.completed
    case _ => true
  }

  predicate InFlight(w: World) {
    w.holder.Some? && w.holder.value in w.callers && w.callers[w.holder.value].Fetching?
  }

  predicate StateInv(w: World) {
    && w.state.failures == Min(Trailing(w.history), U32_MAX)
    && w.state.completedAt == (if w.history == [] then None else Some(w.history[|w.history| - 1].end))
    && (w.history != [] ==> w.history[|w.history| - 1].end <= w.now)
  }

  ghost predicate Inv(cfg: Config, w: World) {
    && (forall c | c in w.callers :: CallerInv(cfg, w, w.callers[c]))
    && (forall c | c in w.callers :: HasGuard(w.callers[c]) <==> w.holder == Some(c))
    && (w.holder.Some? ==> w.holder.value in w.callers)
    && StateInv(w) && Spaced(cfg, w.history)
    && w.fetches == |w.history| + w.dropped + if InFlight(w) then 1 else 0
  }

  lemma SaturatedFloor(cfg: Config, n: nat)
    requires IsConfig(cfg)
    ensures Floor(cfg, Min(n, U32_MAX)) == Floor(cfg, n)
  {
  }

  lemma QueueStepKeepsInv(cfg: Config, w: World, s: Step, mayDrop: bool)
    requires IsConfig(cfg) && Inv(cfg, w) && Enabled(w, s, mayDrop)
    requires s.Tick? || s.Arrive? || s.CheckFloor? || s.Snapshot? || s.Acquire?
    ensures Inv(cfg, Apply(cfg, w, s, mayDrop))
  {
    var to := Apply(cfg, w, s, mayDrop);
    forall c | c in to.callers ensures CallerInv(cfg, to, to.callers[c]) {
      if c in w.callers { assert CallerInv(cfg, w, w.callers[c]); }
    }
  }

  lemma RecheckKeepsInv(cfg: Config, w: World, c: CallerId, mayDrop: bool)
    requires IsConfig(cfg) && Inv(cfg, w) && Enabled(w, Recheck(c), mayDrop)
    ensures Inv(cfg, Apply(cfg, w, Recheck(c), mayDrop))
  {
    assert CallerInv(cfg, w, w.callers[c]);
    SaturatedFloor(cfg, Trailing(w.history));
    var to := Apply(cfg, w, Recheck(c), mayDrop);
    forall d | d in to.callers ensures CallerInv(cfg, to, to.callers[d]) {
      assert CallerInv(cfg, w, w.callers[d]);
    }
  }

  lemma SpacedSnoc(cfg: Config, h: seq<Fetch>, f: Fetch)
    requires Spaced(cfg, h) && Earliest(cfg, h) <= f.start <= f.end
    ensures Spaced(cfg, h + [f])
    ensures Trailing(h + [f]) == if f.ok then 0 else Trailing(h) + 1
  {
    var x := h + [f];
    forall i | 0 <= i < |x| ensures Earliest(cfg, x[..i]) <= x[i].start <= x[i].end {
      if i < |h| { assert x[..i] == h[..i]; } else { assert x[..i] == h; }
    }
    assert x[..|x| - 1] == h;
  }

  /** Only the guard's holder fetches, stamps, bumps and releases. */
  lemma OthersAreQueued(cfg: Config, w: World, c: CallerId, to: World)
    requires Inv(cfg, w) && w.holder == Some(c)
    requires to.now == w.now && to.completed >= w.completed
    ensures forall d | d in w.callers && d != c :: CallerInv(cfg, to, w.callers[d])
  {
    forall d | d in w.callers && d != c ensures CallerInv(cfg, to, w.callers[d]) {
      assert CallerInv(cfg, w, w.callers[d]) && !HasGuard(w.callers[d]);
    }
  }

  /** A step of the holder that fits its own records fits everybody's. */
  lemma HolderMoves(cfg: Config, w: World, c: CallerId, me: Caller, to: World)
    requires Inv(cfg, w) && w.holder == Some(c)
    requires to.callers == w.callers[c := me] && to.holder == (if HasGuard(me) then Some(c) else None)
    requires CallerInv(cfg, to, me) && to.now == w.now && to.completed >= w.completed
    requires StateInv(to) && Spaced(cfg, to.history)
    requires to.fetches == |to.history| + to.dropped + if me.Fetching? then 1 else 0
    ensures Inv(cfg, to)
  {
    OthersAreQueued(cfg, w, c, to);
    assert forall d | d in to.callers && d != c :: !HasGuard(w.callers[d]);
  }

  lemma HolderFetches(cfg: Config, w: World, c: CallerId)
    requires Inv(cfg, w) && c in w.callers && HasGuard(w.callers[c])
    ensures w.holder == Some(c) && CallerInv(cfg, w, w.callers[c])
    ensures w.fetches == |w.history| + w.dropped + if w.callers[c].Fetching? then 1 else 0
  {
  }

  lemma StampKeepsInv(cfg: Config, w: World, c: CallerId, ok: bool, mayDrop: bool)
    requires IsConfig(cfg) && Inv(cfg, w) && Enabled(w, Stamp(c, ok), mayDrop)
    ensures Inv(cfg, Apply(cfg, w, Stamp(c, ok), mayDrop))
  {
    HolderFetches(cfg, w, c);
    SpacedSnoc(cfg, w.history, Fetch(w.callers[c].start, w.now, ok));
    HolderMoves(cfg, w, c, Stamped(w.callers[c].gen), Apply(cfg, w, Stamp(c, ok), mayDrop));
  }

  lemma HolderStepKeepsInv(cfg: Config, w: World, s: Step, mayDrop: bool)
    requires IsConfig(cfg) && Inv(cfg, w) && Enabled(w, s, mayDrop)
    requires s.StartFetch? || s.Bump? || s.Release?
    ensures Inv(cfg, Apply(cfg, w, s, mayDrop))
  {
    HolderFetches(cfg, w, s.c);
    var to := Apply(cfg, w, s, mayDrop);
    HolderMoves(cfg, w, s.c, to.callers[s.c], to);
  }

  lemma AbandonKeepsInv(cfg: Config, w: World, c: CallerId, mayDrop: bool)
    requires IsConfig(cfg) && Inv(cfg, w) && Enabled(w, Abandon(c), mayDrop)
    ensures Inv(cfg, Apply(cfg, w, Abandon(c), mayDrop))
  {
    assert CallerInv(cfg, w, w.callers[c]);
    var to := Apply(cfg, w, Abandon(c), mayDrop);
    forall d | d in to.callers && d != c ensures CallerInv(cfg, to, to.callers[d]) {
      assert CallerInv(cfg, w, w.callers[d]);
    }
  }

  lemma StepKeepsInv(cfg: Config, w: World, s: Step, mayDrop: bool)
    requires IsConfig(cfg) && Inv(cfg, w) && Enabled(w, s, mayDrop)
    ensures Inv(cfg, Apply(cfg, w, s, mayDrop))
  {
    match s {
      case Recheck(c) => RecheckKeepsInv(cfg, w, c, mayDrop);
      case Stamp(c, ok) => StampKeepsInv(cfg, w, c, ok, mayDrop);
      case StartFetch(_) => HolderStepKeepsInv(cfg, w, s, mayDrop);
      case Bump(_) => HolderStepKeepsInv(cfg, w, s, mayDrop);
      case Release(_) => HolderStepKeepsInv(cfg, w, s, mayDrop);
      case Abandon(c) => AbandonKeepsInv(cfg, w, c, mayDrop);
      case _ => QueueStepKeepsInv(cfg, w, s, mayDrop);
    }
  }

  lemma {:induction false} RunKeepsInv(cfg: Config, w: World, steps: seq<Step>, mayDrop: bool, to: World)
    requires IsConfig(cfg) && Inv(cfg, w) && Runs(cfg, w, steps, mayDrop, to)
    ensures Inv(cfg, to)
    ensures !mayDrop ==> to.dropped == w.dropped
    decreases |steps|
  {
    if steps == [] {
    } else {
      StepKeepsInv(cfg, w, steps[0], mayDrop);
      RunKeepsInv(cfg, Apply(cfg, w, steps[0], mayDrop), steps[1..], mayDrop, to);
    }
  }

  lemma ReachableInv(cfg: Config, w: World, mayDrop: bool)
    requires IsConfig(cfg) && Reachable(cfg, w, mayDrop)
    ensures Inv(cfg, w) && (!mayDrop ==> w.dropped == 0)
  {
    var steps :| Runs(cfg, INITIAL, steps, mayDrop, w);
    RunKeepsInv(cfg, INITIAL, steps, mayDrop, w);
  }

  // ----------------------------------------------------------- single flight

  /** In every interleaving, dropped futures included, at most one fetch is in
      flight, and no refresh has completed since its caller's snapshot. */
  lemma SingleFlight(cfg: Config, w: World)
    requires IsConfig(cfg) && Reachable(cfg, w, true)
    ensures forall c, d | c in w.callers && d in w.callers && w.callers[c].Fetching? && w.callers[d].Fetching? :: c == d
    ensures forall c | c in w.callers && w.callers[c].Fetching? :: w.callers[c].gen == w.completed
  {
    ReachableInv(cfg, w, true);
    forall c | c in w.callers && w.callers[c].Fetching? ensures w.holder == Some(c) && w.callers[c].gen == w.completed {
      assert HasGuard(w.callers[c]) && CallerInv(cfg, w, w.callers[c]);
    }
  }

  /** `c` waits with a snapshot from before a refresh that has completed, or is done. */
  predicate Rides(w: World, c: CallerId) {
    c in w.callers &&
    match w.callers[c]
    case Queued(g) => g < w.completed
    case Guarded(g) => g < w.completed
    case Releasing => true
    case Returned => true
    case Abandoned => true
    case _ => false
  }

  /** A caller queued behind a fetch that completed never fetches, whatever the
      floor and however the run goes on. */
  lemma {:induction false} WaitersRide(cfg: Config, w: World, steps: seq<Step>, to: World, c: CallerId)
    requires Runs(cfg, w, steps, true, to) && Rides(w, c)
    ensures Rides(to, c) && StartFetch(c) !in steps
    decreases |steps|
  {
    if steps == [] {
    } else {
      var s := steps[0];
      assert Rides(Apply(cfg, w, s, true), c) && s != StartFetch(c);
      WaitersRide(cfg, Apply(cfg, w, s, true), steps[1..], to, c);
      assert steps == [s] + steps[1..];
    }
  }

  // ------------------------------------------------------------------ spacing

  /** When the fetches that completed, and the one in flight, started. */
  function Starts(w: World): seq<nat> {
    seq(|w.history|, i requires 0 <= i < |w.history| => w.history[i].start)
    + if InFlight(w) then [w.callers[w.holder.value].start] else []
  }

  /** Each start keeps the floor after the fetch before it. */
  ghost predicate Kept(cfg: Config, h: seq<Fetch>, starts: seq<nat>) {
    |h| <= |starts| <= |h| + 1 && forall i | 0 <= i < |starts| ::
      (i > 0 ==> starts[i] >= h[i - 1].end + Floor(cfg, Trailing(h[..i])))
      && (i < |h| ==> starts[i] <= h[i].end)
  }

  lemma StartIsKept(cfg: Config, w: World, i: nat)
    requires Inv(cfg, w) && i < |Starts(w)|
    ensures i <= |w.history| && Earliest(cfg, w.history[..i]) <= Starts(w)[i]
    ensures Starts(w)[i] <= if i < |w.history| then w.history[i].end else w.now
  {
    if i < |w.history| {
      assert Starts(w)[i] == w.history[i].start;
    } else {
      assert w.history[..i] == w.history;
      assert CallerInv(cfg, w, w.callers[w.holder.value]);
    }
  }

  lemma EarliestIs(cfg: Config, h: seq<Fetch>, i: nat)
    requires 0 < i <= |h|
    ensures Earliest(cfg, h[..i]) == h[i - 1].end + Floor(cfg, Trailing(h[..i]))
  {
  }

  lemma StartsSize(cfg: Config, w: World)
    requires Inv(cfg, w)
    ensures |w.history| <= |Starts(w)| <= |w.history| + 1 && |Starts(w)| + w.dropped == w.fetches
  {
  }

  lemma LastStartIsPast(cfg: Config, w: World)
    requires Inv(cfg, w) && |Starts(w)| > 0
    ensures Starts(w)[|Starts(w)| - 1] <= w.now
  {
    StartsSize(cfg, w);
    StartIsKept(cfg, w, |Starts(w)| - 1);
  }

  lemma StartsAreKept(cfg: Config, w: World)
    requires Inv(cfg, w)
    ensures Kept(cfg, w.history, Starts(w))
  {
    var h, starts := w.history, Starts(w);
    StartsSize(cfg, w);
    forall i | 0 <= i < |starts|
      ensures i > 0 ==> starts[i] >= h[i - 1].end + Floor(cfg, Trailing(h[..i]))
      ensures i < |h| ==> starts[i] <= h[i].end
    {
      StartIsKept(cfg, w, i);
      if i > 0 { EarliestIs(cfg, h, i); }
    }
  }

  /** Every fetch that was not dropped is counted, and starts at least the floor of
      the failures before it after the previous one completed. */
  lemma FetchesAreSpaced(cfg: Config, w: World, i: nat)
    requires IsConfig(cfg) && Reachable(cfg, w, true) && i < |Starts(w)|
    ensures |Starts(w)| + w.dropped == w.fetches && i <= |w.history|
    ensures i > 0 ==> Starts(w)[i] >= w.history[i - 1].end + Floor(cfg, Trailing(w.history[..i]))
  {
    ReachableInv(cfg, w, true);
    StartsSize(cfg, w);
    StartsAreKept(cfg, w);
  }

  lemma {:induction false} TrailingAfter(h: seq<Fetch>, k: nat, n: nat)
    requires k + n <= |h| && forall i | k <= i < k + n :: !h[i].ok
    requires k == 0 || h[k - 1].ok
    ensures Trailing(h[..k + n]) == n
  {
    var x := h[..k + n];
    if n > 0 {
      TrailingAfter(h, k, n - 1);
      assert x[..|x| - 1] == h[..k + n - 1] && x[|x| - 1] == h[k + n - 1];
    } else if k > 0 {
      assert x[|x| - 1] == h[k - 1];
    }
  }

  /** The failure streak at `k` keeps the fetch `n` later away by its floors. */
  lemma {:induction false} StreakBacksOff(cfg: Config, h: seq<Fetch>, starts: seq<nat>, k: nat, n: nat)
    requires Kept(cfg, h, starts) && k + n < |starts| && n > 0 && k + n <= |h|
    requires forall i | k <= i < k + n :: !h[i].ok
    requires k == 0 || h[k - 1].ok
    ensures starts[k + n] >= h[k].end + SumOfFloors(cfg, n)
  {
    TrailingAfter(h, k, n);
    assert starts[k + n] >= h[k + n - 1].end + Floor(cfg, n);
    if n == 1 {
      assert SumOfFloors(cfg, 1) == SumOfFloors(cfg, 0) + Floor(cfg, 1);
    } else {
      StreakBacksOff(cfg, h, starts, k, n - 1);
    }
  }

  /** `n` failures in a row, the first of them at `k` after a success or at the
      start, keep the next fetch away for at least the sum of their floors. */
  lemma FailuresBackOff(cfg: Config, w: World, k: nat, n: nat)
    requires IsConfig(cfg) && Reachable(cfg, w, true) && k + n < |Starts(w)| && n > 0
    requires forall i | k <= i < k + n :: !w.history[i].ok
    requires k == 0 || w.history[k - 1].ok
    ensures Starts(w)[k + n] >= w.history[k].end + SumOfFloors(cfg, n)
  {
    ReachableInv(cfg, w, true);
    StartsAreKept(cfg, w);
    StreakBacksOff(cfg, w.history, Starts(w), k, n);
  }

  /** Any two starts are at least as far apart as the fetches between them times
      the smallest floor. */
  lemma {:induction false} StartsAreFarApart(cfg: Config, h: seq<Fetch>, starts: seq<nat>, i: nat, j: nat)
    requires IsConfig(cfg) && Kept(cfg, h, starts) && i <= j < |starts|
    ensures starts[j] >= starts[i] + (j - i) * Min(cfg.base, cfg.interval)
  {
    var m := Min(cfg.base, cfg.interval);
    if i < j {
      StartsAreFarApart(cfg, h, starts, i, j - 1);
      FloorIsMonotone(cfg, 0, Trailing(h[..j]));
      Split(j - 1 - i, m);
    } else {
      assert (j - i) * m == 0;
    }
  }

  lemma Split(n: nat, m: nat)
    ensures (n + 1) * m == n * m + m
  {
  }

  /** The number of fetches in a window that were not dropped is linear in its length. */
  lemma FetchesInWindow(cfg: Config, w: World, i: nat, j: nat, from: nat, to: nat)
    requires IsConfig(cfg) && Reachable(cfg, w, true) && i <= j < |Starts(w)|
    requires from <= Starts(w)[i] && Starts(w)[j] <= to
    ensures (j - i) * Min(cfg.base, cfg.interval) <= to - from
  {
    ReachableInv(cfg, w, true);
    StartsAreKept(cfg, w);
    StartsAreFarApart(cfg, w.history, Starts(w), i, j);
  }

  // ---------------------------------------------------- what a drop can undo

  /** All fetches issued so far respect the linear bound. */
  predicate RateBounded(cfg: Config, w: World) {
    w.fetches > 0 ==> (w.fetches - 1) * Min(cfg.base, cfg.interval) <= w.now
  }

  lemma {:induction false} RunsSnoc(cfg: Config, a: World, steps: seq<Step>, b: World, s: Step)
    requires Runs(cfg, a, steps, true, b) && Enabled(b, s, true)
    ensures Runs(cfg, a, steps + [s], true, Apply(cfg, b, s, true))
    decreases |steps|
  {
    if steps == [] {
      assert [s][1..] == [];
      assert steps + [s] == [s];
    } else {
      assert (steps + [s])[1..] == steps[1..] + [s];
      RunsSnoc(cfg, Apply(cfg, a, steps[0], true), steps[1..], b, s);
    }
  }

  /** One step more. */
  lemma RunsOn(cfg: Config, a: World, s: Step) returns (b: World)
    requires Reachable(cfg, a, true) && Enabled(a, s, true)
    ensures b == Apply(cfg, a, s, true) && Reachable(cfg, b, true)
  {
    b := Apply(cfg, a, s, true);
    var steps :| Runs(cfg, INITIAL, steps, true, a);
    RunsSnoc(cfg, INITIAL, steps, a, s);
  }

  /** A caller dropped in mid-fetch releases the guard and stamps nothing. */
  lemma DroppedFetchIsRepeated(cfg: Config) returns (w: World)
    ensures Reachable(cfg, w, true) && w.fetches == 2 && w.now == 0
  {
    assert Runs(cfg, INITIAL, [], true, INITIAL);
    var a := Fetches(cfg, INITIAL, 0);
    var b := RunsOn(cfg, a, Abandon(0));
    w := Fetches(cfg, b, 1);
  }

  /** A newcomer is next for the guard when nobody has it and nothing was ever stamped. */
  lemma ToTheGuard(cfg: Config, w: World, c: CallerId) returns (to: World)
    requires Reachable(cfg, w, true) && c !in w.callers && w.holder.None? && w.state.completedAt.None?
    ensures Reachable(cfg, to, true) && to == w.(callers := w.callers[c := Queued(w.completed)])
  {
    var w1 := RunsOn(cfg, w, Arrive(c));
    var w2 := RunsOn(cfg, w1, CheckFloor(c));
    to := RunsOn(cfg, w2, Snapshot(c));
    assert to.callers == w.callers[c := Queued(w.completed)];
  }

  lemma ThroughTheGuard(cfg: Config, w: World, c: CallerId) returns (to: World)
    requires Reachable(cfg, w, true) && c in w.callers && w.callers[c] == Queued(w.completed)
    requires w.holder.None? && w.state.completedAt.None?
    ensures Reachable(cfg, to, true)
    ensures to == w.(callers := w.callers[c := Fetching(w.completed, w.now)], holder := Some(c), fetches := w.fetches + 1)
  {
    var w1 := RunsOn(cfg, w, Acquire(c));
    var w2 := RunsOn(cfg, w1, Recheck(c));
    to := RunsOn(cfg, w2, StartFetch(c));
    assert to.callers == w.callers[c := Fetching(w.completed, w.now)];
  }

  lemma Fetches(cfg: Config, w: World, c: CallerId) returns (to: World)
    requires Reachable(cfg, w, true) && c !in w.callers && w.holder.None? && w.state.completedAt.None?
    ensures Reachable(cfg, to, true)
    ensures to == w.(callers := w.callers[c := Fetching(w.completed, w.now)], holder := Some(c), fetches := w.fetches + 1)
  {
    var queued := ToTheGuard(cfg, w, c);
    to := ThroughTheGuard(cfg, queued, c);
    assert to.callers == w.callers[c := Fetching(w.completed, w.now)];
  }

  lemma RateIsBounded(cfg: Config, w: World)
    requires IsConfig(cfg) && Reachable(cfg, w, false)
    ensures RateBounded(cfg, w)
  {
    ReachableInv(cfg, w, false);
    StartsSize(cfg, w);
    if w.fetches > 0 {
      StartsAreKept(cfg, w);
      StartsAreFarApart(cfg, w.history, Starts(w), 0, |Starts(w)| - 1);
      LastStartIsPast(cfg, w);
    }
  }

  /** The bound covers every fetch issued exactly when no caller is dropped in mid-fetch. */
  lemma RateIsBoundedExactlyWithoutDrops(cfg: Config, mayDrop: bool)
    requires IsConfig(cfg) && Min(cfg.base, cfg.interval) > 0
    ensures (forall w | Reachable(cfg, w, mayDrop) :: RateBounded(cfg, w)) <==> !mayDrop
  {
    if mayDrop {
      var w := DroppedFetchIsRepeated(cfg);
      assert !RateBounded(cfg, w);
    } else {
      forall w | Reachable(cfg, w, mayDrop) ensures RateBounded(cfg, w) { RateIsBounded(cfg, w); }
    }
  }

  // ------------------------------------------------------------- when it is due

  /** Told from what has been fetched: a miss is due when nothing was, or when the wait
      after the last completion is over. */
  predicate IsDue(cfg: Config, w: World) {
    w.history == [] || w.now >= Earliest(cfg, w.history)
  }

  lemma DueIsNotTooSoon(cfg: Config, w: World)
    requires IsConfig(cfg) && Inv(cfg, w)
    ensures TooSoon(cfg, w.state, w.now) <==> !IsDue(cfg, w)
  {
    SaturatedFloor(cfg, Trailing(w.history));
  }

  /** A miss that is due is fetched, if nobody has the guard; one that is not due returns
      without asking. */
  lemma DueMissesAreFetched(cfg: Config, w: World, c: CallerId) returns (to: World)
    requires IsConfig(cfg) && Reachable(cfg, w, true) && c !in w.callers && w.holder.None?
    ensures Reachable(cfg, to, true) && c in to.callers
    ensures if IsDue(cfg, w) then to.callers[c].Fetching? && to.fetches == w.fetches + 1
            else to.callers[c] == Returned && to.fetches == w.fetches
  {
    ReachableInv(cfg, w, true);
    DueIsNotTooSoon(cfg, w);
    var w1 := RunsOn(cfg, w, Arrive(c));
    var w2 := RunsOn(cfg, w1, CheckFloor(c));
    to := w2;
    if IsDue(cfg, w) {
      var w3 := RunsOn(cfg, w2, Snapshot(c));
      var w4 := RunsOn(cfg, w3, Acquire(c));
      var w5 := RunsOn(cfg, w4, Recheck(c));
      to := RunsOn(cfg, w5, StartFetch(c));
    }
  }
}
