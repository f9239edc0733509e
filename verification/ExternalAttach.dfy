/** Mounting an external catalog for one pull, and taking it down again. A
    session's attachments and secrets are what a pull could leave behind. */
module ExternalAttach {
  import opened Chars

  datatype Statement =
    | DisableAutoinstall
    | Load(extension: string)
    | CreateSecret(name: string)
    | Attach(alias: string)
    | Query
    | Detach(alias: string)
    | DropSecretIfExists(name: string)

  /** One statement executed: whether it succeeded, and what was attached and which
      secrets there were when it began. */
  datatype Executed = Executed(x: Statement, ok: bool, attached: set<string>, secrets: set<string>)

  /** `log` holds every statement executed (a proof record, but that it numbers them). */
  datatype Session = Session(attached: set<string>, secrets: set<string>, log: seq<Executed>)

  /** Which statement fails, counted from the start of the session: a network, a
      missing extension, a bad address, the caller's own SQL. */
  type Faults = nat -> bool

  datatype Plan = Plan(alias: string, load: seq<string>, secrets: seq<string>)

  datatype PlanError = MissingParameter | UnsupportedParameter

  datatype Planned = Ready(plan: Plan) | Refused(error: PlanError)

  /** A parameter that was given, and not as the empty text. */
  predicate Given(params: map<string, string>, key: string) {
    key in params && params[key] != ""
  }

  function SecretName(alias: string, suffix: string): string {
    "_latiq_" + alias + suffix
  }

  /** The name `s3_secret_line` makes, when both keys are given. */
  function S3Secret(alias: string, params: map<string, string>): seq<string> {
    if Given(params, "s3_access_key") && Given(params, "s3_secret_key") then [SecretName(alias, "_s3")] else []
  }

  /** `attachers::plan`; `load` is the catalog type's list of extensions. */
  function BuildPlan(kind: string, alias: string, params: map<string, string>, load: seq<string>): Planned {
    if kind == "iceberg" then
      if !Given(params, "endpoint") then Refused(MissingParameter)
      else
        var token := if Given(params, "token") then [SecretName(alias, "_iceberg")] else [];
        Ready(Plan(alias, load, token + S3Secret(alias, params)))
    else if kind == "ducklake" then
      if !Given(params, "metadata_path") || !Given(params, "data_path") then Refused(MissingParameter)
      else Ready(Plan(alias, load, S3Secret(alias, params)))
    else Refused(UnsupportedParameter)
  }

  /** `CREATE OR REPLACE SECRET` takes any name, `ATTACH` only a new one; `DETACH` and
      `DROP SECRET` do not fail on what is there. */
  predicate Succeeds(s: Session, x: Statement, faults: Faults) {
    match x
    case Attach(a) => !faults(|s.log|) && a !in s.attached
    case Detach(a) => a in s.attached
    case DropSecretIfExists(_) => true
    case _ => !faults(|s.log|)
  }

  function Effect(s: Session, x: Statement): Session {
    match x
    case CreateSecret(n) => s.(secrets := s.secrets + {n})
    case Attach(a) => s.(attached := s.attached + {a})
    case Detach(a) => s.(attached := s.attached - {a})
    case DropSecretIfExists(n) => s.(secrets := s.secrets - {n})
    case _ => s
  }

  /** One statement. */
  function Execute(s: Session, x: Statement, faults: Faults): (Session, bool) {
    var ok := Succeeds(s, x, faults);
    ((if ok then Effect(s, x) else s).(log := s.log + [Executed(x, ok, s.attached, s.secrets)]), ok)
  }

  /** In order, up to the first failure. */
  function ExecuteUntil(s: Session, xs: seq<Statement>, faults: Faults): (Session, bool)
    decreases |xs|
  {
    if xs == [] then (s, true)
    else
      var (next, ok) := Execute(s, xs[0], faults);
      if ok then ExecuteUntil(next, xs[1..], faults) else (next, false)
  }

  /** In order, failures ignored. */
  function ExecuteAll(s: Session, xs: seq<Statement>, faults: Faults): Session
    decreases |xs|
  {
    if xs == [] then s else ExecuteAll(Execute(s, xs[0], faults).0, xs[1..], faults)
  }

  function Loads(extensions: seq<string>): seq<Statement> {
    seq(|extensions|, i requires 0 <= i < |extensions| => Load(extensions[i]))
  }

  function Creates(names: seq<string>): seq<Statement> {
    seq(|names|, i requires 0 <= i < |names| => CreateSecret(names[i]))
  }

  function Drops(names: seq<string>): seq<Statement> {
    seq(|names|, i requires 0 <= i < |names| => DropSecretIfExists(names[i]))
  }

  /** What `attach_catalog_inner` executes. */
  function Setup(p: Plan): seq<Statement> {
    [DisableAutoinstall] + Loads(p.load) + Creates(p.secrets) + [Attach(p.alias)]
  }

  /** `AttachPlan::teardown`. */
  function Teardown(p: Plan): seq<Statement> {
    [Detach(p.alias)] + Drops(p.secrets)
  }

  /** `pull_catalog` and `describe_catalog` once the plan is built: set up, ask,
      and take down in every case. */
  function Pull(s: Session, p: Plan, faults: Faults): (Session, bool) {
    var (up, attached) := ExecuteUntil(s, Setup(p), faults);
    if !attached then (ExecuteAll(up, Teardown(p), faults), false)
    else
      var (asked, ok) := Execute(up, Query, faults);
      (ExecuteAll(asked, Teardown(p), faults), ok)
  }

  // ---------------------------------------------------------- the connection

  class Connection {
    var attached: set<string>
    var secrets: set<string>
    var log: seq<Executed>
    const faults: Faults

    constructor (faults: Faults)
      ensures View() == Session({}, {}, []) && this.faults == faults
    {
      this.faults := faults;
      attached, secrets, log := {}, {}, [];
    }

    function View(): Session
      reads this
    {
      Session(attached, secrets, log)
    }

    method ExecuteBatch(x: Statement) returns (ok: bool)
      modifies this
      ensures (View(), ok) == Execute(old(View()), x, faults)
    {
      var (s, done) := Execute(View(), x, faults);
      attached, secrets, log := s.attached, s.secrets, s.log;
      ok := done;
    }

    /** The steps of `attach_catalog_inner` from `from` on, for loops below. */
    method ExecuteFailing(xs: seq<Statement>) returns (ok: bool)
      modifies this
      ensures (View(), ok) == ExecuteUntil(old(View()), xs, faults)
    {
      var i := 0;
      ok := true;
      while i < |xs|
        invariant 0 <= i <= |xs| && ok
        invariant ExecuteUntil(View(), xs[i..], faults) == ExecuteUntil(old(View()), xs, faults)
      {
        assert xs[i..][0] == xs[i] && xs[i..][1..] == xs[i + 1..];
        ok := ExecuteBatch(xs[i]);
        if !ok { return; }
        i := i + 1;
      }
    }

    method AttachCatalogInner(p: Plan) returns (ok: bool)
      modifies this
      ensures (View(), ok) == ExecuteUntil(old(View()), Setup(p), faults)
    {
      ghost var loads, creates := Loads(p.load), Creates(p.secrets);
      SetupInParts(View(), p, faults);
      ok := ExecuteBatch(DisableAutoinstall);
      if !ok { return; }
      ok := ExecuteFailing(Loads(p.load));
      if !ok { return; }
      ok := ExecuteFailing(Creates(p.secrets));
      if !ok { return; }
      ok := ExecuteBatch(Attach(p.alias));
    }

    method TeardownCatalog(p: Plan)
      modifies this
      ensures View() == ExecuteAll(old(View()), Teardown(p), faults)
    {
      var xs := Teardown(p);
      for i := 0 to |xs|
        invariant ExecuteAll(View(), xs[i..], faults) == ExecuteAll(old(View()), xs, faults)
      {
        assert xs[i..][0] == xs[i] && xs[i..][1..] == xs[i + 1..];
        var _ := ExecuteBatch(xs[i]);
      }
    }

    method AttachCatalog(p: Plan) returns (ok: bool)
      modifies this
      ensures var (up, attached) := ExecuteUntil(old(View()), Setup(p), faults);
        ok == attached && View() == if attached then up else ExecuteAll(up, Teardown(p), faults)
    {
      ok := AttachCatalogInner(p);
      if !ok {
        TeardownCatalog(p);
      }
    }

    method PullCatalog(kind: string, alias: string, params: map<string, string>, load: seq<string>) returns (ok: bool)
      modifies this
      ensures var planned := BuildPlan(kind, alias, params, load);
        if planned.Refused? then !ok && View() == old(View())
        else (View(), ok) == Pull(old(View()), planned.plan, faults)
      ensures var planned := BuildPlan(kind, alias, params, load);
        planned.Ready? ==> old(log) <= log && (ok <==> QuerySucceeded(log[|old(log)|..], planned.plan))
    {
      ghost var before := View();
      var planned := BuildPlan(kind, alias, params, load);
      if planned.Refused? {
        return false;
      }
      var p := planned.plan;
      PullAnswersForTheQuery(before, p, faults);
      ok := AttachCatalog(p);
      if !ok { return; }
      ok := ExecuteBatch(Query);
      TeardownCatalog(p);
    }
  }

  lemma {:induction false} UntilAppend(s: Session, a: seq<Statement>, b: seq<Statement>, faults: Faults)
    ensures var (mid, ok) := ExecuteUntil(s, a, faults);
      ExecuteUntil(s, a + b, faults) == if ok then ExecuteUntil(mid, b, faults) else (mid, false)
    decreases |a|
  {
    if a == [] {
      assert a + b == b;
    } else {
      assert (a + b)[1..] == a[1..] + b;
      UntilAppend(Execute(s, a[0], faults).0, a[1..], b, faults);
    }
  }

  lemma SetupInParts(s: Session, p: Plan, faults: Faults)
    ensures ExecuteUntil(s, Setup(p), faults) ==
      var (s1, ok1) := Execute(s, DisableAutoinstall, faults);
      if !ok1 then (s1, false) else
      var (s2, ok2) := ExecuteUntil(s1, Loads(p.load), faults);
      if !ok2 then (s2, false) else
      var (s3, ok3) := ExecuteUntil(s2, Creates(p.secrets), faults);
      if !ok3 then (s3, false) else Execute(s3, Attach(p.alias), faults)
  {
    var start, last := [DisableAutoinstall], [Attach(p.alias)];
    UntilOne(s, DisableAutoinstall, faults);
    UntilAppend(s, start, Loads(p.load), faults);
    UntilAppend(s, start + Loads(p.load), Creates(p.secrets), faults);
    UntilAppend(s, start + Loads(p.load) + Creates(p.secrets), last, faults);
    var at := ExecuteUntil(s, start + Loads(p.load) + Creates(p.secrets), faults).0;
    UntilOne(at, Attach(p.alias), faults);
  }

  lemma UntilOne(s: Session, x: Statement, faults: Faults)
    ensures ExecuteUntil(s, [x], faults) == Execute(s, x, faults)
  {
    assert [x][1..] == [];
    var (next, ok) := Execute(s, x, faults);
    assert ExecuteUntil(next, [], faults) == (next, true);
  }

  // --------------------------------------------------------------- no trace

  function Names(p: Plan): set<string> {
    set i | 0 <= i < |p.secrets| :: p.secrets[i]
  }

  /** `s` has at most the plan's own attachment and secrets on top of `from`. */
  predicate OnTopOf(s: Session, from: Session, alias: string, names: set<string>) {
    && from.attached <= s.attached <= from.attached + {alias}
    && from.secrets <= s.secrets <= from.secrets + names
  }

  lemma {:induction false} UntilStaysOnTop(s: Session, xs: seq<Statement>, faults: Faults, from: Session,
                                           alias: string, names: set<string>)
    requires OnTopOf(s, from, alias, names)
    requires forall i | 0 <= i < |xs| :: xs[i].DisableAutoinstall? || xs[i].Load? || xs[i] == Attach(alias)
                                      || (xs[i].CreateSecret? && xs[i].name in names)
    ensures OnTopOf(ExecuteUntil(s, xs, faults).0, from, alias, names)
    decreases |xs|
  {
    if xs == [] {
    } else {
      var (next, ok) := Execute(s, xs[0], faults);
      if ok { UntilStaysOnTop(next, xs[1..], faults, from, alias, names); }
    }
  }

  lemma {:induction false} DropsRemove(s: Session, names: seq<string>, faults: Faults)
    ensures var t := ExecuteAll(s, Drops(names), faults);
      t.attached == s.attached && t.secrets == s.secrets - set i | 0 <= i < |names| :: names[i]
    decreases |names|
  {
    if names == [] {
    } else {
      var next := Execute(s, DropSecretIfExists(names[0]), faults).0;
      assert Drops(names)[1..] == Drops(names[1..]);
      DropsRemove(next, names[1..], faults);
      var all, tail := set i | 0 <= i < |names| :: names[i], set i | 0 <= i < |names[1..]| :: names[1..][i];
      assert all == {names[0]} + tail by {
        forall x | x in all ensures x in {names[0]} + tail {
          var i :| 0 <= i < |names| && names[i] == x;
          if i > 0 { assert names[1..][i - 1] == x; }
        }
        forall x | x in tail ensures x in all {
          var i :| 0 <= i < |names[1..]| && names[1..][i] == x;
          assert names[i + 1] == x;
        }
      }
    }
  }

  lemma TeardownRemoves(s: Session, p: Plan, faults: Faults)
    ensures var t := ExecuteAll(s, Teardown(p), faults);
      t.attached == s.attached - {p.alias} && t.secrets == s.secrets - Names(p)
  {
    assert Teardown(p)[1..] == Drops(p.secrets);
    DropsRemove(Execute(s, Detach(p.alias), faults).0, p.secrets, faults);
  }

  lemma SetupStaysOnTop(s: Session, p: Plan, faults: Faults)
    ensures OnTopOf(ExecuteUntil(s, Setup(p), faults).0, s, p.alias, Names(p))
  {
    var xs := Setup(p);
    forall i | 0 <= i < |xs|
      ensures xs[i].DisableAutoinstall? || xs[i].Load? || xs[i] == Attach(p.alias)
              || (xs[i].CreateSecret? && xs[i].name in Names(p))
    {
      var k := i - 1 - |p.load|;
      if 0 <= k < |p.secrets| { assert xs[i] == Creates(p.secrets)[k]; }
    }
    UntilStaysOnTop(s, xs, faults, s, p.alias, Names(p));
  }

  /** Whatever fails and wherever, what is left is the session without the plan's
      alias and secret names; so the session is as it was exactly when none of
      those was in use before. */
  lemma PullLeavesNoTrace(s: Session, p: Plan, faults: Faults)
    ensures var t := Pull(s, p, faults).0;
      && t.attached == s.attached - {p.alias} && t.secrets == s.secrets - Names(p)
      && (t.attached == s.attached && t.secrets == s.secrets <==> p.alias !in s.attached && Names(p) !! s.secrets)
  {
    var up := ExecuteUntil(s, Setup(p), faults).0;
    SetupStaysOnTop(s, p, faults);
    TeardownRemoves(up, p, faults);
    TeardownRemoves(Execute(up, Query, faults).0, p, faults);
    assert up.attached - {p.alias} == s.attached - {p.alias};
    assert up.secrets - Names(p) == s.secrets - Names(p);
    if p.alias in s.attached { assert p.alias !in s.attached - {p.alias}; }
    if !(Names(p) !! s.secrets) {
      var n :| n in Names(p) && n in s.secrets;
      assert n !in s.secrets - Names(p);
    }
  }

  lemma LowerConcat(a: string, b: string)
    ensures Lower(a + b) == Lower(a) + Lower(b)
  {
  }

  /** Secret names are told apart by alias and suffix even when letter case is not. */
  lemma SecretNamesAreInjective(a: string, s: string, b: string, t: string)
    requires s in {"_s3", "_iceberg"} && t in {"_s3", "_iceberg"}
    ensures EqualsIgnoringCase(SecretName(a, s), SecretName(b, t)) ==> EqualsIgnoringCase(a, b) && s == t
  {
    var x, y := Lower(SecretName(a, s)), Lower(SecretName(b, t));
    LowerConcat("_latiq_" + a, s);
    LowerConcat("_latiq_" + b, t);
    LowerConcat("_latiq_", a);
    LowerConcat("_latiq_", b);
    if x == y {
      assert x[|x| - 1] == s[|s| - 1] && y[|y| - 1] == t[|t| - 1];
      assert s == t;
      assert x[7..|x| - |s|] == Lower(a) && y[7..|y| - |t|] == Lower(b);
    }
  }

  /** No name of the one is, but for letter case, a name of the other. */
  predicate Apart(p: Plan, q: Plan) {
    forall m, n | m in p.secrets && n in q.secrets :: !EqualsIgnoringCase(m, n)
  }

  /** A plan makes no secret twice, and plans whose aliases differ in more than letter
      case share none, though the names are written unquoted: a pull takes down
      nothing the other's pull has put up. */
  lemma PlansShareNoSecret(k1: string, a1: string, p1: map<string, string>, k2: string, a2: string, p2: map<string, string>,
                           load: seq<string>)
    requires BuildPlan(k1, a1, p1, load).Ready? && BuildPlan(k2, a2, p2, load).Ready?
    ensures var p, q := BuildPlan(k1, a1, p1, load).plan, BuildPlan(k2, a2, p2, load).plan;
      && p.alias == a1 && (!EqualsIgnoringCase(a1, a2) ==> Apart(p, q)) && |p.secrets| <= 2
      && (|p.secrets| == 2 ==> !EqualsIgnoringCase(p.secrets[0], p.secrets[1]))
  {
    var p, q := BuildPlan(k1, a1, p1, load).plan, BuildPlan(k2, a2, p2, load).plan;
    SecretNamesAreInjective(a1, "_iceberg", a1, "_s3");
    SecretNamesAreInjective(a1, "_s3", a2, "_s3");
    SecretNamesAreInjective(a1, "_s3", a2, "_iceberg");
    SecretNamesAreInjective(a1, "_iceberg", a2, "_s3");
    SecretNamesAreInjective(a1, "_iceberg", a2, "_iceberg");
    assert forall m | m in p.secrets :: m == SecretName(a1, "_s3") || m == SecretName(a1, "_iceberg");
    assert forall n | n in q.secrets :: n == SecretName(a2, "_s3") || n == SecretName(a2, "_iceberg");
  }

  // ------------------------------------------------------ what the query sees

  lemma {:induction false} LoadsChangeNothing(s: Session, extensions: seq<string>, faults: Faults)
    ensures var t := ExecuteUntil(s, Loads(extensions), faults).0; t.attached == s.attached && t.secrets == s.secrets
    decreases |extensions|
  {
    if extensions == [] {
    } else {
      assert Loads(extensions)[1..] == Loads(extensions[1..]);
      LoadsChangeNothing(Execute(s, Load(extensions[0]), faults).0, extensions[1..], faults);
    }
  }

  lemma {:induction false} CreatesAdd(s: Session, names: seq<string>, faults: Faults)
    ensures var (t, ok) := ExecuteUntil(s, Creates(names), faults);
      t.attached == s.attached && (ok ==> forall i | 0 <= i < |names| :: names[i] in t.secrets)
    ensures s.secrets <= ExecuteUntil(s, Creates(names), faults).0.secrets
    decreases |names|
  {
    if names == [] {
    } else {
      var (next, ok) := Execute(s, CreateSecret(names[0]), faults);
      assert Creates(names)[1..] == Creates(names[1..]);
      if ok {
        CreatesAdd(next, names[1..], faults);
        var t := ExecuteUntil(next, Creates(names[1..]), faults).0;
        assert names[0] in next.secrets;
        forall i | 0 < i < |names| && ExecuteUntil(next, Creates(names[1..]), faults).1 ensures names[i] in t.secrets {
          assert names[i] == names[1..][i - 1];
        }
      }
    }
  }

  /** The query runs only with the catalog attached, newly, and every secret in place. */
  lemma QuerySeesTheCatalog(s: Session, p: Plan, faults: Faults)
    requires ExecuteUntil(s, Setup(p), faults).1
    ensures var up := ExecuteUntil(s, Setup(p), faults).0;
      p.alias !in s.attached && up.attached == s.attached + {p.alias} && up.secrets == s.secrets + Names(p)
  {
    SetupInParts(s, p, faults);
    SetupStaysOnTop(s, p, faults);
    var s1 := Execute(s, DisableAutoinstall, faults).0;
    LoadsChangeNothing(s1, p.load, faults);
    var s2 := ExecuteUntil(s1, Loads(p.load), faults).0;
    CreatesAdd(s2, p.secrets, faults);
    var s3 := ExecuteUntil(s2, Creates(p.secrets), faults).0;
    forall n | n in Names(p) ensures n in s3.secrets {}
  }

  // ------------------------------------------------- what a pull answers for

  /** The statements of a pull, one by one: no autoinstall, every extension, every
      secret, the attachment, the query, and everything taken down again. */
  predicate InOrder(log: seq<Executed>, p: Plan) {
    var a := 1 + |p.load| + |p.secrets|;
    && |log| == a + 3 + |p.secrets|
    && log[0].x == DisableAutoinstall
    && (forall i | 0 <= i < |p.load| :: log[1 + i].x == Load(p.load[i]))
    && (forall i | 0 <= i < |p.secrets| :: log[1 + |p.load| + i].x == CreateSecret(p.secrets[i]))
    && log[a].x == Attach(p.alias) && log[a + 1].x == Query && log[a + 2].x == Detach(p.alias)
    && (forall i | 0 <= i < |p.secrets| :: log[a + 3 + i].x == DropSecretIfExists(p.secrets[i]))
  }

  predicate QueryRan(log: seq<Executed>) {
    exists i | 0 <= i < |log| :: log[i].x == Query
  }

  /** The query was executed once, and it and all before it succeeded. */
  predicate QuerySucceeded(log: seq<Executed>, p: Plan) {
    InOrder(log, p) && forall i | 0 <= i < 3 + |p.load| + |p.secrets| :: log[i].ok
  }

  /** `l` is `xs`, or stops at the first of them that fails. */
  predicate IsLogOf(l: seq<Executed>, xs: seq<Statement>, ok: bool) {
    && |l| <= |xs| && (forall i | 0 <= i < |l| :: l[i].x == xs[i])
    && (ok ==> |l| == |xs| && forall i | 0 <= i < |l| :: l[i].ok)
    && (!ok ==> exists i | 0 <= i < |l| :: !l[i].ok)
  }

  lemma LogCons(first: Executed, rest: seq<Executed>, xs: seq<Statement>, ok: bool)
    requires xs != [] && first.x == xs[0] && first.ok && IsLogOf(rest, xs[1..], ok)
    ensures IsLogOf([first] + rest, xs, ok)
  {
    var l := [first] + rest;
    forall i | 0 <= i < |l| ensures l[i].x == xs[i] {
      if i > 0 { assert l[i] == rest[i - 1]; }
    }
    if !ok {
      var i :| 0 <= i < |rest| && !rest[i].ok;
      assert !l[i + 1].ok;
    }
  }

  lemma {:induction false} UntilLog(s: Session, xs: seq<Statement>, faults: Faults) returns (l: seq<Executed>)
    ensures var (t, ok) := ExecuteUntil(s, xs, faults); t.log == s.log + l && IsLogOf(l, xs, ok)
    decreases |xs|
  {
    if xs == [] {
      l := [];
    } else {
      var (next, ok) := Execute(s, xs[0], faults);
      var first := Executed(xs[0], ok, s.attached, s.secrets);
      if ok {
        var rest := UntilLog(next, xs[1..], faults);
        LogCons(first, rest, xs, ExecuteUntil(next, xs[1..], faults).1);
        l := [first] + rest;
        LogJoins(s.log, first, rest);
      } else {
        l := [first];
        StoppedLog(first, xs);
      }
    }
  }

  lemma LogJoins(before: seq<Executed>, first: Executed, rest: seq<Executed>)
    ensures before + [first] + rest == before + ([first] + rest)
  {
  }

  lemma StoppedLog(first: Executed, xs: seq<Statement>)
    requires xs != [] && first.x == xs[0] && !first.ok
    ensures IsLogOf([first], xs, false)
  {
    assert ![first][0].ok;
  }

  lemma {:induction false} AllLog(s: Session, xs: seq<Statement>, faults: Faults) returns (l: seq<Executed>)
    ensures ExecuteAll(s, xs, faults).log == s.log + l && |l| == |xs| && forall i | 0 <= i < |l| :: l[i].x == xs[i]
    decreases |xs|
  {
    if xs == [] {
      l := [];
    } else {
      var next := Execute(s, xs[0], faults).0;
      var rest := AllLog(next, xs[1..], faults);
      l := [next.log[|s.log|]] + rest;
    }
  }

  lemma SetupIs(p: Plan)
    ensures var xs, a := Setup(p), 1 + |p.load| + |p.secrets|;
      && |xs| == a + 1 && xs[0] == DisableAutoinstall && xs[a] == Attach(p.alias)
      && (forall i | 0 <= i < |p.load| :: xs[1 + i] == Load(p.load[i]))
      && (forall i | 0 <= i < |p.secrets| :: xs[1 + |p.load| + i] == CreateSecret(p.secrets[i]))
      && (forall i | 0 <= i < |xs| :: xs[i] != Query)
  {
    var xs := Setup(p);
    forall i | 0 <= i < |xs| ensures xs[i] != Query {
      var k := i - 1 - |p.load|;
      if 0 <= k < |p.secrets| { assert xs[i] == Creates(p.secrets)[k]; }
    }
  }

  lemma TeardownIs(p: Plan)
    ensures var xs := Teardown(p);
      && |xs| == 1 + |p.secrets| && xs[0] == Detach(p.alias)
      && (forall i | 0 <= i < |p.secrets| :: xs[1 + i] == DropSecretIfExists(p.secrets[i]))
      && (forall i | 0 <= i < |xs| :: xs[i] != Query)
  {
  }

  lemma FailedSetupAsksNothing(l: seq<Executed>, down: seq<Executed>, p: Plan)
    requires |l| <= |Setup(p)| && (forall i | 0 <= i < |l| :: l[i].x == Setup(p)[i])
    requires |down| == |Teardown(p)| && (forall i | 0 <= i < |down| :: down[i].x == Teardown(p)[i])
    ensures !QueryRan(l + down)
  {
    SetupIs(p);
    TeardownIs(p);
    forall i | 0 <= i < |l + down| ensures (l + down)[i].x != Query {
      if i < |l| { assert l[i].x == Setup(p)[i]; } else { assert down[i - |l|].x == Teardown(p)[i - |l|]; }
    }
  }

  /** A whole setup, all of it successful. */
  predicate IsSetup(l: seq<Executed>, p: Plan) {
    var a := 1 + |p.load| + |p.secrets|;
    && |l| == a + 1 && l[0].x == DisableAutoinstall && l[a].x == Attach(p.alias)
    && (forall i | 0 <= i < |p.load| :: l[1 + i].x == Load(p.load[i]))
    && (forall i | 0 <= i < |p.secrets| :: l[1 + |p.load| + i].x == CreateSecret(p.secrets[i]))
    && (forall i | 0 <= i <= a :: l[i].ok)
  }

  predicate IsTeardown(down: seq<Executed>, p: Plan) {
    && |down| == 1 + |p.secrets| && down[0].x == Detach(p.alias)
    && (forall i | 0 <= i < |p.secrets| :: down[1 + i].x == DropSecretIfExists(p.secrets[i]))
  }

  lemma SetupLog(l: seq<Executed>, p: Plan)
    requires IsLogOf(l, Setup(p), true)
    ensures IsSetup(l, p)
  {
    SetupIs(p);
  }

  lemma TeardownLog(down: seq<Executed>, p: Plan)
    requires |down| == |Teardown(p)| && forall i | 0 <= i < |down| :: down[i].x == Teardown(p)[i]
    ensures IsTeardown(down, p)
  {
    TeardownIs(p);
  }

  lemma PutInOrder(l: seq<Executed>, q: Executed, down: seq<Executed>, p: Plan)
    requires IsSetup(l, p) && q.x == Query && IsTeardown(down, p)
    ensures var log, a := l + [q] + down, 1 + |p.load| + |p.secrets|;
      && InOrder(log, p) && QueryRan(log) && log[a + 1] == q
      && (forall i | 0 <= i <= a :: log[i].ok) && (QuerySucceeded(log, p) <==> q.ok)
  {
    var log, a := l + [q] + down, 1 + |p.load| + |p.secrets|;
    assert log[a + 1] == q && log[a + 2] == down[0];
    forall i | 0 <= i <= a ensures log[i] == l[i] {}
    forall i | 0 <= i < |p.secrets| ensures log[a + 3 + i].x == DropSecretIfExists(p.secrets[i]) {
      assert log[a + 3 + i] == down[1 + i];
    }
  }

  /** The log of a pull whose setup failed. */
  lemma RefusedLog(s: Session, p: Plan, faults: Faults) returns (l: seq<Executed>, down: seq<Executed>)
    requires !ExecuteUntil(s, Setup(p), faults).1
    ensures Pull(s, p, faults).0.log == s.log + (l + down) && !Pull(s, p, faults).1
    ensures |l| <= |Setup(p)| && forall i | 0 <= i < |l| :: l[i].x == Setup(p)[i]
    ensures |down| == |Teardown(p)| && forall i | 0 <= i < |down| :: down[i].x == Teardown(p)[i]
  {
    l := UntilLog(s, Setup(p), faults);
    var up := ExecuteUntil(s, Setup(p), faults).0;
    down := AllLog(up, Teardown(p), faults);
    assert s.log + l + down == s.log + (l + down);
  }

  lemma SetupOf(s: Session, p: Plan, faults: Faults) returns (l: seq<Executed>)
    requires ExecuteUntil(s, Setup(p), faults).1
    ensures IsSetup(l, p) && ExecuteUntil(s, Setup(p), faults).0.log == s.log + l
  {
    l := UntilLog(s, Setup(p), faults);
    SetupLog(l, p);
  }

  lemma TeardownOf(s: Session, p: Plan, faults: Faults) returns (down: seq<Executed>)
    ensures IsTeardown(down, p) && ExecuteAll(s, Teardown(p), faults).log == s.log + down
  {
    down := AllLog(s, Teardown(p), faults);
    TeardownLog(down, p);
  }

  lemma ThreeLogs(before: seq<Executed>, l: seq<Executed>, q: Executed, down: seq<Executed>)
    ensures before + l + [q] + down == before + (l + [q] + down)
  {
  }

  /** The log of a pull whose setup succeeded. */
  lemma AskedLog(s: Session, p: Plan, faults: Faults) returns (l: seq<Executed>, q: Executed, down: seq<Executed>)
    requires ExecuteUntil(s, Setup(p), faults).1
    ensures Pull(s, p, faults).0.log == s.log + (l + [q] + down) && Pull(s, p, faults).1 == q.ok
    ensures IsSetup(l, p) && IsTeardown(down, p)
    ensures q.x == Query && q.attached == s.attached + {p.alias} && q.secrets == s.secrets + Names(p)
  {
    l := SetupOf(s, p, faults);
    var up := ExecuteUntil(s, Setup(p), faults).0;
    QuerySeesTheCatalog(s, p, faults);
    q := Executed(Query, Succeeds(up, Query, faults), up.attached, up.secrets);
    down := TeardownOf(Execute(up, Query, faults).0, p, faults);
    ThreeLogs(s.log, l, q, down);
  }

  lemma LogAfter(before: seq<Executed>, more: seq<Executed>, all: seq<Executed>)
    requires all == before + more
    ensures before <= all && all[|before|..] == more
  {
  }

  /** A pull answers success exactly when every statement of its setup succeeded, then
      its query was executed, once, and succeeded. The query runs exactly when the whole
      setup has succeeded, after the attachment and before the detachment, with the
      catalog attached and every secret in place. */
  lemma PullAnswersForTheQuery(s: Session, p: Plan, faults: Faults)
    ensures s.log <= Pull(s, p, faults).0.log
    ensures var log, a := Pull(s, p, faults).0.log[|s.log|..], 1 + |p.load| + |p.secrets|;
      && (Pull(s, p, faults).1 <==> QuerySucceeded(log, p))
      && (QueryRan(log) <==> InOrder(log, p) && forall i | 0 <= i <= a :: log[i].ok)
      && (QueryRan(log) ==> log[a + 1].attached == s.attached + {p.alias} && log[a + 1].secrets == s.secrets + Names(p))
  {
    if ExecuteUntil(s, Setup(p), faults).1 {
      var l, q, down := AskedLog(s, p, faults);
      LogAfter(s.log, l + [q] + down, Pull(s, p, faults).0.log);
      PutInOrder(l, q, down, p);
    } else {
      var l, down := RefusedLog(s, p, faults);
      LogAfter(s.log, l + down, Pull(s, p, faults).0.log);
      FailedSetupAsksNothing(l, down, p);
      InOrderAsks(l + down, p);
    }
  }

  lemma InOrderAsks(log: seq<Executed>, p: Plan)
    ensures InOrder(log, p) ==> QueryRan(log)
  {
  }

  // --------------------------------------------------- what a plan is made of

  /** A plan is ready exactly when its type is one of the two and its required
      parameters are given; it makes a bearer secret for an iceberg catalog with a token
      and a storage secret when both storage keys are given, and no other. */
  lemma PlansFollowTheirParameters(kind: string, alias: string, params: map<string, string>, load: seq<string>)
    ensures var r := BuildPlan(kind, alias, params, load);
      && (r.Ready? <==>
            || (kind == "iceberg" && Given(params, "endpoint"))
            || (kind == "ducklake" && Given(params, "metadata_path") && Given(params, "data_path")))
      && (r == Refused(UnsupportedParameter) <==> kind != "iceberg" && kind != "ducklake")
      && (r.Ready? ==>
            && r.plan.alias == alias && r.plan.load == load
            && ("_latiq_" + alias + "_s3" in r.plan.secrets <==> Given(params, "s3_access_key") && Given(params, "s3_secret_key"))
            && ("_latiq_" + alias + "_iceberg" in r.plan.secrets <==> kind == "iceberg" && Given(params, "token"))
            && forall n | n in r.plan.secrets :: n == "_latiq_" + alias + "_s3" || n == "_latiq_" + alias + "_iceberg")
  {
    SecretNamesAreInjective(alias, "_s3", alias, "_iceberg");
  }
}
