/** The deployment ledger (pkg/runtime/governance.go) and its SQLite store
    (pkg/runtime/sqlite_store.go): what every run of Record keeps is what makes saving and
    loading lossless. Manifests are values here. */
module Deployments {
  import opened GoStrings
  import opened LogTable
  import Policies

  datatype Manifest = Manifest(environment: string, service: string, version: string, policy: Policies.Policy,
                               audit: seq<string>, createdAt: real)

  type PerEnvironment<V> = map<string, map<string, V>>

  datatype State = State(current: PerEnvironment<Manifest>, history: PerEnvironment<seq<Manifest>>)

  datatype Error =
    | ServiceRequired | EnvironmentRequired | ProdNeedsGuardrails | ProdNeedsAllowlists | SignedNeedsSLO | AuditNeedsSLO
    | WrongEnvironment | WrongService | AuditTrailRequired | VersionExists

  datatype Outcome = Outcome(state: State, manifest: Manifest, error: Option<Error>)

  // ---------------------------------------------------------------- recording

  function Named(m: Manifest): Option<Error> {
    if TrimSpace(m.service) == "" then Some(ServiceRequired)
    else if TrimSpace(m.environment) == "" then Some(EnvironmentRequired)
    else None
  }

  /** Validation fills in the policy's missing environment and service. */
  function Filled(m: Manifest): Manifest {
    m.(policy := m.policy.(environment := if m.policy.environment == "" then m.environment else m.policy.environment,
                           service := if m.policy.service == "" then m.service else m.policy.service))
  }

  function Guarded(m: Manifest): Option<Error> {
    var p := m.policy;
    if m.environment == "prod" && (!p.requireSigned || !p.requireAudit || p.slo.None?) then Some(ProdNeedsGuardrails)
    else if m.environment == "prod" && (p.allowedTenants == [] || p.allowedRegions == []) then Some(ProdNeedsAllowlists)
    else if p.requireSigned && p.slo.None? then Some(SignedNeedsSLO)
    else if p.requireAudit && p.slo.None? then Some(AuditNeedsSLO)
    else if p.environment != m.environment then Some(WrongEnvironment)
    else if p.service != m.service then Some(WrongService)
    else if m.audit == [] then Some(AuditTrailRequired)
    else None
  }

  function Inner<V>(n: PerEnvironment<V>, service: string): map<string, V> {
    if service in n then n[service] else map[]
  }

  function Listed(h: map<string, seq<Manifest>>, env: string): seq<Manifest> {
    if env in h then h[env] else []
  }

  function HistoryOf(h: PerEnvironment<seq<Manifest>>, service: string, env: string): seq<Manifest> {
    Listed(Inner(h, service), env)
  }

  predicate Taken(s: State, service: string, env: string, version: string) {
    exists e :: e in HistoryOf(s.history, service, env) && e.version == version
  }

  /** The maps of a service are made before its versions are looked at. */
  function Opened(s: State, service: string): State {
    State(s.current[service := Inner(s.current, service)], s.history[service := Inner(s.history, service)])
  }

  function Put(s: State, service: string, env: string, f: Manifest): State {
    State(s.current[service := Inner(s.current, service)[env := f]],
          s.history[service := Inner(s.history, service)[env := HistoryOf(s.history, service, env) + [f]]])
  }

  function Record(s: State, m: Manifest): Outcome {
    if Named(m).Some? then Outcome(s, m, Named(m))
    else
      var f := Filled(m);
      if Guarded(f).Some? then Outcome(s, f, Guarded(f))
      else
        var service, env := TrimSpace(m.service), TrimSpace(m.environment);
        if Taken(s, service, env, m.version) then Outcome(Opened(s, service), f, Some(VersionExists))
        else Outcome(Put(s, service, env, f), f, None)
  }

  method Validate(m: Manifest) returns (f: Manifest, error: Option<Error>)
    ensures if Named(m).Some? then f == m && error == Named(m) else f == Filled(m) && error == Guarded(f)
  {
    f := m;
    if TrimSpace(f.service) == "" {
      return f, Some(ServiceRequired);
    }
    if TrimSpace(f.environment) == "" {
      return f, Some(EnvironmentRequired);
    }
    if f.policy.environment == "" {
      f := f.(policy := f.policy.(environment := f.environment));
    }
    if f.policy.service == "" {
      f := f.(policy := f.policy.(service := f.service));
    }
    if f.environment == "prod" {
      if !f.policy.requireSigned || !f.policy.requireAudit || f.policy.slo.None? {
        return f, Some(ProdNeedsGuardrails);
      }
      if |f.policy.allowedTenants| == 0 || |f.policy.allowedRegions| == 0 {
        return f, Some(ProdNeedsAllowlists);
      }
    }
    if f.policy.requireSigned && f.policy.slo.None? {
      return f, Some(SignedNeedsSLO);
    }
    if f.policy.requireAudit && f.policy.slo.None? {
      return f, Some(AuditNeedsSLO);
    }
    if f.policy.environment != f.environment {
      return f, Some(WrongEnvironment);
    }
    if f.policy.service != f.service {
      return f, Some(WrongService);
    }
    if |f.audit| == 0 {
      return f, Some(AuditTrailRequired);
    }
    return f, None;
  }

  // ---------------------------------------------------------------- the tables

  /** One entry per (service, environment). */
  ghost function Flat<V>(n: PerEnvironment<V>): map<(string, string), V> {
    map service, env | service in n && env in n[service] :: (service, env) := n[service][env]
  }

  predicate NoneEmpty<V>(n: PerEnvironment<V>) {
    forall service :: service in n ==> n[service] != map[]
  }

  /** Two nested maps without empty inner maps that hold the same entries are the same. */
  lemma FlatDetermines<V>(a: PerEnvironment<V>, b: PerEnvironment<V>)
    requires Flat(a) == Flat(b) && NoneEmpty(a) && NoneEmpty(b)
    ensures a == b
  {
    forall service | service in a ensures service in b && a[service] == b[service] { SameInner(a, b, service); }
    forall service | service in b ensures service in a { SameInner(b, a, service); }
  }

  lemma SameInner<V>(a: PerEnvironment<V>, b: PerEnvironment<V>, service: string)
    requires Flat(a) == Flat(b) && NoneEmpty(a) && service in a
    ensures service in b && a[service] == b[service]
  {
    var some :| some in a[service];
    assert (service, some) in Flat(a);
    forall env ensures env in a[service] <==> env in b[service] {
      assert env in a[service] <==> (service, env) in Flat(a);
      assert env in b[service] <==> (service, env) in Flat(b);
    }
    forall env | env in a[service] ensures a[service][env] == b[service][env] {
      assert Flat(a)[(service, env)] == Flat(b)[(service, env)];
    }
  }

  lemma FlatEmpty<V>()
    ensures Flat<V>(map[]) == map[] && NoneEmpty<V>(map[])
  {
  }

  lemma FlatPut<V>(n: PerEnvironment<V>, service: string, env: string, v: V)
    ensures Flat(n[service := Inner(n, service)[env := v]]) == Flat(n)[(service, env) := v]
    ensures NoneEmpty(n) ==> NoneEmpty(n[service := Inner(n, service)[env := v]])
  {
    var m := n[service := Inner(n, service)[env := v]];
    assert env in m[service];
    forall k: (string, string) ensures k in Flat(m) <==> k in Flat(n)[(service, env) := v] {
      assert k == (k.0, k.1);
    }
  }

  type Pair = (string, string)

  /** History rows are numbered by list index. */
  function HistoryRows(): Layout<Pair, Pair, Manifest> {
    Layout(SamePair, (m: Manifest, i: nat) => i)
  }

  function SamePair(k: Pair): Pair { k }

  class SqliteDeploymentStore {
    var currentRows: map<Pair, Manifest>
    var historyRows: Table<Pair, Manifest>

    constructor ()
      ensures currentRows == map[] && historyRows == map[]
    {
      currentRows, historyRows := map[], map[];
    }

    /** No insert ever meets a taken primary key. */
    method Save(s: State)
      modifies this
      ensures currentRows == Flat(s.current)
      ensures Holds(HistoryRows(), Flat(s.history), historyRows, All(Flat(s.history)))
    {
      currentRows := FlatRows(s.current);
      historyRows := ListRows(s.history);
    }

    method Load(query: Table<Pair, Manifest> -> seq<Row<Pair, Manifest>>) returns (s: State)
      ensures Flat(s.current) == currentRows && NoneEmpty(s.current)
      ensures Flat(s.history) == Grouped(SamePair, query(historyRows)) && NoneEmpty(s.history)
    {
      var current := NestRows(currentRows);
      var history := NestLists(query(historyRows));
      return State(current, history);
    }
  }

  method FlatRows(current: PerEnvironment<Manifest>) returns (rows: map<Pair, Manifest>)
    ensures rows == Flat(current)
  {
    rows := map[];
    var services := current.Keys;
    while services != {}
      invariant services <= current.Keys
      invariant forall k: Pair :: k in rows <==> k in Flat(current) && k.0 !in services
      invariant forall k: Pair :: k in rows ==> rows[k] == Flat(current)[k]
      decreases |services|
    {
      var service :| service in services;
      services := services - {service};
      var envs := current[service].Keys;
      while envs != {}
        invariant envs <= current[service].Keys
        invariant forall k: Pair :: k in rows <==> k in Flat(current) && k.0 !in services && (k.0 == service ==> k.1 !in envs)
        invariant forall k: Pair :: k in rows ==> rows[k] == Flat(current)[k]
        decreases |envs|
      {
        var env :| env in envs;
        envs := envs - {env};
        assert (service, env) !in rows;
        assert (service, env) in Flat(current);
        rows := rows[(service, env) := current[service][env]];
      }
    }
  }

  method ListRows(history: PerEnvironment<seq<Manifest>>) returns (rows: Table<Pair, Manifest>)
    ensures Holds(HistoryRows(), Flat(history), rows, All(Flat(history)))
  {
    var lay := HistoryRows();
    ghost var flat := Flat(history);
    ghost var done: iset<(Pair, int)> := iset{};
    rows := map[];
    var services := history.Keys;
    while services != {}
      invariant services <= history.Keys
      invariant Holds(lay, flat, rows, done) && Distinct(lay, flat, done)
      invariant forall k: Pair, j :: (k, j) in done <==> Within(flat, k, j) && k.0 !in services
      decreases |services|
    {
      var service :| service in services;
      services := services - {service};
      var envs := history[service].Keys;
      while envs != {}
        invariant envs <= history[service].Keys
        invariant Holds(lay, flat, rows, done) && Distinct(lay, flat, done)
        invariant forall k: Pair, j :: (k, j) in done <==> Within(flat, k, j) && k.0 !in services && (k.0 == service ==> k.1 !in envs)
        decreases |envs|
      {
        var env :| env in envs;
        envs := envs - {env};
        var list := history[service][env];
        assert (service, env) in flat && flat[(service, env)] == list;
        hide Holds, Distinct, Flat;
        for i := 0 to |list|
          invariant Holds(lay, flat, rows, done) && Distinct(lay, flat, done)
          invariant forall k: Pair, j :: (k, j) in done <==>
            Within(flat, k, j) && k.0 !in services && (k.0 == service ==> k.1 !in envs) && (k == (service, env) ==> j < i)
        {
          FreeKey(flat, rows, done, (service, env), i);
          InsertKeeps(lay, flat, rows, done, (service, env), i);
          rows := rows[((service, env), i) := list[i]];
          done := done + iset{((service, env), i)};
        }
      }
    }
    AllDone(lay, flat, rows, done);
  }

  lemma FreeKey(flat: map<Pair, seq<Manifest>>, rows: Table<Pair, Manifest>, done: iset<(Pair, int)>, k: Pair, i: nat)
    requires Holds(HistoryRows(), flat, rows, done) && (k, i) !in done
    ensures (k, i) !in rows
  {
    assert (k, i) in rows ==> Origin(HistoryRows(), flat, done, (k, i));
  }

  method NestRows(rows: map<Pair, Manifest>) returns (current: PerEnvironment<Manifest>)
    ensures Flat(current) == rows && NoneEmpty(current)
  {
    current := map[];
    var todo := rows.Keys;
    ghost var part: map<Pair, Manifest> := map[];
    hide Flat, NoneEmpty;
    FlatEmpty<Manifest>();
    while todo != {}
      invariant todo <= rows.Keys
      invariant part.Keys == rows.Keys - todo && forall k: Pair :: k in part ==> part[k] == rows[k]
      invariant Flat(current) == part && NoneEmpty(current)
      decreases |todo|
    {
      var k :| k in todo;
      todo := todo - {k};
      FlatPut(current, k.0, k.1, rows[k]);
      part := part[k := rows[k]];
      current := current[k.0 := Inner(current, k.0)[k.1 := rows[k]]];
    }
    assert part == rows;
  }

  lemma FlatGet(h: PerEnvironment<seq<Manifest>>, service: string, env: string)
    ensures Get(Flat(h), (service, env)) == HistoryOf(h, service, env)
  {
  }

  method NestLists(answer: seq<Row<Pair, Manifest>>) returns (history: PerEnvironment<seq<Manifest>>)
    ensures Flat(history) == Grouped(SamePair, answer) && NoneEmpty(history)
  {
    history := map[];
    hide Flat, NoneEmpty;
    FlatEmpty<seq<Manifest>>();
    assert answer[..0] == [];
    for i := 0 to |answer|
      invariant Flat(history) == Grouped(SamePair, answer[..i]) && NoneEmpty(history)
    {
      hide Grouped, Get;
      GroupedSnoc(SamePair, answer, i);
      var service, env := answer[i].key.0, answer[i].key.1;
      var longer := HistoryOf(history, service, env) + [answer[i].value];
      FlatGet(history, service, env);
      FlatPut(history, service, env, longer);
      assert SamePair(answer[i].key) == (service, env);
      history := history[service := Inner(history, service)[env := longer]];
    }
    assert answer[..|answer|] == answer;
  }

  // ---------------------------------------------------------------- save, then load

  predicate NoEmptyList(h: PerEnvironment<seq<Manifest>>) {
    forall service, env :: service in h && env in h[service] ==> h[service][env] != []
  }

  /** What the tables can carry without loss. */
  predicate Dense(s: State) {
    NoneEmpty(s.current) && NoneEmpty(s.history) && NoEmptyList(s.history)
  }

  lemma DenseIsStorable(s: State)
    requires NoEmptyList(s.history)
    ensures Storable(HistoryRows(), SamePair, Flat(s.history))
  {
    var flat := Flat(s.history);
    forall k | k in flat ensures StorableList(HistoryRows(), SamePair, k, flat[k]) {
      assert k.0 in s.history && k.1 in s.history[k.0];
    }
  }

  /** What is loaded equals what was saved exactly when no map of environments and no list is
      empty. */
  lemma ComesBackIffDense(saved: State, rows: Table<Pair, Manifest>, scan: seq<Row<Pair, Manifest>>, loaded: State)
    requires Holds(HistoryRows(), Flat(saved.history), rows, All(Flat(saved.history))) && IsScan(rows, scan)
    requires Flat(loaded.current) == Flat(saved.current) && NoneEmpty(loaded.current)
    requires Flat(loaded.history) == Grouped(SamePair, scan) && NoneEmpty(loaded.history)
    ensures loaded == saved <==> Dense(saved)
  {
    hide IsScan, Holds, Grouped, Storable;
    if Dense(saved) {
      DenseIsStorable(saved);
      SaveLoadIdentity(HistoryRows(), SamePair, Flat(saved.history), rows, scan);
      FlatDetermines(saved.history, loaded.history);
      FlatDetermines(saved.current, loaded.current);
    }
    if loaded == saved {
      forall service, env | service in saved.history && env in saved.history[service] ensures saved.history[service][env] != [] {
        var k := (service, env);
        assert k in Flat(saved.history);
        GroupedIsOf(SamePair, scan, k);
        assert |Grouped(SamePair, scan)[k]| == |Of(SamePair, scan, k)|;
      }
    }
  }

  // ---------------------------------------------------------------- every run

  /** The entry of one service and environment: the active manifest is the last of a non-empty
      history of pairwise different versions, all of that service and environment. */
  predicate EntryFits(active: Manifest, h: seq<Manifest>, service: string, env: string) {
    h != [] && active == h[|h| - 1] && ListFits(h, service, env)
  }

  predicate ListFits(h: seq<Manifest>, service: string, env: string) {
    (forall i :: 0 <= i < |h| ==> Fits(h[i], service, env)) &&
    forall i, j :: 0 <= i < j < |h| ==> h[i].version != h[j].version
  }

  predicate Fits(m: Manifest, service: string, env: string) {
    TrimSpace(m.service) == service && TrimSpace(m.environment) == env && Guarded(m).None?
  }

  ghost predicate ServiceFits(c: map<string, Manifest>, h: map<string, seq<Manifest>>, service: string) {
    h != map[] && c.Keys == h.Keys && forall env :: env in c ==> EntryFits(c[env], h[env], service, env)
  }

  ghost predicate Sound(s: State) {
    s.current.Keys == s.history.Keys &&
    forall service :: service in s.current ==> ServiceFits(s.current[service], s.history[service], service)
  }

  lemma SoundIsDense(s: State)
    requires Sound(s)
    ensures Dense(s)
  {
    hide ListFits;
    forall service | service in s.current ensures s.current[service] != map[] && s.history[service] != map[] {
      assert ServiceFits(s.current[service], s.history[service], service);
      var env :| env in s.history[service].Keys;
      assert env in s.current[service].Keys;
    }
    forall service, env | service in s.history && env in s.history[service] ensures s.history[service][env] != [] {
      assert service in s.current.Keys;
      assert ServiceFits(s.current[service], s.history[service], service);
      assert env in s.current[service].Keys;
    }
  }

  lemma RecordKeepsSound(s: State, m: Manifest)
    requires Sound(s)
    ensures Sound(Record(s, m).state)
    ensures Record(s, m).error.Some? ==> Record(s, m).state == s
  {
    hide TrimSpace, Guarded, Sound, Taken, Put, Opened;
    var service, env := TrimSpace(m.service), TrimSpace(m.environment);
    if Taken(s, service, env, m.version) {
      TakenIsOpen(s, service, env, m.version);
    } else if Record(s, m).error.None? {
      PutKeepsSound(s, service, env, Filled(m));
    }
  }

  /** Where a version is taken, the maps of the service exist already. */
  lemma TakenIsOpen(s: State, service: string, env: string, version: string)
    requires Sound(s) && Taken(s, service, env, version)
    ensures Opened(s, service) == s
  {
    hide ServiceFits;
    assert service in s.history.Keys by { hide Sound; }
    OpenTwice(s, service);
  }

  lemma OpenTwice(s: State, service: string)
    requires service in s.current && service in s.history
    ensures Opened(s, service) == s
  {
    assert s.current[service := s.current[service]] == s.current;
    assert s.history[service := s.history[service]] == s.history;
  }

  lemma PutAfterOpen(s: State, service: string, env: string, f: Manifest)
    ensures var o := Opened(s, service);
            Put(s, service, env, f) ==
            State(o.current[service := o.current[service][env := f]],
                  o.history[service := o.history[service][env := HistoryOf(o.history, service, env) + [f]]])
  {
    var o, c := Opened(s, service), Inner(s.current, service)[env := f];
    var h := Inner(s.history, service)[env := HistoryOf(s.history, service, env) + [f]];
    assert o.current[service := c] == s.current[service := c];
    assert o.history[service := h] == s.history[service := h];
  }

  lemma PutKeepsSound(s: State, service: string, env: string, f: Manifest)
    requires Sound(s) && Fits(f, service, env) && !Taken(s, service, env, f.version)
    ensures Sound(Put(s, service, env, f))
  {
    hide ServiceFits, Fits;
    var t := Put(s, service, env, f);
    assert service in s.history <==> service in s.current.Keys;
    if service in s.current { assert ServiceFits(s.current[service], s.history[service], service); }
    ServiceGrows(Inner(s.current, service), Inner(s.history, service), service, env, f);
    forall v | v in t.current ensures ServiceFits(t.current[v], t.history[v], v) {
      if v != service { assert ServiceFits(s.current[v], s.history[v], v); }
    }
  }

  lemma ServiceGrows(c: map<string, Manifest>, h: map<string, seq<Manifest>>, service: string, env: string, f: Manifest)
    requires ServiceFits(c, h, service) || (c == map[] && h == map[])
    requires Fits(f, service, env) && forall e :: e in Listed(h, env) ==> e.version != f.version
    ensures ServiceFits(c[env := f], h[env := Listed(h, env) + [f]], service)
  {
    hide ListFits, Fits;
    var d, g := c[env := f], h[env := Listed(h, env) + [f]];
    assert env in g.Keys;
    if env in c { assert EntryFits(c[env], h[env], service, env); } else { assert env !in h.Keys; }
    ListGrows(Listed(h, env), service, env, f);
    forall e | e in d ensures EntryFits(d[e], g[e], service, e) {
      if e != env { assert EntryFits(c[e], h[e], service, e); }
    }
  }

  lemma ListGrows(h: seq<Manifest>, service: string, env: string, f: Manifest)
    requires h == [] || ListFits(h, service, env)
    requires Fits(f, service, env) && forall e :: e in h ==> e.version != f.version
    ensures ListFits(h + [f], service, env)
  {
    hide Fits;
    assert forall i :: 0 <= i < |h| ==> h[i] in h;
  }

  function Run(ms: seq<Manifest>): State {
    if ms == [] then State(map[], map[]) else Record(Run(ms[..|ms| - 1]), ms[|ms| - 1]).state
  }

  /** Whatever manifests are offered, accepted or refused. */
  lemma {:induction false} EveryLedgerIsSound(ms: seq<Manifest>)
    ensures Sound(Run(ms))
  {
    if ms != [] {
      EveryLedgerIsSound(ms[..|ms| - 1]);
      RecordKeepsSound(Run(ms[..|ms| - 1]), ms[|ms| - 1]);
    }
  }

  class DeploymentLedger {
    var current: PerEnvironment<Manifest>
    var history: PerEnvironment<seq<Manifest>>

    function View(): State
      reads this
    {
      State(current, history)
    }

    constructor ()
      ensures View() == Run([])
    {
      current, history := map[], map[];
    }

    method RecordManifest(m: Manifest) returns (f: Manifest, error: Option<Error>)
      modifies this
      ensures Outcome(View(), f, error) == Record(old(View()), m)
    {
      f, error := Validate(m);
      if error.Some? {
        return;
      }
      var service, env := TrimSpace(m.service), TrimSpace(m.environment);
      hide TrimSpace, Guarded, Named;
      if service !in current {
        current := current[service := map[]];
      }
      if service !in history {
        history := history[service := map[]];
      }
      var earlier := HistoryOf(history, service, env);
      for i := 0 to |earlier|
        invariant View() == Opened(old(View()), service)
        invariant forall j :: 0 <= j < i ==> earlier[j].version != m.version
      {
        if earlier[i].version == m.version {
          return f, Some(VersionExists);
        }
      }
      assert !Taken(old(View()), service, env, m.version);
      current := current[service := current[service][env := f]];
      history := history[service := history[service][env := earlier + [f]]];
      PutAfterOpen(old(View()), service, env, f);
    }

    method Persist(store: SqliteDeploymentStore)
      modifies store
      ensures store.currentRows == Flat(current)
      ensures Holds(HistoryRows(), Flat(history), store.historyRows, All(Flat(history)))
    {
      store.Save(State(current, history));
    }

    /** Loading replaces whatever the ledger held. */
    method LoadFrom(store: SqliteDeploymentStore, query: Table<Pair, Manifest> -> seq<Row<Pair, Manifest>>)
      modifies this
      ensures Flat(current) == store.currentRows && NoneEmpty(current)
      ensures Flat(history) == Grouped(SamePair, query(store.historyRows)) && NoneEmpty(history)
    {
      var s := store.Load(query);
      current, history := s.current, s.history;
    }
  }

  /** A ledger persisted after any run and loaded into any other ledger is the same ledger. */
  method RestartAfterRun(ledger: DeploymentLedger, store: SqliteDeploymentStore, other: DeploymentLedger,
                         query: Table<Pair, Manifest> -> seq<Row<Pair, Manifest>>, ghost ms: seq<Manifest>)
    requires ledger.View() == Run(ms)
    requires forall t :: IsScan(t, query(t))
    modifies store, other
    ensures other.View() == Run(ms)
  {
    EveryLedgerIsSound(ms);
    SoundIsDense(Run(ms));
    hide *;
    ghost var saved := Run(ms);
    assert ledger.View() == State(ledger.current, ledger.history);
    ledger.Persist(store);
    other.LoadFrom(store, query);
    ComesBackIffDense(saved, store.historyRows, query(store.historyRows), other.View());
  }
}
