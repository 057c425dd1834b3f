/** The policy history table (SQLitePolicyVersionStore in pkg/runtime/sqlite_store.go) and
    the restart that goes through it. */
module PolicyStore {
  import opened GoStrings
  import opened LogTable
  import opened Policies

  datatype PolicyKey = PolicyKey(name: string, environment: string)

  type VersionTable = Table<PolicyKey, Record>

  function SplitKey(key: string): PolicyKey {
    var i := IndexByte(key, '/');
    if i < 0 then PolicyKey(key, "") else PolicyKey(key[..i], key[i + 1..])
  }

  function JoinKey(k: PolicyKey): string {
    k.name + "/" + k.environment
  }

  method SplitPolicyKey(key: string) returns (k: PolicyKey)
    ensures k == SplitKey(key)
    ensures '/' in key ==> JoinKey(k) == key && '/' !in k.name
  {
    for i := 0 to |key|
      invariant '/' !in key[..i]
    {
      if key[i] == '/' {
        k := PolicyKey(key[..i], key[i + 1..]);
        IndexByteAt(key[..i], '/', key[i + 1..]);
        assert key == key[..i] + "/" + key[i + 1..];
        return;
      }
    }
    assert key[..|key|] == key;
    return PolicyKey(key, "");
  }

  /** Splitting undoes joining for names without '/', and joining undoes splitting exactly for
      keys that hold one. */
  lemma SplitAndJoin(key: string, k: PolicyKey)
    ensures '/' !in k.name ==> SplitKey(JoinKey(k)) == k
    ensures '/' !in SplitKey(key).name
    ensures JoinKey(SplitKey(key)) == key <==> '/' in key
  {
    var joined := JoinKey(k);
    if '/' !in k.name {
      IndexByteAt(k.name, '/', k.environment);
      assert joined == k.name + ['/'] + k.environment;
      assert joined[..|k.name|] == k.name && joined[|k.name| + 1..] == k.environment;
    }
    var i := IndexByte(key, '/');
    if i >= 0 { assert key == key[..i] + "/" + key[i + 1..]; }
    assert JoinKey(SplitKey(key))[|SplitKey(key).name|] == '/';
  }

  /** Rows are keyed by the split key and the version a record carries. */
  function VersionRows(): Layout<string, PolicyKey, Record> {
    Layout(SplitKey, (r: Record, i: nat) => r.version)
  }

  class SqlitePolicyStore {
    var rows: VersionTable

    constructor ()
      ensures rows == map[]
    {
      rows := map[];
    }

    /** One transaction: clear, then insert; a primary key that is taken rolls it back. */
    method Save(versions: Histories) returns (ok: bool)
      modifies this
      ensures ok <==> Distinct(VersionRows(), versions, All(versions))
      ensures ok ==> Holds(VersionRows(), versions, rows, All(versions))
      ensures !ok ==> rows == old(rows)
    {
      var lay := VersionRows();
      var table: VersionTable := map[];
      ghost var done: iset<(string, int)> := iset{};
      var todo := versions.Keys;
      while todo != {}
        invariant todo <= versions.Keys && rows == old(rows)
        invariant Holds(lay, versions, table, done) && Distinct(lay, versions, done)
        invariant forall l, i :: (l, i) in done <==> Within(versions, l, i) && l !in todo
        decreases |todo|
      {
        var key :| key in todo;
        todo := todo - {key};
        var parts := SplitPolicyKey(key);
        var history := versions[key];
        hide Holds, Distinct, All, SplitKey;
        for i := 0 to |history|
          invariant rows == old(rows)
          invariant Holds(lay, versions, table, done) && Distinct(lay, versions, done)
          invariant forall m, j :: (m, j) in done <==> Within(versions, m, j) && m !in todo && (m == key ==> j < i)
        {
          var record := history[i];
          if (parts, record.version) in table {
            ClashFound(lay, versions, table, done, key, i);
            return false;
          }
          InsertKeeps(lay, versions, table, done, key, i);
          table := table[(parts, record.version) := record];
          done := done + iset{(key, i)};
        }
      }
      AllDone(lay, versions, table, done);
      rows := table;
      return true;
    }

    /** The rows the query hands over, appended under the joined key. */
    method Load(query: VersionTable -> seq<Row<PolicyKey, Record>>) returns (versions: Histories)
      ensures versions == Grouped(JoinKey, query(rows))
    {
      var answer := query(rows);
      versions := map[];
      assert answer[..0] == [];
      for i := 0 to |answer|
        invariant versions == Grouped(JoinKey, answer[..i])
      {
        GroupedSnoc(JoinKey, answer, i);
        var key := answer[i].key.name + "/" + answer[i].key.environment;
        assert key == JoinKey(answer[i].key);
        versions := versions[key := HistoryOf(versions, key) + [answer[i].value]];
      }
      assert answer[..|answer|] == answer;
    }
  }

  // ---------------------------------------------------------------- save, then load

  predicate VersionsIncrease(h: seq<Record>) {
    forall i, j :: 0 <= i < j < |h| ==> h[i].version < h[j].version
  }

  /** What the table can carry without loss. */
  predicate Lossless(versions: Histories) {
    forall key :: key in versions ==> '/' in key && versions[key] != [] && VersionsIncrease(versions[key])
  }

  lemma LosslessIsStorable(versions: Histories)
    ensures Lossless(versions) <==> Storable(VersionRows(), JoinKey, versions)
  {
    var lay := VersionRows();
    forall key | key in versions
      ensures StorableList(lay, JoinKey, key, versions[key]) <==>
              '/' in key && versions[key] != [] && VersionsIncrease(versions[key])
    {
      hide SplitKey, JoinKey;
      SplitAndJoin(key, SplitKey(key));
      var ns, h := Numbered(lay, versions[key]), versions[key];
      assert forall i :: 0 <= i < |h| ==> ns[i] == h[i].version;
    }
  }

  /** The histories come back from a scan of their rows, in whatever order the scan takes the
      keys, exactly when every key has a '/', none is empty and versions rise along each. */
  lemma ComesBackIffLossless(versions: Histories, table: VersionTable, scan: seq<Row<PolicyKey, Record>>)
    requires Holds(VersionRows(), versions, table, All(versions)) && IsScan(table, scan)
    ensures Grouped(JoinKey, scan) == versions <==> Lossless(versions)
  {
    hide SplitKey, JoinKey, Holds, IsScan, Grouped, All, Lossless;
    var lay := VersionRows();
    LosslessIsStorable(versions);
    if Lossless(versions) {
      SaveLoadIdentity(lay, JoinKey, versions, table, scan);
    }
    if Grouped(JoinKey, scan) == versions {
      forall m | m in versions ensures lay.split(JoinKey(lay.split(m))) == lay.split(m) { SplitAndJoin(m, SplitKey(m)); }
      forall key | key in versions ensures StorableList(lay, JoinKey, key, versions[key]) {
        OnlyStorableComesBack(lay, JoinKey, versions, table, scan, key);
      }
    }
  }

  /** Saving lossless histories cannot fail on a primary key. */
  lemma LosslessSaves(versions: Histories)
    requires Lossless(versions)
    ensures Distinct(VersionRows(), versions, All(versions))
  {
    LosslessIsStorable(versions);
    StorableIsDistinct(VersionRows(), JoinKey, versions);
  }

  // ---------------------------------------------------------------- every run

  lemma AlignedIsLossless(s: State)
    requires Aligned(s)
    ensures Lossless(s.versions)
  {
    hide TrimSpace;
    forall key | key in s.versions ensures '/' in key && s.versions[key] != [] && VersionsIncrease(s.versions[key]) {
      var h := s.versions[key];
      assert HistoryFits(key, h) && RecordFits(key, h, 0);
      assert key[|TrimSpace(h[0].policyName)|] == '/';
      forall i, j | 0 <= i < j < |h| ensures h[i].version < h[j].version {
        assert RecordFits(key, h, i) && RecordFits(key, h, j);
      }
    }
  }

  predicate NumberedFromOne(versions: Histories) {
    forall key :: key in versions ==>
      '/' in key && versions[key] != [] && forall i :: 0 <= i < |versions[key]| ==> versions[key][i].version == i + 1
  }

  /** A policy that is created is always filed as version 1. So saving after a Create succeeds
      exactly when its key has no history yet. */
  lemma CreateSavesIffKeyIsNew(s: State, p: Policy, actor: string, reason: string, at: real, saved: bool)
    requires NumberedFromOne(s.versions) && TrimSpace(actor) != "" && Refusal(s.policies, p, false).None?
    ensures var versions := Create(s, p, actor, reason, at, saved).state.versions;
            Distinct(VersionRows(), versions, All(versions)) <==> KeyOf(p.name, p.environment) !in s.versions
  {
    hide TrimSpace;
    var versions, key := Create(s, p, actor, reason, at, saved).state.versions, KeyOf(p.name, p.environment);
    var h := versions[key];
    if key !in s.versions {
      assert key[|TrimSpace(p.name)|] == '/';
      assert Lossless(versions);
      LosslessSaves(versions);
    } else {
      var n := |h| - 1;
      assert s.versions[key][0].version == 1 && h[0] == s.versions[key][0];
      assert (key, 0) in All(versions) && (key, n) in All(versions);
      assert RowKey(VersionRows(), versions, key, 0) == RowKey(VersionRows(), versions, key, n);
    }
  }

  ghost predicate Savable(versions: Histories) {
    Distinct(VersionRows(), versions, All(versions))
  }

  /** An accepted Create whose key has a history already. */
  predicate CreateMeets(s: State, op: Op) {
    op.CreateOp? && TrimSpace(op.actor) != "" && Refusal(s.policies, op.policy, false).None? &&
    KeyOf(op.policy.name, op.policy.environment) in s.versions
  }

  predicate SomeCreateMeets(ops: seq<Op>) {
    exists i :: 0 <= i < |ops| && MeetsAt(ops, i)
  }

  predicate MeetsAt(ops: seq<Op>, i: int)
    requires 0 <= i < |ops|
  {
    CreateMeets(Run(ops[..i]), ops[i])
  }

  lemma SomeCreateMeetsSnoc(ops: seq<Op>, op: Op)
    ensures SomeCreateMeets(ops + [op]) <==> SomeCreateMeets(ops) || CreateMeets(Run(ops), op)
  {
    var all := ops + [op];
    forall i | 0 <= i < |ops| ensures MeetsAt(all, i) <==> MeetsAt(ops, i) { assert all[..i] == ops[..i]; }
    assert all[..|ops|] == ops;
    assert MeetsAt(all, |ops|) <==> CreateMeets(Run(ops), op);
  }

  lemma KeyHasSlash(name: string, environment: string)
    ensures '/' in KeyOf(name, environment)
  {
    hide TrimSpace;
    assert KeyOf(name, environment)[|TrimSpace(name)|] == '/';
  }

  lemma AppendNumbers(versions: Histories, key: string, r: Record)
    requires NumberedFromOne(versions) && '/' in key && r.version == |HistoryOf(versions, key)| + 1
    ensures NumberedFromOne(versions[key := HistoryOf(versions, key) + [r]])
  {
  }

  lemma StepNumbers(s: State, op: Op)
    requires NumberedFromOne(s.versions) && !CreateMeets(s, op)
    ensures NumberedFromOne(Apply(s, op).state.versions)
  {
    hide TrimSpace, Refusal, Normalize, Activated, KeyOf, NumberedFromOne;
    var t := Apply(s, op).state.versions;
    if t != s.versions {
      var name, environment := if op.RollbackOp? then op.name else if op.CreateOp? then op.policy.name else Normalize(op.policy).name,
                               if op.RollbackOp? then op.environment else if op.CreateOp? then op.policy.environment
                               else Normalize(op.policy).environment;
      var key := KeyOf(name, environment);
      KeyHasSlash(name, environment);
      AppendNumbers(s.versions, key, t[key][|t[key]| - 1]);
    }
  }

  /** Histories that cannot be saved can never be saved again, as versions are permanent. */
  lemma NeverSavedAgain(ops: seq<Op>, more: seq<Op>)
    requires !Savable(Run(ops).versions)
    ensures !Savable(Run(ops + more).versions)
  {
    var lay, v, w := VersionRows(), Run(ops).versions, Run(ops + more).versions;
    var l, i, m, j :| (l, i) in All(v) && (m, j) in All(v) && Within(v, l, i) && Within(v, m, j) && (l != m || i != j) &&
                      RowKey(lay, v, l, i) == RowKey(lay, v, m, j);
    VersionsArePermanent(ops, more, l);
    VersionsArePermanent(ops, more, m);
    assert w[l][i] == v[l][i] && w[m][j] == v[m][j];
    assert (l, i) in All(w) && (m, j) in All(w);
    assert RowKey(lay, w, l, i) == RowKey(lay, w, m, j);
  }

  /** Over all runs: the histories can be saved exactly when no accepted Create ever met a key
      that had a history. */
  lemma {:induction false} SavableIffNoCreateMeets(ops: seq<Op>)
    ensures Savable(Run(ops).versions) <==> !SomeCreateMeets(ops)
    ensures !SomeCreateMeets(ops) ==> NumberedFromOne(Run(ops).versions)
  {
    if ops == [] {
      assert Lossless(Run(ops).versions);
      LosslessSaves(Run(ops).versions);
    } else {
      var front, op := ops[..|ops| - 1], ops[|ops| - 1];
      assert front + [op] == ops;
      SavableIffNoCreateMeets(front);
      SomeCreateMeetsSnoc(front, op);
      if SomeCreateMeets(front) {
        NeverSavedAgain(front, [op]);
      } else {
        SavableNext(Run(front), op);
        assert Run(ops) == Apply(Run(front), op).state;
      }
    }
  }

  lemma SavableNext(s: State, op: Op)
    requires NumberedFromOne(s.versions)
    ensures Savable(Apply(s, op).state.versions) <==> !CreateMeets(s, op)
    ensures !CreateMeets(s, op) ==> NumberedFromOne(Apply(s, op).state.versions)
  {
    if CreateMeets(s, op) {
      CreateSavesIffKeyIsNew(s, op.policy, op.actor, op.reason, op.at, op.saved);
    } else {
      StepNumbers(s, op);
      var t := Apply(s, op).state.versions;
      assert Lossless(t);
      LosslessSaves(t);
    }
  }

  /** Creating two policies whose different names share a key is accepted, and whatever is done
      later the histories can not be saved any more. */
  lemma SharedKeyIsNeverSaved(p: Policy, q: Policy, actor: string, reason: string, at: real, saved: bool, more: seq<Op>)
    requires KeyOf(p.name, p.environment) == KeyOf(q.name, q.environment) && TrimSpace(p.name) != TrimSpace(q.name)
    requires TrimSpace(p.name) != "" && TrimSpace(q.name) != "" && TrimSpace(p.service) != "" && TrimSpace(q.service) != ""
    requires TrimSpace(actor) != ""
    ensures var ops := [CreateOp(p, actor, reason, at, saved), CreateOp(q, actor, reason, at, saved)];
            && Run(ops).policies.Keys == {TrimSpace(p.name), TrimSpace(q.name)}
            && MeetsAt(ops, 1) && !Savable(Run(ops + more).versions)
  {
    hide TrimSpace, Normalize;
    var c, d := CreateOp(p, actor, reason, at, saved), CreateOp(q, actor, reason, at, saved);
    var ops := [c, d];
    assert ops[..1] == [c] && [c][..0] == [];
    assert Run([]) == State(map[], map[], map[]);
    assert Run([c]) == Create(State(map[], map[], map[]), p, actor, reason, at, saved).state;
    assert MeetsAt(ops, 1);
    SavableIffNoCreateMeets(ops);
    NeverSavedAgain(ops, more);
  }

  /** Such names exist as soon as one of them holds a '/'. */
  lemma SlashedNamesShareKey()
    ensures KeyOf("a/b", "c") == KeyOf("a", "b/c") && TrimSpace("a/b") != TrimSpace("a") && TrimSpace("a") != ""
  {
    assert !IsSpace('a') && !IsSpace('b') && !IsSpace('c');
    assert TrimSpace("a/b") == "a/b" && TrimSpace("c") == "c" && TrimSpace("a") == "a" && TrimSpace("b/c") == "b/c";
  }

  /** So the run that creates "a/b" for "c" and then "a" for "b/c" ends there. */
  lemma SlashedNamesAreNeverSaved(p: Policy, q: Policy, actor: string, reason: string, at: real, saved: bool, more: seq<Op>)
    requires p.name == "a/b" && p.environment == "c" && q.name == "a" && q.environment == "b/c"
    requires TrimSpace(p.service) != "" && TrimSpace(q.service) != "" && TrimSpace(actor) != ""
    ensures !Savable(Run([CreateOp(p, actor, reason, at, saved), CreateOp(q, actor, reason, at, saved)] + more).versions)
  {
    SlashedNamesShareKey();
    SharedKeyIsNeverSaved(p, q, actor, reason, at, saved, more);
  }

  /** After any run of policy operations, saving to the database succeeds, and a process that
      starts from the database has the same histories and the same active policies. */
  method RestartThroughDatabase(store: SqlitePolicyStore, query: VersionTable -> seq<Row<PolicyKey, Record>>,
                                versions: Histories, ghost ops: seq<Op>)
    returns (ok: bool, loaded: Histories, registry: RouteRegistry)
    requires forall op :: op in ops ==> PlainOp(op)
    requires forall t :: IsScan(t, query(t))
    requires versions == Run(ops).versions
    modifies store
    ensures ok && loaded == versions && registry.policies == Run(ops).policies
  {
    ghost var s := Run(ops);
    assert Aligned(s) by { EveryRunIsAligned(ops); }
    AlignedIsLossless(s);
    LosslessSaves(versions);
    ok := store.Save(versions);
    loaded := store.Load(query);
    ComesBackIffLossless(versions, store.rows, query(store.rows));
    registry := Rebuild(loaded, s.policies);
  }
}
