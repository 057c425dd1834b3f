/** A database table with primary key (key, number), how lists are saved into it row by row
    and how an ordered scan groups the rows back into lists. Both SQLite stores of
    pkg/runtime/sqlite_store.go work this way. */
module LogTable {
  datatype Row<K, V> = Row(key: K, number: int, value: V)

  type Table<!K(==), V> = map<(K, int), V>

  /** What a SELECT ... ORDER BY key, number hands over: every row once, the rows of one key
      by ascending number. (How different keys are ordered does not matter.) */
  ghost predicate IsScan<K, V>(table: Table<K, V>, rows: seq<Row<K, V>>) {
    (forall i :: 0 <= i < |rows| ==> RowOf(table, rows[i])) &&
    (forall key :: key in table ==> Row(key.0, key.1, table[key]) in rows) &&
    Ascending(rows)
  }

  ghost predicate RowOf<K, V>(table: Table<K, V>, r: Row<K, V>) {
    (r.key, r.number) in table && table[(r.key, r.number)] == r.value
  }

  ghost predicate Ascending<K, V>(rows: seq<Row<K, V>>) {
    forall i, j :: 0 <= i < j < |rows| && rows[i].key == rows[j].key ==> rows[i].number < rows[j].number
  }

  lemma {:induction false} ScanExists<K, V>(table: Table<K, V>) returns (rows: seq<Row<K, V>>)
    ensures IsScan(table, rows)
    decreases |table|
  {
    if table == map[] {
      rows := [];
    } else {
      var last := LargestNumber(table.Keys);
      var rest := table - {last};
      assert last in table.Keys && rest.Keys == table.Keys - {last};
      var front := ScanExists(rest);
      rows := ScanSnoc(table, last, front);
    }
  }

  lemma ScanAscends<K, V>(table: Table<K, V>, rows: seq<Row<K, V>>)
    requires IsScan(table, rows)
    ensures Ascending(rows)
  {
  }

  lemma ScanSnoc<K, V>(table: Table<K, V>, last: (K, int), front: seq<Row<K, V>>) returns (rows: seq<Row<K, V>>)
    requires last in table && (forall k :: k in table.Keys ==> k.1 <= last.1) && IsScan(table - {last}, front)
    ensures IsScan(table, rows)
  {
    var row := Row(last.0, last.1, table[last]);
    rows := front + [row];
    forall i | 0 <= i < |front| ensures RowOf(table, front[i]) && (front[i].key == last.0 ==> front[i].number < last.1) {
      BelowLast(table, last, front, i);
    }
    assert RowOf(table, row);
    assert forall i :: 0 <= i < |rows| ==> rows[i] == if i < |front| then front[i] else row;
    AscendingSnoc(front, row);
    forall key | key in table ensures Row(key.0, key.1, table[key]) in rows {
      if key != last {
        assert key in table - {last};
        assert Row(key.0, key.1, table[key]) in front;
      } else { assert rows[|front|] == row; }
    }
  }

  lemma BelowLast<K, V>(table: Table<K, V>, last: (K, int), front: seq<Row<K, V>>, i: nat)
    requires last in table && (forall k :: k in table.Keys ==> k.1 <= last.1) && IsScan(table - {last}, front) && i < |front|
    ensures RowOf(table, front[i]) && (front[i].key == last.0 ==> front[i].number < last.1)
  {
    assert RowOf(table - {last}, front[i]);
    var key := (front[i].key, front[i].number);
    assert key in table.Keys && key != last;
  }

  lemma AscendingSnoc<K, V>(front: seq<Row<K, V>>, row: Row<K, V>)
    requires Ascending(front) && forall i :: 0 <= i < |front| && front[i].key == row.key ==> front[i].number < row.number
    ensures Ascending(front + [row])
  {
  }

  lemma {:induction false} LargestNumber<K>(keys: set<(K, int)>) returns (m: (K, int))
    requires keys != {}
    ensures m in keys && forall k :: k in keys ==> k.1 <= m.1
  {
    m :| m in keys;
    if keys != {m} {
      var rest := keys - {m};
      var n := LargestNumber(rest);
      assert forall k :: k in keys ==> k == m || k in rest;
      if n.1 > m.1 { m := n; }
    }
  }

  // ---------------------------------------------------------------- saving

  /** Lists named by L, saved under keys split(l), each element numbered by num. */
  datatype Layout<!L, !K, !V> = Layout(split: L -> K, num: (V, nat) -> int)

  function RowKey<L, K, V>(lay: Layout<L, K, V>, g: map<L, seq<V>>, l: L, i: nat): (K, int)
    requires l in g && i < |g[l]|
  {
    (lay.split(l), lay.num(g[l][i], i))
  }

  predicate Within<L, V>(g: map<L, seq<V>>, l: L, i: int) {
    l in g && 0 <= i < |g[l]|
  }

  ghost function All<L(!new), V>(g: map<L, seq<V>>): iset<(L, int)> {
    iset l, i | Within(g, l, i) :: (l, i)
  }

  ghost predicate Stored<L, K, V>(lay: Layout<L, K, V>, g: map<L, seq<V>>, table: Table<K, V>, l: L, i: int) {
    Within(g, l, i) && RowKey(lay, g, l, i) in table && table[RowKey(lay, g, l, i)] == g[l][i]
  }

  ghost predicate Origin<L(!new), K, V>(lay: Layout<L, K, V>, g: map<L, seq<V>>, done: iset<(L, int)>, key: (K, int)) {
    exists l, i :: (l, i) in done && Within(g, l, i) && RowKey(lay, g, l, i) == key
  }

  /** The table holds exactly the rows of the given elements, (list, index) pairs of g. */
  ghost predicate Holds<L(!new), K, V>(lay: Layout<L, K, V>, g: map<L, seq<V>>, table: Table<K, V>, done: iset<(L, int)>) {
    (forall l, i :: (l, i) in done ==> Stored(lay, g, table, l, i)) &&
    forall key :: key in table ==> Origin(lay, g, done, key)
  }

  /** No two of the elements want one primary key. */
  ghost predicate Distinct<L(!new), K, V>(lay: Layout<L, K, V>, g: map<L, seq<V>>, done: iset<(L, int)>) {
    forall l, i, m, j :: (l, i) in done && (m, j) in done && Within(g, l, i) && Within(g, m, j) && (l != m || i != j)
      ==> RowKey(lay, g, l, i) != RowKey(lay, g, m, j)
  }

  lemma InsertKeeps<L(!new), K, V>(lay: Layout<L, K, V>, g: map<L, seq<V>>, table: Table<K, V>, done: iset<(L, int)>, l: L, i: nat)
    requires Holds(lay, g, table, done) && Distinct(lay, g, done) && Within(g, l, i) && RowKey(lay, g, l, i) !in table
    ensures Holds(lay, g, table[RowKey(lay, g, l, i) := g[l][i]], done + iset{(l, i)})
    ensures Distinct(lay, g, done + iset{(l, i)})
  {
    var more, next, k := done + iset{(l, i)}, table[RowKey(lay, g, l, i) := g[l][i]], RowKey(lay, g, l, i);
    forall m, j | (m, j) in more ensures Stored(lay, g, next, m, j) {
      if (m, j) in done { assert Stored(lay, g, table, m, j); }
    }
    forall key | key in next ensures Origin(lay, g, more, key) {
      if key == k {
        assert (l, i) in more;
      } else {
        assert Origin(lay, g, done, key);
        var m, j :| (m, j) in done && Within(g, m, j) && RowKey(lay, g, m, j) == key;
        assert (m, j) in more;
      }
    }
    forall m, j | (m, j) in done && Within(g, m, j) ensures RowKey(lay, g, m, j) != k {
      assert Stored(lay, g, table, m, j);
    }
  }

  lemma AllDone<L(!new), K, V>(lay: Layout<L, K, V>, g: map<L, seq<V>>, table: Table<K, V>, done: iset<(L, int)>)
    requires Holds(lay, g, table, done) && Distinct(lay, g, done) && forall l, i :: (l, i) in done <==> Within(g, l, i)
    ensures Holds(lay, g, table, All(g)) && Distinct(lay, g, All(g))
  {
    forall l, i | (l, i) in All(g) ensures Stored(lay, g, table, l, i) { assert (l, i) in done; }
    forall key | key in table ensures Origin(lay, g, All(g), key) {
      assert Origin(lay, g, done, key);
      var l, i :| (l, i) in done && Within(g, l, i) && RowKey(lay, g, l, i) == key;
      assert (l, i) in All(g);
    }
    forall l, i, m, j | Within(g, l, i) && Within(g, m, j) && (l != m || i != j) ensures RowKey(lay, g, l, i) != RowKey(lay, g, m, j) {
      assert (l, i) in done && (m, j) in done;
    }
  }

  lemma ClashFound<L(!new), K, V>(lay: Layout<L, K, V>, g: map<L, seq<V>>, table: Table<K, V>, done: iset<(L, int)>, l: L, i: nat)
    requires Holds(lay, g, table, done) && Within(g, l, i) && (l, i) !in done && RowKey(lay, g, l, i) in table
    ensures !Distinct(lay, g, All(g))
  {
    assert Origin(lay, g, done, RowKey(lay, g, l, i));
    var m, j :| (m, j) in done && Within(g, m, j) && RowKey(lay, g, m, j) == RowKey(lay, g, l, i);
    assert (m, j) in All(g) && (l, i) in All(g);
  }

  // ---------------------------------------------------------------- loading

  function Get<L, V>(g: map<L, seq<V>>, l: L): seq<V> {
    if l in g then g[l] else []
  }

  /** The rows appended, in scan order, to the list their key is joined into. */
  function Grouped<L(==), K, V>(join: K -> L, rows: seq<Row<K, V>>): map<L, seq<V>> {
    if rows == [] then map[]
    else
      var g, last := Grouped(join, rows[..|rows| - 1]), rows[|rows| - 1];
      g[join(last.key) := Get(g, join(last.key)) + [last.value]]
  }

  lemma GroupedSnoc<L, K, V>(join: K -> L, rows: seq<Row<K, V>>, i: nat)
    requires i < |rows|
    ensures var g := Grouped(join, rows[..i]);
            Grouped(join, rows[..i + 1]) == g[join(rows[i].key) := Get(g, join(rows[i].key)) + [rows[i].value]]
  {
    assert rows[..i + 1][..i] == rows[..i];
  }

  /** The rows of one list. */
  function Of<L(==), K, V>(join: K -> L, rows: seq<Row<K, V>>, l: L): seq<Row<K, V>> {
    if rows == [] then []
    else if join(rows[|rows| - 1].key) == l then Of(join, rows[..|rows| - 1], l) + [rows[|rows| - 1]]
    else Of(join, rows[..|rows| - 1], l)
  }

  function Values<K, V>(rows: seq<Row<K, V>>): (vs: seq<V>)
    ensures |vs| == |rows| && forall i :: 0 <= i < |rows| ==> vs[i] == rows[i].value
  {
    seq(|rows|, i requires 0 <= i < |rows| => rows[i].value)
  }

  lemma {:induction false} GroupedIsOf<L, K, V>(join: K -> L, rows: seq<Row<K, V>>, l: L)
    ensures l in Grouped(join, rows) <==> Of(join, rows, l) != []
    ensures l in Grouped(join, rows) ==> Grouped(join, rows)[l] == Values(Of(join, rows, l))
  {
    if rows != [] {
      var front, last := rows[..|rows| - 1], rows[|rows| - 1];
      GroupedIsOf(join, front, l);
      assert Values(Of(join, front, l) + [last]) == Values(Of(join, front, l)) + [last.value];
      assert Values<K, V>([]) == [];
    }
  }

  lemma {:induction false} OfMember<L, K, V>(join: K -> L, rows: seq<Row<K, V>>, l: L, r: Row<K, V>)
    ensures r in Of(join, rows, l) <==> r in rows && join(r.key) == l
  {
    if rows != [] {
      var front, last := rows[..|rows| - 1], rows[|rows| - 1];
      OfMember(join, front, l, r);
      assert r in rows <==> r in front || r == last;
    }
  }

  predicate Increasing(ns: seq<int>) {
    forall i, j :: 0 <= i < j < |ns| ==> ns[i] < ns[j]
  }

  function Numbers<K, V>(rows: seq<Row<K, V>>): (ns: seq<int>)
    ensures |ns| == |rows| && forall i :: 0 <= i < |rows| ==> ns[i] == rows[i].number
  {
    seq(|rows|, i requires 0 <= i < |rows| => rows[i].number)
  }

  /** The rows of one list come in ascending order when they all have one key. */
  lemma {:induction false} OfIncreasing<L, K, V>(join: K -> L, rows: seq<Row<K, V>>, l: L, k: K)
    requires Ascending(rows) && forall r :: r in rows && join(r.key) == l ==> r.key == k
    ensures Increasing(Numbers(Of(join, rows, l)))
  {
    if rows != [] {
      var front, last := rows[..|rows| - 1], rows[|rows| - 1];
      assert forall r :: r in front ==> r in rows;
      OfIncreasing(join, front, l, k);
      if join(last.key) == l {
        var own := Of(join, front, l);
        forall i | 0 <= i < |own| ensures own[i].number < last.number {
          OfMember(join, front, l, own[i]);
          var j :| 0 <= j < |front| && front[j] == own[i];
          assert last in rows && rows[j] == own[i] && own[i] in rows;
        }
        assert Numbers(own + [last]) == Numbers(own) + [last.number];
      }
    }
  }

  lemma FirstIsMember(b: seq<int>)
    ensures b == [] || b[0] in b
  {
  }

  /** Two ascending sequences with the same elements are the same. */
  lemma {:induction false} SameElementsSameOrder(a: seq<int>, b: seq<int>)
    requires Increasing(a) && Increasing(b) && forall n :: n in a <==> n in b
    ensures a == b
  {
    if a == [] {
      FirstIsMember(b);
    } else {
      var m, n := |a| - 1, |b| - 1;
      assert a[m] in b && b != [] && b[n] in a;
      assert a[m] == b[n];
      var fa, fb := a[..m], b[..n];
      forall x ensures x in fa <==> x in fb {
        assert x in fa ==> x in a && x != a[m];
        assert x in fb ==> x in b && x != b[n];
        assert x in a && x != a[m] ==> x in fa;
        assert x in b && x != b[n] ==> x in fb;
      }
      SameElementsSameOrder(fa, fb);
      assert a == fa + [a[m]] && b == fb + [b[n]];
    }
  }

  // ---------------------------------------------------------------- save, then load

  /** Numbers rise along every list, no list is empty, and join undoes split. */
  ghost predicate Storable<L, K, V>(lay: Layout<L, K, V>, join: K -> L, g: map<L, seq<V>>) {
    forall l :: l in g ==> StorableList(lay, join, l, g[l])
  }

  ghost predicate StorableList<L, K, V>(lay: Layout<L, K, V>, join: K -> L, l: L, xs: seq<V>) {
    join(lay.split(l)) == l && xs != [] && Increasing(Numbered(lay, xs))
  }

  lemma StorableAt<L, K, V>(lay: Layout<L, K, V>, join: K -> L, g: map<L, seq<V>>, l: L)
    requires Storable(lay, join, g) && l in g
    ensures join(lay.split(l)) == l && g[l] != []
  {
    assert StorableList(lay, join, l, g[l]);
  }

  function Numbered<L, K, V>(lay: Layout<L, K, V>, xs: seq<V>): (ns: seq<int>)
    ensures |ns| == |xs| && forall i :: 0 <= i < |xs| ==> ns[i] == lay.num(xs[i], i)
  {
    seq(|xs|, i requires 0 <= i < |xs| => lay.num(xs[i], i))
  }

  lemma StorableIsDistinct<L(!new), K, V>(lay: Layout<L, K, V>, join: K -> L, g: map<L, seq<V>>)
    requires Storable(lay, join, g)
    ensures Distinct(lay, g, All(g))
  {
    forall l, i, m, j | Within(g, l, i) && Within(g, m, j) && (l != m || i != j)
      ensures RowKey(lay, g, l, i) != RowKey(lay, g, m, j)
    {
      assert StorableList(lay, join, l, g[l]) && StorableList(lay, join, m, g[m]);
      var ns := Numbered(lay, g[l]);
      if l == m { assert ns[i] != ns[j]; }
    }
  }

  /** A scanned row is one of the elements of list l. */
  ghost predicate RowIn<L, K, V>(lay: Layout<L, K, V>, g: map<L, seq<V>>, l: L, r: Row<K, V>) {
    l in g && lay.split(l) == r.key && exists j :: Within(g, l, j) && lay.num(g[l][j], j) == r.number && g[l][j] == r.value
  }

  lemma RowHasElement<L(!new), K, V>(lay: Layout<L, K, V>, g: map<L, seq<V>>, table: Table<K, V>, rows: seq<Row<K, V>>, r: Row<K, V>)
    returns (l: L, i: nat)
    requires Holds(lay, g, table, All(g)) && IsScan(table, rows) && r in rows
    ensures Within(g, l, i) && RowKey(lay, g, l, i) == (r.key, r.number) && g[l][i] == r.value
  {
    var at :| 0 <= at < |rows| && rows[at] == r;
    assert RowOf(table, rows[at]);
    var key := (r.key, r.number);
    assert Origin(lay, g, All(g), key);
    l, i :| (l, i) in All(g) && Within(g, l, i) && RowKey(lay, g, l, i) == key;
    assert Stored(lay, g, table, l, i);
  }

  lemma RowHasOrigin<L(!new), K, V>(lay: Layout<L, K, V>, join: K -> L, g: map<L, seq<V>>, table: Table<K, V>, rows: seq<Row<K, V>>,
                                    r: Row<K, V>)
    requires Storable(lay, join, g) && Holds(lay, g, table, All(g)) && IsScan(table, rows) && r in rows
    ensures RowIn(lay, g, join(r.key), r)
  {
    var l, i := RowHasElement(lay, g, table, rows, r);
    StorableAt(lay, join, g, l);
  }

  lemma ElementHasRow<L(!new), K, V>(lay: Layout<L, K, V>, g: map<L, seq<V>>, table: Table<K, V>, rows: seq<Row<K, V>>, l: L, i: nat)
    requires Holds(lay, g, table, All(g)) && IsScan(table, rows) && Within(g, l, i)
    ensures Row(lay.split(l), lay.num(g[l][i], i), g[l][i]) in rows
  {
    assert (l, i) in All(g) && Stored(lay, g, table, l, i);
    var key := RowKey(lay, g, l, i);
    assert Row(key.0, key.1, table[key]) in rows;
  }

  /** The rows of list l carry exactly the numbers of its elements. */
  lemma SameNumbers<L(!new), K, V>(lay: Layout<L, K, V>, join: K -> L, g: map<L, seq<V>>, table: Table<K, V>, rows: seq<Row<K, V>>,
                                   l: L, n: int)
    requires Storable(lay, join, g) && Holds(lay, g, table, All(g)) && IsScan(table, rows) && l in g
    ensures n in Numbers(Of(join, rows, l)) <==> n in Numbered(lay, g[l])
  {
    hide IsScan, Holds, Of, Storable;
    var own, ns := Of(join, rows, l), Numbered(lay, g[l]);
    if n in Numbers(own) {
      var i :| 0 <= i < |own| && own[i].number == n;
      OfMember(join, rows, l, own[i]);
      RowHasOrigin(lay, join, g, table, rows, own[i]);
      var j :| Within(g, l, j) && lay.num(g[l][j], j) == n;
      assert ns[j] == n;
    }
    if n in ns {
      var i :| 0 <= i < |ns| && ns[i] == n;
      var row := Row(lay.split(l), n, g[l][i]);
      ElementHasRow(lay, g, table, rows, l, i);
      StorableAt(lay, join, g, l);
      OfMember(join, rows, l, row);
      var j :| 0 <= j < |own| && own[j] == row;
      assert Numbers(own)[j] == n;
    }
  }

  /** The scanned rows of list l are its elements, in list order. */
  lemma LoadsList<L(!new), K, V>(lay: Layout<L, K, V>, join: K -> L, g: map<L, seq<V>>, table: Table<K, V>, rows: seq<Row<K, V>>, l: L)
    requires Storable(lay, join, g) && Holds(lay, g, table, All(g)) && IsScan(table, rows) && l in g
    ensures Values(Of(join, rows, l)) == g[l]
  {
    hide Holds, Of;
    var own, ns := Of(join, rows, l), Numbered(lay, g[l]);
    assert StorableList(lay, join, l, g[l]);
    forall r | r in rows && join(r.key) == l ensures RowIn(lay, g, l, r) { RowHasOrigin(lay, join, g, table, rows, r); }
    OfIncreasing(join, rows, l, lay.split(l));
    forall n ensures n in Numbers(own) <==> n in ns { SameNumbers(lay, join, g, table, rows, l, n); }
    SameElementsSameOrder(Numbers(own), ns);
    forall i | 0 <= i < |own| ensures own[i].value == g[l][i] {
      OfMember(join, rows, l, own[i]);
      var j :| Within(g, l, j) && lay.num(g[l][j], j) == own[i].number && g[l][j] == own[i].value;
      assert ns[j] == Numbers(own)[i] == ns[i];
    }
  }

  /** Saving storable lists and loading them back, by any scan the database may give, is the
      identity. */
  lemma SaveLoadIdentity<L(!new), K, V>(lay: Layout<L, K, V>, join: K -> L, g: map<L, seq<V>>, table: Table<K, V>, rows: seq<Row<K, V>>)
    requires Storable(lay, join, g) && Holds(lay, g, table, All(g)) && IsScan(table, rows)
    ensures Grouped(join, rows) == g
  {
    hide Holds, IsScan, Of, Grouped, StorableList;
    var loaded := Grouped(join, rows);
    forall l ensures l in loaded <==> l in g {
      GroupedIsOf(join, rows, l);
      if l in g {
        LoadsList(lay, join, g, table, rows, l);
        StorableAt(lay, join, g, l);
        assert Values<K, V>([]) == [];
      }
      if l in loaded {
        OfMember(join, rows, l, Of(join, rows, l)[0]);
        RowHasOrigin(lay, join, g, table, rows, Of(join, rows, l)[0]);
      }
    }
    forall l | l in g ensures loaded[l] == g[l] {
      GroupedIsOf(join, rows, l);
      LoadsList(lay, join, g, table, rows, l);
    }
  }

  /** Conversely, when every element carries its own number, and split undoes join on the keys
      in use, lists that come back as they were are storable. */
  lemma OnlyStorableComesBack<L(!new), K, V(!new)>(lay: Layout<L, K, V>, join: K -> L, g: map<L, seq<V>>, table: Table<K, V>,
                                                  rows: seq<Row<K, V>>, l: L)
    requires Holds(lay, g, table, All(g)) && IsScan(table, rows) && Grouped(join, rows) == g && l in g
    requires forall m :: m in g ==> lay.split(join(lay.split(m))) == lay.split(m)
    requires forall v, i, j :: lay.num(v, i) == lay.num(v, j)
    ensures StorableList(lay, join, l, g[l])
  {
    hide IsScan, Holds, Of, Grouped;
    var own, xs := Of(join, rows, l), g[l];
    GroupedIsOf(join, rows, l);
    forall r | r in rows && join(r.key) == l ensures r.key == lay.split(l) && forall i :: lay.num(r.value, i) == r.number {
      var m, i := RowHasElement(lay, g, table, rows, r);
    }
    ScanAscends(table, rows);
    OfIncreasing(join, rows, l, lay.split(l));
    forall i | 0 <= i < |own| ensures join(lay.split(l)) == l && Numbered(lay, xs)[i] == Numbers(own)[i] {
      OfMember(join, rows, l, own[i]);
    }
    assert own != [];
    OfMember(join, rows, l, own[0]);
  }
}
