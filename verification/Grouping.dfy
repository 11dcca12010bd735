/**
  The accumulation every read model shares: one pass over the rows, a JavaScript `Map` from a key
  to running totals, and one item per key in the order the keys first appeared. The groups share
  out exactly what the rows add up to.
 */
module Grouping {
  import opened Platforms

  /** A JavaScript `Map`: lookups by key, iteration in insertion order. */
  class OrderedMap<K(==), V> {
    var keys: seq<K>
    var values: map<K, V>

    constructor ()
      ensures Valid() && keys == [] && values == map[]
    {
      keys, values := [], map[];
    }

    ghost predicate Valid()
      reads this
    {
      && Distinct(keys)
      && (forall i | 0 <= i < |keys| :: keys[i] in values)
      && (forall k | k in values :: k in keys)
    }

    function Get(k: K): Option<V>
      reads this
    {
      if k in values then Some(values[k]) else None
    }

    method Set(k: K, v: V)
      requires Valid()
      modifies this
      ensures Valid()
      ensures values == old(values)[k := v]
      ensures keys == Seen(old(keys), k)
    {
      if k !in values {
        keys := keys + [k];
      }
      values := values[k := v];
    }

    /** `[...groups.values()]`. */
    function Values(): (r: seq<V>)
      requires Valid()
      reads this
      ensures |r| == |keys| && forall i | 0 <= i < |keys| :: r[i] == values[keys[i]]
    {
      seq(|keys|, i requires 0 <= i < |keys| reads this requires keys[i] in values => values[keys[i]])
    }
  }

  ghost predicate Distinct<K>(ks: seq<K>) {
    forall i, j | 0 <= i < j < |ks| :: ks[i] != ks[j]
  }

  /** The rows that satisfy `p`, in their order. */
  function Filter<R>(p: R -> bool, rows: seq<R>): seq<R> {
    if rows == [] then [] else
    var kept := Filter(p, rows[..|rows| - 1]);
    if p(rows[|rows| - 1]) then kept + [rows[|rows| - 1]] else kept
  }

  lemma {:induction false} FilterCount<R>(p: R -> bool, rows: seq<R>, r: R)
    ensures multiset(Filter(p, rows))[r] == if p(r) then multiset(rows)[r] else 0
  {
    if rows != [] {
      var n := |rows| - 1;
      FilterCount(p, rows[..n], r);
      assert rows == rows[..n] + [rows[n]];
    }
  }

  lemma {:induction false} FilterIn<R>(p: R -> bool, rows: seq<R>)
    ensures forall r :: r in Filter(p, rows) <==> r in rows && p(r)
  {
    if rows != [] {
      FilterIn(p, rows[..|rows| - 1]);
    }
  }

  lemma {:induction false} FilterAll<R>(p: R -> bool, rows: seq<R>)
    requires forall i | 0 <= i < |rows| :: p(rows[i])
    ensures Filter(p, rows) == rows
  {
    if rows != [] {
      FilterAll(p, rows[..|rows| - 1]);
    }
  }

  /** The sum of one field over all rows. */
  function Column<R>(rows: seq<R>, field: R -> int): int {
    if rows == [] then 0 else Column(rows[..|rows| - 1], field) + field(rows[|rows| - 1])
  }

  function Seen<K(==)>(ks: seq<K>, k: K): seq<K> {
    if k in ks then ks else ks + [k]
  }

  // ---------------------------------------------------------------- what a breakdown computes

  /** How totals add up. */
  datatype Monoid<!T> = Monoid(zero: T, plus: (T, T) -> T)

  ghost predicate LawAt<T>(m: Monoid<T>, a: T, b: T, c: T) {
    && m.plus(m.zero, a) == a
    && m.plus(m.plus(a, b), c) == m.plus(m.plus(a, c), b) == m.plus(a, m.plus(b, c))
  }

  /** Addition is commutative and associative, and zero is neutral. */
  ghost predicate Lawful<T(!new)>(m: Monoid<T>) {
    forall a, b, c {:trigger LawAt(m, a, b, c)} :: LawAt(m, a, b, c)
  }

  /** A breakdown: the group of a row, the label the group takes from its first row, its amounts. */
  datatype Breakdown<!R, !K, !S, !T> = Breakdown(m: Monoid<T>, key: R -> K, seed: R -> S, amounts: R -> T)

  datatype Item<S, T> = Item(seed: S, totals: T)

  function Keys<R, K(==)>(rows: seq<R>, key: R -> K): seq<K> {
    if rows == [] then [] else Seen(Keys(rows[..|rows| - 1], key), key(rows[|rows| - 1]))
  }

  function First<R, K(==)>(rows: seq<R>, key: R -> K, k: K): R
    requires k in Keys(rows, key)
  {
    var init := rows[..|rows| - 1];
    if k in Keys(init, key) then First(init, key, k) else rows[|rows| - 1]
  }

  /** The amounts of the rows with key `k`, added in order. */
  function Group<R, K(==), S, T>(b: Breakdown<R, K, S, T>, rows: seq<R>, k: K): T {
    if rows == [] then b.m.zero else
    var sum := Group(b, rows[..|rows| - 1], k);
    var last := rows[|rows| - 1];
    if b.key(last) == k then b.m.plus(sum, b.amounts(last)) else sum
  }

  function ItemOf<R, K(==), S, T>(b: Breakdown<R, K, S, T>, rows: seq<R>, k: K): Item<S, T>
    requires k in Keys(rows, b.key)
  {
    Item(b.seed(First(rows, b.key, k)), Group(b, rows, k))
  }

  /** One item per key: its first row's label, and the sum of all its rows. */
  function Items<R, K(==), S, T>(b: Breakdown<R, K, S, T>, rows: seq<R>): seq<Item<S, T>> {
    var keys := Keys(rows, b.key);
    seq(|keys|, i requires 0 <= i < |keys| => ItemOf(b, rows, keys[i]))
  }

  lemma {:induction false} KeysAre<R, K>(rows: seq<R>, key: R -> K)
    ensures Distinct(Keys(rows, key))
    ensures forall i | 0 <= i < |rows| :: key(rows[i]) in Keys(rows, key)
    ensures forall k | k in Keys(rows, key) :: exists i :: 0 <= i < |rows| && key(rows[i]) == k
  {
    if rows != [] {
      KeysAre(rows[..|rows| - 1], key);
    }
  }

  /** Keys stand in the order of their first rows. */
  lemma {:induction false} KeysInOrder<R, K>(rows: seq<R>, key: R -> K, a: nat, b: nat) returns (i: nat)
    requires a < b < |Keys(rows, key)|
    ensures i < |rows| && key(rows[i]) == Keys(rows, key)[a]
    ensures forall j | 0 <= j < |rows| && key(rows[j]) == Keys(rows, key)[b] :: i < j
  {
    var n := |rows| - 1;
    var before := Keys(rows[..n], key);
    KeysAre(rows, key);
    if b < |before| {
      i := KeysInOrder(rows[..n], key, a, b);
    } else {
      KeysAre(rows[..n], key);
      assert before[a] in before;
      i :| 0 <= i < n && key(rows[..n][i]) == before[a];
      forall j | 0 <= j < n ensures key(rows[j]) != key(rows[n]) {
        assert key(rows[..n][j]) in before;
      }
    }
  }

  /** Lists whose rows have the same keys, place by place, have the same keys. */
  lemma {:induction false} KeysByKey<R, K>(xs: seq<R>, ys: seq<R>, key: R -> K)
    requires |xs| == |ys| && forall k | 0 <= k < |xs| :: key(xs[k]) == key(ys[k])
    ensures Keys(xs, key) == Keys(ys, key)
  {
    if xs != [] {
      KeysByKey(xs[..|xs| - 1], ys[..|ys| - 1], key);
    }
  }

  /** Where the first row of a key stands. */
  lemma {:induction false} FirstIndex<R, K>(rows: seq<R>, key: R -> K, k: K) returns (i: nat)
    requires k in Keys(rows, key)
    ensures i < |rows| && rows[i] == First(rows, key, k) && key(rows[i]) == k
    ensures forall j | 0 <= j < i :: key(rows[j]) != k
  {
    var n := |rows| - 1;
    if k in Keys(rows[..n], key) {
      i := FirstIndex(rows[..n], key, k);
    } else {
      i := n;
      SeenEarlier(rows[..n], key, k);
      assert forall j | 0 <= j < n :: rows[..n][j] == rows[j];
    }
  }

  // ---------------------------------------------------------------- the pass

  /** Adds one row into the group named by its key, creating the group on first sight. */
  method Accumulate<R, K(==), S, T>(b: Breakdown<R, K, S, T>, groups: OrderedMap<K, Item<S, T>>, row: R)
    requires groups.Valid()
    modifies groups
    ensures groups.Valid()
    ensures groups.keys == Seen(old(groups.keys), b.key(row))
    ensures var before := if b.key(row) in old(groups.values) then old(groups.values)[b.key(row)]
                          else Item(b.seed(row), b.m.zero);
            groups.values
            == old(groups.values)[b.key(row) := before.(totals := b.m.plus(before.totals, b.amounts(row)))]
  {
    var existing := match groups.Get(b.key(row))
                    case None => Item(b.seed(row), b.m.zero)
                    case Some(item) => item;
    groups.Set(b.key(row), existing.(totals := b.m.plus(existing.totals, b.amounts(row))));
  }

  method BreakDown<R, K(==), S, T>(b: Breakdown<R, K, S, T>, rows: seq<R>) returns (items: seq<Item<S, T>>)
    ensures items == Items(b, rows)
  {
    var groups := new OrderedMap<K, Item<S, T>>();
    for n := 0 to |rows|
      invariant fresh(groups) && groups.Valid()
      invariant groups.keys == Keys(rows[..n], b.key)
      invariant forall k | k in groups.keys :: groups.values[k] == ItemOf(b, rows[..n], k)
    {
      assert rows[..n + 1][..n] == rows[..n];
      AbsentIsZero(b, rows[..n], b.key(rows[n]));
      Accumulate(b, groups, rows[n]);
    }
    assert rows[..|rows|] == rows;
    items := groups.Values();
  }

  lemma {:induction false} AbsentIsZero<R, K, S, T>(b: Breakdown<R, K, S, T>, rows: seq<R>, k: K)
    ensures k !in Keys(rows, b.key) ==> Group(b, rows, k) == b.m.zero
  {
    if rows != [] {
      AbsentIsZero(b, rows[..|rows| - 1], k);
    }
  }

  // ---------------------------------------------------------------- conservation

  /** The amounts of the rows whose label satisfies `pick`. */
  function Total<R, K, S, T>(b: Breakdown<R, K, S, T>, rows: seq<R>, pick: S -> bool): T {
    if rows == [] then b.m.zero else
    var sum := Total(b, rows[..|rows| - 1], pick);
    var last := rows[|rows| - 1];
    if pick(b.seed(last)) then b.m.plus(sum, b.amounts(last)) else sum
  }

  /** The totals of the items whose label satisfies `pick`. */
  function Over<S, T>(m: Monoid<T>, items: seq<Item<S, T>>, pick: S -> bool): T {
    if items == [] then m.zero else
    var sum := Over(m, items[..|items| - 1], pick);
    var last := items[|items| - 1];
    if pick(last.seed) then m.plus(sum, last.totals) else sum
  }

  /** Rows of one group are all picked or all left. */
  ghost predicate KeyFixes<R, K, S, T>(b: Breakdown<R, K, S, T>, rows: seq<R>, pick: S -> bool) {
    forall i, j | 0 <= i < |rows| && 0 <= j < |rows| && b.key(rows[i]) == b.key(rows[j]) ::
      pick(b.seed(rows[i])) == pick(b.seed(rows[j]))
  }

  lemma {:induction false} FirstIsARow<R, K>(rows: seq<R>, key: R -> K, k: K)
    requires k in Keys(rows, key)
    ensures exists i :: 0 <= i < |rows| && rows[i] == First(rows, key, k) && key(rows[i]) == k
  {
    var init := rows[..|rows| - 1];
    if k in Keys(init, key) {
      FirstIsARow(init, key, k);
      var i :| 0 <= i < |init| && init[i] == First(init, key, k) && key(init[i]) == k;
      assert rows[i] == init[i];
    } else {
      assert key(rows[|rows| - 1]) == k;
    }
  }

  /** Adding to one item adds to the sum if that item is picked. */
  lemma {:induction false} OverBump<S, T(!new)>(m: Monoid<T>, items: seq<Item<S, T>>, pick: S -> bool, i: nat, a: T)
    requires Lawful(m) && i < |items|
    ensures Over(m, items[i := items[i].(totals := m.plus(items[i].totals, a))], pick)
         == if pick(items[i].seed) then m.plus(Over(m, items, pick), a) else Over(m, items, pick)
  {
    var bumped := items[i := items[i].(totals := m.plus(items[i].totals, a))];
    var n := |items| - 1;
    var sum, t := Over(m, items[..n], pick), items[n].totals;
    assert LawAt(m, sum, t, a);
    if i == n {
      assert bumped[..n] == items[..n];
    } else {
      OverBump(m, items[..n], pick, i, a);
      assert bumped[..n] == items[..n][i := items[i].(totals := m.plus(items[i].totals, a))];
    }
  }

  /** One more row: it opens a new item or adds to the item of its key, and no other item moves. */
  lemma OneMoreRow<R, K, S, T>(b: Breakdown<R, K, S, T>, rows: seq<R>) returns (i: nat)
    requires rows != []
    ensures var before, last := rows[..|rows| - 1], rows[|rows| - 1];
            var was, k := Items(b, before), b.key(last);
            if k in Keys(before, b.key) then
              && i < |was| && Keys(before, b.key)[i] == k
              && Items(b, rows) == was[i := was[i].(totals := b.m.plus(was[i].totals, b.amounts(last)))]
            else Items(b, rows) == was + [Item(b.seed(last), b.m.plus(b.m.zero, b.amounts(last)))]
  {
    var before, last := rows[..|rows| - 1], rows[|rows| - 1];
    var k, keys := b.key(last), Keys(before, b.key);
    KeysAre(before, b.key);
    if k in keys {
      i :| 0 <= i < |keys| && keys[i] == k;
    } else {
      i := 0;
      AbsentIsZero(b, before, k);
    }
  }

  /** No row is lost, counted twice, or counted under another label. */
  lemma {:induction false} Conserved<R, K, S, T(!new)>(b: Breakdown<R, K, S, T>, rows: seq<R>, pick: S -> bool)
    requires Lawful(b.m) && KeyFixes(b, rows, pick)
    ensures Over(b.m, Items(b, rows), pick) == Total(b, rows, pick)
  {
    if rows != [] {
      var before, last := rows[..|rows| - 1], rows[|rows| - 1];
      Conserved(b, before, pick);
      var i := OneMoreRow(b, rows);
      var k := b.key(last);
      if k in Keys(before, b.key) {
        FirstIsARow(before, b.key, k);
        OverBump(b.m, Items(b, before), pick, i, b.amounts(last));
      } else {
        assert Items(b, rows)[..|Items(b, before)|] == Items(b, before);
        assert LawAt(b.m, b.amounts(last), b.m.zero, b.m.zero);
      }
    }
  }

  // ---------------------------------------------------------------- one tag at a time

  /** The labels that carry tag `c`. */
  function Tagged<S, C(==)>(tagOf: S -> C, c: C): S -> bool {
    s => tagOf(s) == c
  }

  /** The breakdown by the tag itself. */
  function ByTag<R, C, T>(m: Monoid<T>, tag: R -> C, amounts: R -> T): Breakdown<R, C, C, T> {
    Breakdown(m, tag, tag, amounts)
  }

  /** Labels carry their rows' tag, and rows that share a key share the tag. */
  ghost predicate KeyFixesTag<R, K, S, T, C>(b: Breakdown<R, K, S, T>, tag: R -> C, tagOf: S -> C, rows: seq<R>) {
    && (forall i | 0 <= i < |rows| :: tagOf(b.seed(rows[i])) == tag(rows[i]))
    && (forall i, j | 0 <= i < |rows| && 0 <= j < |rows| && b.key(rows[i]) == b.key(rows[j]) ::
          tag(rows[i]) == tag(rows[j]))
  }

  lemma {:induction false} TotalOfTag<R, K, S, T, C>(b: Breakdown<R, K, S, T>, tag: R -> C, tagOf: S -> C,
      rows: seq<R>, c: C)
    requires forall i | 0 <= i < |rows| :: tagOf(b.seed(rows[i])) == tag(rows[i])
    ensures Total(b, rows, Tagged(tagOf, c)) == Group(ByTag(b.m, tag, b.amounts), rows, c)
  {
    if rows != [] {
      TotalOfTag(b, tag, tagOf, rows[..|rows| - 1], c);
    }
  }

  /** Tag by tag, a finer breakdown adds up to the breakdown by tag. */
  lemma RefinesTag<R, K, S, T(!new), C>(b: Breakdown<R, K, S, T>, tag: R -> C, tagOf: S -> C, rows: seq<R>, c: C)
    requires Lawful(b.m) && KeyFixesTag(b, tag, tagOf, rows)
    ensures Over(b.m, Items(b, rows), Tagged(tagOf, c)) == Group(ByTag(b.m, tag, b.amounts), rows, c)
  {
    Conserved(b, rows, Tagged(tagOf, c));
    TotalOfTag(b, tag, tagOf, rows, c);
  }

  lemma {:induction false} FirstHasKey<R, K>(rows: seq<R>, key: R -> K, k: K)
    requires k in Keys(rows, key)
    ensures key(First(rows, key, k)) == k
  {
    FirstIsARow(rows, key, k);
  }

  /** The breakdown by tag has one item per tag that occurs, holding that tag's group. */
  lemma OneItemPerTag<R, T, C>(m: Monoid<T>, tag: R -> C, amounts: R -> T, rows: seq<R>, c: C)
    ensures var items := Items(ByTag(m, tag, amounts), rows);
            (exists r :: r in rows && tag(r) == c) ==>
              exists i :: 0 <= i < |items| && items[i] == Item(c, Group(ByTag(m, tag, amounts), rows, c))
                && forall j | 0 <= j < |items| && items[j].seed == c :: j == i
  {
    var b, keys := ByTag(m, tag, amounts), Keys(rows, tag);
    var items := Items(b, rows);
    KeysAre(rows, tag);
    forall i | 0 <= i < |keys| ensures items[i].seed == keys[i] {
      FirstHasKey(rows, tag, keys[i]);
    }
    if r :| r in rows && tag(r) == c {
      var n :| 0 <= n < |rows| && rows[n] == r;
      assert tag(rows[n]) in keys;
      var i :| 0 <= i < |keys| && keys[i] == c;
      assert items[i] == Item(c, Group(b, rows, c));
    }
  }

  // ---------------------------------------------------------------- keys that stand for labels

  /** Two rows share a key exactly when they carry the same label. */
  ghost predicate KeyIsLabel<R, K, S, T>(b: Breakdown<R, K, S, T>, rows: seq<R>) {
    forall i, j | 0 <= i < |rows| && 0 <= j < |rows| ::
      b.key(rows[i]) == b.key(rows[j]) <==> b.seed(rows[i]) == b.seed(rows[j])
  }

  lemma SeenEarlier<R, K>(rows: seq<R>, key: R -> K, k: K)
    ensures k in Keys(rows, key) <==> exists i :: 0 <= i < |rows| && key(rows[i]) == k
  {
    KeysAre(rows, key);
  }

  /** Against one more row, an earlier row has its key exactly when it has its label. */
  lemma KeyOrLabel<R, K, S, T>(b: Breakdown<R, K, S, T>, before: seq<R>, last: R, i: nat)
    requires KeyIsLabel(b, before + [last]) && i < |before|
    ensures b.key(before[i]) == b.key(last) <==> b.seed(before[i]) == b.seed(last)
  {
    var rows := before + [last];
    assert rows[i] == before[i] && rows[|before|] == last;
  }

  /** A key seen before is a label seen before. */
  lemma SeenAlike<R, K, S, T>(b: Breakdown<R, K, S, T>, before: seq<R>, last: R)
    requires KeyIsLabel(b, before + [last])
    ensures b.key(last) in Keys(before, b.key) <==> b.seed(last) in Keys(before, b.seed)
  {
    SeenEarlier(before, b.key, b.key(last));
    SeenEarlier(before, b.seed, b.seed(last));
    forall i | 0 <= i < |before| ensures b.key(before[i]) == b.key(last) <==> b.seed(before[i]) == b.seed(last) {
      KeyOrLabel(b, before, last, i);
    }
  }

  /** And at the same place. */
  lemma SamePlace<R, K, S, T>(b: Breakdown<R, K, S, T>, before: seq<R>, last: R, i: nat)
    requires KeyIsLabel(b, before + [last])
    requires Items(b, before) == Items(ByTag(b.m, b.seed, b.amounts), before)
    requires i < |Keys(before, b.key)| && Keys(before, b.key)[i] == b.key(last)
    ensures i < |Keys(before, b.seed)| && Keys(before, b.seed)[i] == b.seed(last)
  {
    var k, labels := b.key(last), Keys(before, b.seed);
    FirstIsARow(before, b.key, k);
    var n :| 0 <= n < |before| && before[n] == First(before, b.key, k) && b.key(before[n]) == k;
    KeyOrLabel(b, before, last, n);
    assert Items(b, before)[i].seed == b.seed(last);
    FirstHasKey(before, b.seed, labels[i]);
  }

  /** Then grouping by the key is grouping by the label itself. */
  lemma {:induction false} GroupsByLabel<R, K, S, T>(b: Breakdown<R, K, S, T>, rows: seq<R>)
    requires KeyIsLabel(b, rows)
    ensures Items(b, rows) == Items(ByTag(b.m, b.seed, b.amounts), rows)
  {
    if rows != [] {
      var before, last := rows[..|rows| - 1], rows[|rows| - 1];
      var t := ByTag(b.m, b.seed, b.amounts);
      assert rows == before + [last];
      GroupsByLabel(b, before);
      SeenAlike(b, before, last);
      var i := OneMoreRow(b, rows);
      var j := OneMoreRow(t, rows);
      if b.key(last) in Keys(before, b.key) {
        SamePlace(b, before, last, i);
        KeysAre(before, b.seed);
        assert i == j;
      }
    }
  }

  /** Every label that occurs has exactly one item, holding the sum of the rows that carry the label. */
  lemma OneItemPerLabel<R, K, S, T>(b: Breakdown<R, K, S, T>, rows: seq<R>, r: R)
    requires KeyIsLabel(b, rows) && r in rows
    ensures var items := Items(b, rows);
            exists i :: 0 <= i < |items|
              && items[i] == Item(b.seed(r), Group(ByTag(b.m, b.seed, b.amounts), rows, b.seed(r)))
              && forall j | 0 <= j < |items| && items[j].seed == b.seed(r) :: j == i
  {
    GroupsByLabel(b, rows);
    OneItemPerTag(b.m, b.seed, b.amounts, rows, b.seed(r));
  }

  /** If the items were those of the labels, the item showing a row's label would be its key's. */
  lemma ItemFor<R, K, S, T>(b: Breakdown<R, K, S, T>, rows: seq<R>, i: nat) returns (a: nat)
    requires i < |rows| && Items(b, rows) == Items(ByTag(b.m, b.seed, b.amounts), rows)
    requires forall j | 0 <= j < |rows| :: b.seed(rows[j]) == b.seed(rows[i]) ==> b.key(rows[j]) == b.key(rows[i])
    ensures a < |Keys(rows, b.key)| && Keys(rows, b.key)[a] == b.key(rows[i])
    ensures Items(b, rows)[a].seed == b.seed(rows[i])
  {
    var items, keys := Items(b, rows), Keys(rows, b.key);
    assert rows[i] in rows;
    OneItemPerTag(b.m, b.seed, b.amounts, rows, b.seed(rows[i]));
    a :| 0 <= a < |items| && items[a].seed == b.seed(rows[i]);
    FirstIsARow(rows, b.key, keys[a]);
  }

  /** Two rows with one key and two labels: the items cannot be those of the labels. */
  lemma LabelsNeedKeys<R, K, S, T>(b: Breakdown<R, K, S, T>, rows: seq<R>, i: nat, j: nat)
    requires i < |rows| && j < |rows|
    requires b.key(rows[i]) == b.key(rows[j]) && b.seed(rows[i]) != b.seed(rows[j])
    requires forall x, y | 0 <= x < |rows| && 0 <= y < |rows| ::
      b.seed(rows[x]) == b.seed(rows[y]) ==> b.key(rows[x]) == b.key(rows[y])
    ensures Items(b, rows) != Items(ByTag(b.m, b.seed, b.amounts), rows)
  {
    if Items(b, rows) == Items(ByTag(b.m, b.seed, b.amounts), rows) {
      var x := ItemFor(b, rows, i);
      var y := ItemFor(b, rows, j);
      KeysAre(rows, b.key);
    }
  }

  // ---------------------------------------------------------------- the order of the rows

  /** Taking one row out takes its amounts out of its group. */
  lemma {:induction false} GroupWithout<R, K, S, T(!new)>(b: Breakdown<R, K, S, T>, rows: seq<R>, i: nat, k: K)
    requires Lawful(b.m) && i < |rows|
    ensures var rest := Group(b, rows[..i] + rows[i + 1..], k);
            Group(b, rows, k) == if b.key(rows[i]) == k then b.m.plus(rest, b.amounts(rows[i])) else rest
  {
    var n := |rows| - 1;
    if i == n {
      assert rows[..i] + rows[i + 1..] == rows[..n];
    } else {
      var init := rows[..n];
      var rest, without := init[..i] + init[i + 1..], rows[..i] + rows[i + 1..];
      GroupWithout(b, init, i, k);
      assert without[..|without| - 1] == rest && without[|without| - 1] == rows[n];
      var sum, x, y := Group(b, rest, k), b.amounts(rows[i]), b.amounts(rows[n]);
      assert LawAt(b.m, sum, x, y);
    }
  }

  lemma {:induction false} DistinctCount<K>(ks: seq<K>, k: K)
    requires Distinct(ks)
    ensures multiset(ks)[k] == if k in ks then 1 else 0
  {
    if ks != [] {
      var n := |ks| - 1;
      DistinctCount(ks[..n], k);
      assert ks == ks[..n] + [ks[n]];
    }
  }

  /** Two lists without repetition and with the same members differ in order only. */
  lemma SameMultiset<K>(ks: seq<K>, ls: seq<K>)
    requires Distinct(ks) && Distinct(ls)
    requires forall k :: k in ks <==> k in ls
    ensures multiset(ks) == multiset(ls)
  {
    forall k ensures multiset(ks)[k] == multiset(ls)[k] {
      DistinctCount(ks, k);
      DistinctCount(ls, k);
    }
  }

  lemma MultisetWithout<R>(rows: seq<R>, i: nat)
    requires i < |rows|
    ensures multiset(rows[..i] + rows[i + 1..]) == multiset(rows) - multiset{rows[i]}
  {
    assert rows == rows[..i] + ([rows[i]] + rows[i + 1..]);
    assert multiset([rows[i]] + rows[i + 1..]) == multiset{rows[i]} + multiset(rows[i + 1..]);
  }

  /** Two rows exchanged. */
  function Swapped<R>(rows: seq<R>, i: nat, j: nat): (r: seq<R>)
    requires i < |rows| && j < |rows|
    ensures |r| == |rows| && r[i] == rows[j] && r[j] == rows[i]
    ensures forall k | 0 <= k < |rows| && k != i && k != j :: r[k] == rows[k]
    ensures multiset(r) == multiset(rows)
  {
    rows[i := rows[j]][j := rows[i]]
  }

  function Mapped<R, S>(f: R -> S, rows: seq<R>): (r: seq<S>)
    ensures |r| == |rows| && forall i | 0 <= i < |rows| :: r[i] == f(rows[i])
  {
    seq(|rows|, i requires 0 <= i < |rows| => f(rows[i]))
  }

  /** Mapping a reordered list reorders the mapped list. */
  lemma {:induction false} MappedPermuted<R, S>(f: R -> S, xs: seq<R>, ys: seq<R>)
    requires multiset(xs) == multiset(ys)
    ensures multiset(Mapped(f, xs)) == multiset(Mapped(f, ys))
    decreases |xs|
  {
    assert |xs| == |multiset(xs)| == |multiset(ys)| == |ys|;
    if xs != [] {
      var n := |xs| - 1;
      assert xs == xs[..n] + [xs[n]];
      assert xs[n] in multiset(ys);
      var i :| 0 <= i < |ys| && ys[i] == xs[n];
      var rest := ys[..i] + ys[i + 1..];
      MultisetWithout(ys, i);
      assert multiset(xs[..n]) == multiset(xs) - multiset{xs[n]} == multiset(rest);
      MappedPermuted(f, xs[..n], rest);
      MappedWithout(f, ys, i);
      MappedWithout(f, xs, n);
      assert xs[..n] + xs[n + 1..] == xs[..n];
    }
  }

  lemma MappedWithout<R, S>(f: R -> S, rows: seq<R>, i: nat)
    requires i < |rows|
    ensures multiset(Mapped(f, rows)) == multiset(Mapped(f, rows[..i] + rows[i + 1..])) + multiset{f(rows[i])}
  {
    var all := Mapped(f, rows);
    assert Mapped(f, rows[..i] + rows[i + 1..]) == all[..i] + all[i + 1..];
    MultisetWithout(all, i);
    assert all[i] in multiset(all);
  }

  /** A group's sum does not depend on the order in which the database returned the rows. */
  lemma {:induction false} GroupPermuted<R, K, S, T(!new)>(b: Breakdown<R, K, S, T>, xs: seq<R>, ys: seq<R>, k: K)
    requires Lawful(b.m) && multiset(xs) == multiset(ys)
    ensures Group(b, xs, k) == Group(b, ys, k)
    decreases |xs|
  {
    assert |xs| == |multiset(xs)| == |multiset(ys)| == |ys|;
    if xs != [] {
      var n := |xs| - 1;
      assert xs == xs[..n] + [xs[n]];
      assert xs[n] in multiset(ys);
      var i :| 0 <= i < |ys| && ys[i] == xs[n];
      var rest := ys[..i] + ys[i + 1..];
      MultisetWithout(ys, i);
      assert multiset(xs[..n]) == multiset(xs) - multiset{xs[n]} == multiset(rest);
      GroupPermuted(b, xs[..n], rest, k);
      GroupWithout(b, ys, i, k);
    }
  }
}
