/**
  The dashboard's read model and the revenue export, over the append-only metric readings: three
  loops that keep one reading per post, the per-day trend, and the breakdowns.
 */
module Dashboard {
  import opened Platforms
  import opened Calendar
  import opened Grouping

  /** Instants are milliseconds since 1970; revenue is in cents. */
  datatype Reading = Reading(
    id: string, post: string, platform: Platform, collectedAt: int, createdAt: int,
    reach: int, engagement: int, revenue: int)

  datatype Tally = Tally(reach: int, engagement: int, revenue: int, posts: int)

  datatype TrendPoint = TrendPoint(day: int, reach: int, revenue: int)

  function Plus(a: Tally, b: Tally): Tally {
    Tally(a.reach + b.reach, a.engagement + b.engagement, a.revenue + b.revenue, a.posts + b.posts)
  }

  const ZERO := Tally(0, 0, 0, 0)

  const SUM := Monoid(ZERO, Plus)

  function Amounts(r: Reading): Tally {
    Tally(r.reach, r.engagement, r.revenue, 1)
  }

  function SumTally(readings: seq<Reading>): Tally {
    if readings == [] then ZERO
    else Plus(SumTally(readings[..|readings| - 1]), Amounts(readings[|readings| - 1]))
  }

  function Reach(r: Reading): int { r.reach }

  function Engagement(r: Reading): int { r.engagement }

  function Revenue(r: Reading): int { r.revenue }

  /** A tally's fields are the column sums of its readings, and their number. */
  lemma {:induction false} TallyColumns(readings: seq<Reading>)
    ensures SumTally(readings)
         == Tally(Column(readings, Reach), Column(readings, Engagement), Column(readings, Revenue), |readings|)
  {
    if readings != [] {
      TallyColumns(readings[..|readings| - 1]);
    }
  }

  /** `orderBy: { collectedAt: 'asc' }`. */
  ghost predicate InTimeOrder(rows: seq<Reading>) {
    forall i, j | 0 <= i <= j < |rows| :: rows[i].collectedAt <= rows[j].collectedAt
  }

  // ---------------------------------------------------------------- one reading per post

  /** When a later row takes the place of the one kept for its post. */
  datatype Rule = IfNewer | IfNotOlder | Always

  predicate IsNewer(a: Reading, b: Reading) {
    if a.collectedAt != b.collectedAt then a.collectedAt > b.collectedAt else a.createdAt > b.createdAt
  }

  predicate Replaces(rule: Rule, a: Reading, b: Reading) {
    match rule
    case IfNewer => IsNewer(a, b)
    case IfNotOlder => a.collectedAt >= b.collectedAt
    case Always => true
  }

  function PostOf(r: Reading): string {
    r.post
  }

  /** The row kept for post `p` once all rows have been seen. */
  function Kept(rows: seq<Reading>, p: string, rule: Rule): Option<Reading> {
    if rows == [] then None else
    var before := Kept(rows[..|rows| - 1], p, rule);
    var last := rows[|rows| - 1];
    if last.post == p && (before.None? || Replaces(rule, last, before.value)) then Some(last) else before
  }

  lemma {:induction false} KeptIffSeen(rows: seq<Reading>, p: string, rule: Rule)
    ensures Kept(rows, p, rule).Some? <==> p in Keys(rows, PostOf)
    ensures Kept(rows, p, rule).Some? ==> Kept(rows, p, rule).value in rows && Kept(rows, p, rule).value.post == p
  {
    if rows != [] {
      KeptIffSeen(rows[..|rows| - 1], p, rule);
    }
  }

  /** The kept readings, posts in order of first appearance. */
  ghost function LatestBy(rows: seq<Reading>, rule: Rule): (r: seq<Reading>)
    ensures |r| == |Keys(rows, PostOf)|
    ensures forall i | 0 <= i < |r| :: Kept(rows, Keys(rows, PostOf)[i], rule) == Some(r[i])
  {
    var posts := Keys(rows, PostOf);
    seq(|posts|, i requires 0 <= i < |posts| => KeptFor(rows, posts[i], rule))
  }

  ghost function KeptFor(rows: seq<Reading>, p: string, rule: Rule): (r: Reading)
    requires p in Keys(rows, PostOf)
    ensures Kept(rows, p, rule) == Some(r)
  {
    KeptIffSeen(rows, p, rule);
    Kept(rows, p, rule).value
  }

  /** What the map of a keeping loop holds after the rows seen so far. */
  ghost predicate Holds(keys: seq<string>, values: map<string, Reading>, rows: seq<Reading>, rule: Rule) {
    && keys == Keys(rows, PostOf)
    && (forall p | p in values :: Kept(rows, p, rule) == Some(values[p]))
  }

  lemma OneMoreReading(rows: seq<Reading>, n: nat, keys: seq<string>, values: map<string, Reading>, rule: Rule)
    requires n < |rows| && Holds(keys, values, rows[..n], rule)
    requires forall k | k in keys :: k in values
    requires forall k | k in values :: k in keys
    ensures var m := rows[n];
            if m.post !in values || Replaces(rule, m, values[m.post])
            then Holds(Seen(keys, m.post), values[m.post := m], rows[..n + 1], rule)
            else Holds(keys, values, rows[..n + 1], rule)
  {
    assert rows[..n + 1][..n] == rows[..n];
    KeptIffSeen(rows[..n], rows[n].post, rule);
  }

  /** The dashboard's loop: a reading is replaced by a strictly newer one. */
  method LatestPerPost(metrics: seq<Reading>) returns (r: seq<Reading>)
    ensures r == LatestBy(metrics, IfNewer)
  {
    var latest := new OrderedMap<string, Reading>();
    for n := 0 to |metrics|
      invariant fresh(latest) && latest.Valid()
      invariant Holds(latest.keys, latest.values, metrics[..n], IfNewer)
    {
      var metric := metrics[n];
      var current := latest.Get(metric.post);
      OneMoreReading(metrics, n, latest.keys, latest.values, IfNewer);
      if current.None? || IsNewer(metric, current.value) {
        latest.Set(metric.post, metric);
      }
    }
    assert metrics[..|metrics|] == metrics;
    r := latest.Values();
  }

  /** The export's loop: a reading is replaced by one collected at the same time or later. */
  method ExportedPerPost(metrics: seq<Reading>) returns (r: seq<Reading>)
    ensures r == LatestBy(metrics, IfNotOlder)
  {
    var latest := new OrderedMap<string, Reading>();
    for n := 0 to |metrics|
      invariant fresh(latest) && latest.Valid()
      invariant Holds(latest.keys, latest.values, metrics[..n], IfNotOlder)
    {
      var metric := metrics[n];
      var current := latest.Get(metric.post);
      OneMoreReading(metrics, n, latest.keys, latest.values, IfNotOlder);
      if current.None? || metric.collectedAt >= current.value.collectedAt {
        latest.Set(metric.post, metric);
      }
    }
    assert metrics[..|metrics|] == metrics;
    r := latest.Values();
  }

  // ---------------------------------------------------------------- the trend, stated directly

  /** 23:59:59.999 of a day. */
  function EndOfDay(day: int): int {
    day * DAY + 86_399_999
  }

  lemma DayBounds(instant: int, day: int)
    ensures DayOf(instant) <= day <==> instant <= EndOfDay(day)
  {
  }

  /** The last reading of post `p` up to an instant. */
  function LastUpTo(rows: seq<Reading>, p: string, cutoff: int): Option<Reading> {
    if rows == [] then None else
    var last := rows[|rows| - 1];
    if last.post == p && last.collectedAt <= cutoff then Some(last)
    else LastUpTo(rows[..|rows| - 1], p, cutoff)
  }

  function SumFound(found: seq<Option<Reading>>): Tally {
    if found == [] then ZERO else
    var sum := SumFound(found[..|found| - 1]);
    match found[|found| - 1]
    case None => sum
    case Some(r) => Plus(sum, Amounts(r))
  }

  /** For every post, its last reading up to an instant. */
  function StandingAt(rows: seq<Reading>, cutoff: int): seq<Option<Reading>> {
    var posts := Keys(rows, PostOf);
    seq(|posts|, i requires 0 <= i < |posts| => LastUpTo(rows, posts[i], cutoff))
  }

  function PointFor(rows: seq<Reading>, day: int): TrendPoint {
    var sum := SumFound(StandingAt(rows, EndOfDay(day)));
    TrendPoint(day, sum.reach, sum.revenue)
  }

  function ReadingDay(r: Reading): int {
    DayOf(r.collectedAt)
  }

  /** The distinct days, ascending. */
  function Days(rows: seq<Reading>): seq<int> {
    Ascending(Keys(rows, ReadingDay))
  }

  function Insert(x: int, sorted: seq<int>): seq<int> {
    if sorted == [] || x <= sorted[0] then [x] + sorted else [sorted[0]] + Insert(x, sorted[1..])
  }

  function Ascending(xs: seq<int>): seq<int> {
    if xs == [] then [] else Insert(xs[0], Ascending(xs[1..]))
  }

  function Trend(rows: seq<Reading>): seq<TrendPoint> {
    var days := Days(rows);
    seq(|days|, i requires 0 <= i < |days| => PointFor(rows, days[i]))
  }

  ghost predicate Increasing(xs: seq<int>) {
    forall i, j | 0 <= i < j < |xs| :: xs[i] < xs[j]
  }

  lemma {:induction false} InsertKeeps(x: int, sorted: seq<int>)
    requires Increasing(sorted) && x !in sorted
    ensures Increasing(Insert(x, sorted))
    ensures forall y :: y in Insert(x, sorted) <==> y == x || y in sorted
  {
    if sorted == [] || x <= sorted[0] {
    } else {
      InsertKeeps(x, sorted[1..]);
      var rest := Insert(x, sorted[1..]);
      forall i | 0 <= i < |rest| ensures sorted[0] < rest[i] {
        assert rest[i] in rest;
      }
    }
  }

  lemma {:induction false} AscendingSorts(xs: seq<int>)
    requires Distinct(xs)
    ensures Increasing(Ascending(xs))
    ensures forall y :: y in Ascending(xs) <==> y in xs
  {
    if xs != [] {
      AscendingSorts(xs[1..]);
      assert xs[0] !in xs[1..];
      InsertKeeps(xs[0], Ascending(xs[1..]));
    }
  }

  /** The trend has one point for every day with a reading, in order. */
  lemma DaysAre(rows: seq<Reading>)
    ensures Increasing(Days(rows))
    ensures forall d :: d in Days(rows) <==> exists i :: 0 <= i < |rows| && DayOf(rows[i].collectedAt) == d
  {
    KeysAre(rows, ReadingDay);
    AscendingSorts(Keys(rows, ReadingDay));
    forall d | exists i :: 0 <= i < |rows| && DayOf(rows[i].collectedAt) == d ensures d in Days(rows) {
      var i :| 0 <= i < |rows| && DayOf(rows[i].collectedAt) == d;
      assert ReadingDay(rows[i]) in Keys(rows, ReadingDay);
    }
  }

  // ---------------------------------------------------------------- the trend, replayed in one pass

  /** The first `n` rows are those up to an instant. */
  ghost predicate Cut(rows: seq<Reading>, n: nat, cutoff: int) {
    && n <= |rows|
    && (forall i | 0 <= i < n :: rows[i].collectedAt <= cutoff)
    && (forall i | n <= i < |rows| :: cutoff < rows[i].collectedAt)
  }

  /** Replaying the rows before a cut leaves each post at its last reading up to the cut. */
  lemma {:induction false} ReplayedTo(rows: seq<Reading>, n: nat, cutoff: int, p: string)
    requires Cut(rows, n, cutoff)
    ensures LastUpTo(rows, p, cutoff) == Kept(rows[..n], p, Always)
    decreases |rows|
  {
    if n < |rows| {
      var init := rows[..|rows| - 1];
      ReplayedTo(init, n, cutoff, p);
      assert init[..n] == rows[..n];
    } else if rows != [] {
      var init := rows[..|rows| - 1];
      assert rows[..n] == rows;
      assert init[..n - 1] == init;
      ReplayedTo(init, n - 1, cutoff, p);
    }
  }

  /** Posts first seen later come later in the order of first appearance. */
  lemma {:induction false} KeysGrow(rows: seq<Reading>, n: nat)
    requires n <= |rows|
    ensures Keys(rows[..n], PostOf) <= Keys(rows, PostOf)
    decreases |rows|
  {
    if n < |rows| {
      var init := rows[..|rows| - 1];
      KeysGrow(init, n);
      assert init[..n] == rows[..n];
    } else {
      assert rows[..n] == rows;
    }
  }

  lemma {:induction false} AbsentAddNothing(found: seq<Option<Reading>>, n: nat)
    requires n <= |found| && forall i | n <= i < |found| :: found[i].None?
    ensures SumFound(found) == SumFound(found[..n])
    decreases |found|
  {
    if n < |found| {
      var init := found[..|found| - 1];
      AbsentAddNothing(init, n);
      assert init[..n] == found[..n];
    } else {
      assert found[..n] == found;
    }
  }

  function Founds(readings: seq<Reading>): seq<Option<Reading>> {
    seq(|readings|, i requires 0 <= i < |readings| => Some(readings[i]))
  }

  lemma {:induction false} SumOfFounds(readings: seq<Reading>)
    ensures SumFound(Founds(readings)) == SumTally(readings)
  {
    if readings != [] {
      SumOfFounds(readings[..|readings| - 1]);
      assert Founds(readings)[..|readings| - 1] == Founds(readings[..|readings| - 1]);
    }
  }

  /** The running state at a cut adds up to the direct statement's sum. */
  lemma ReplaySum(rows: seq<Reading>, n: nat, cutoff: int)
    requires Cut(rows, n, cutoff)
    ensures SumFound(StandingAt(rows, cutoff)) == SumTally(LatestBy(rows[..n], Always))
  {
    var standing, latest := StandingAt(rows, cutoff), LatestBy(rows[..n], Always);
    var posts := Keys(rows, PostOf);
    KeysGrow(rows, n);
    KeysAre(rows, PostOf);
    forall i | 0 <= i < |posts|
      ensures standing[i] == if i < |latest| then Some(latest[i]) else None
    {
      ReplayedTo(rows, n, cutoff, posts[i]);
      KeptIffSeen(rows[..n], posts[i], Always);
    }
    assert standing[..|latest|] == Founds(latest);
    AbsentAddNothing(standing, |latest|);
    SumOfFounds(latest);
  }

  datatype Cell = Cell(reach: int, revenue: int)

  function CellOf(r: Reading): Cell {
    Cell(r.reach, r.revenue)
  }

  /** The running map holds the figures of the readings kept so far. */
  ghost predicate Running(keys: seq<string>, values: map<string, Cell>, rows: seq<Reading>) {
    && keys == Keys(rows, PostOf)
    && (forall p | p in values :: Kept(rows, p, Always).Some? && values[p] == CellOf(Kept(rows, p, Always).value))
  }

  lemma OneMoreReplayed(rows: seq<Reading>, n: nat, keys: seq<string>, values: map<string, Cell>)
    requires n < |rows| && Running(keys, values, rows[..n])
    ensures Running(Seen(keys, rows[n].post), values[rows[n].post := CellOf(rows[n])], rows[..n + 1])
  {
    assert rows[..n + 1][..n] == rows[..n];
  }

  /** `for (const value of running.values())`: one day's point. */
  method SumRunning(running: OrderedMap<string, Cell>, ghost rows: seq<Reading>) returns (reach: int, revenue: int)
    requires running.Valid() && Running(running.keys, running.values, rows)
    ensures reach == SumTally(LatestBy(rows, Always)).reach
    ensures revenue == SumTally(LatestBy(rows, Always)).revenue
  {
    ghost var latest := LatestBy(rows, Always);
    var values := running.Values();
    reach, revenue := 0, 0;
    for k := 0 to |values|
      invariant reach == SumTally(latest[..k]).reach && revenue == SumTally(latest[..k]).revenue
    {
      assert latest[..k + 1][..k] == latest[..k];
      assert values[k] == CellOf(latest[k]);
      reach := reach + values[k].reach;
      revenue := revenue + values[k].revenue;
    }
    assert latest[..|values|] == latest;
  }

  /** Sets the figures of every reading up to the end of `day`, from `start` on. */
  method ReplayDay(metrics: seq<Reading>, start: nat, day: int, running: OrderedMap<string, Cell>) returns (index: nat)
    requires start <= |metrics| && InTimeOrder(metrics)
    requires forall i | 0 <= i < start :: metrics[i].collectedAt <= EndOfDay(day)
    requires running.Valid() && Running(running.keys, running.values, metrics[..start])
    modifies running
    ensures Cut(metrics, index, EndOfDay(day))
    ensures running.Valid() && Running(running.keys, running.values, metrics[..index])
  {
    index := start;
    while index < |metrics| && metrics[index].collectedAt <= EndOfDay(day)
      invariant start <= index <= |metrics|
      invariant forall i | 0 <= i < index :: metrics[i].collectedAt <= EndOfDay(day)
      invariant running.Valid() && Running(running.keys, running.values, metrics[..index])
    {
      var metric := metrics[index];
      OneMoreReplayed(metrics, index, running.keys, running.values);
      running.Set(metric.post, CellOf(metric));
      index := index + 1;
    }
  }

  lemma NextPoint(metrics: seq<Reading>, i: nat, index: nat, reach: int, revenue: int)
    requires i < |Days(metrics)| && Cut(metrics, index, EndOfDay(Days(metrics)[i]))
    requires reach == SumTally(LatestBy(metrics[..index], Always)).reach
    requires revenue == SumTally(LatestBy(metrics[..index], Always)).revenue
    ensures Trend(metrics)[..i + 1] == Trend(metrics)[..i] + [TrendPoint(Days(metrics)[i], reach, revenue)]
  {
    ReplaySum(metrics, index, EndOfDay(Days(metrics)[i]));
    assert Trend(metrics)[i] == PointFor(metrics, Days(metrics)[i]);
  }

  /** One pass over the readings gives every day the sum of the posts' last readings up to its end. */
  method BuildTrend(metrics: seq<Reading>) returns (trend: seq<TrendPoint>)
    requires InTimeOrder(metrics)
    ensures trend == Trend(metrics)
  {
    trend := [];
    if |metrics| == 0 { return; }
    var days := Days(metrics);
    DaysAre(metrics);
    var running := new OrderedMap<string, Cell>();
    var index := 0;
    for i := 0 to |days|
      invariant fresh(running) && running.Valid()
      invariant index <= |metrics| && Running(running.keys, running.values, metrics[..index])
      invariant i > 0 ==> Cut(metrics, index, EndOfDay(days[i - 1]))
      invariant i == 0 ==> index == 0
      invariant trend == Trend(metrics)[..i]
    {
      index := ReplayDay(metrics, index, days[i], running);
      var reach, revenue := SumRunning(running, metrics[..index]);
      NextPoint(metrics, i, index, reach, revenue);
      trend := trend + [TrendPoint(days[i], reach, revenue)];
    }
    assert Trend(metrics)[..|days|] == Trend(metrics);
  }
}
