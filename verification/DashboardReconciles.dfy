/**
  How the dashboard's views reconcile: with the revenue export, with the trend, and each drill-down
  with the summary it was opened from.
 */
module DashboardReconciles {
  import opened Platforms
  import opened Calendar
  import opened Grouping
  import opened Dashboard

  // ---------------------------------------------------------------- which reading is kept

  /** The dashboard keeps a reading newer than every earlier one of its post, and never outdated later. */
  ghost predicate NewestAt(rows: seq<Reading>, p: string, i: nat) {
    && i < |rows| && rows[i].post == p
    && (forall j | 0 <= j < i && rows[j].post == p :: IsNewer(rows[i], rows[j]))
    && (forall j | i < j < |rows| && rows[j].post == p :: !IsNewer(rows[j], rows[i]))
  }

  /**
    The kept reading has its post's latest collection time and, among those, the latest creation
    time; of readings alike in both it is the first.
   */
  lemma {:induction false} KeepsNewest(rows: seq<Reading>, p: string) returns (i: nat)
    requires p in Keys(rows, PostOf)
    ensures NewestAt(rows, p, i) && Kept(rows, p, IfNewer) == Some(rows[i])
    ensures forall j | 0 <= j < |rows| && rows[j].post == p ::
              || rows[j].collectedAt < rows[i].collectedAt
              || (rows[j].collectedAt == rows[i].collectedAt
                  && (rows[j].createdAt < rows[i].createdAt || (rows[j].createdAt == rows[i].createdAt && i <= j)))
  {
    var n := |rows| - 1;
    var init := rows[..n];
    KeptIffSeen(init, p, IfNewer);
    if p in Keys(init, PostOf) {
      var before := KeepsNewest(init, p);
      i := if rows[n].post == p && IsNewer(rows[n], rows[before]) then n else before;
    } else {
      i := n;
      forall j | 0 <= j < n ensures rows[j].post != p {
        KeysAre(init, PostOf);
        assert PostOf(init[j]) in Keys(init, PostOf);
      }
    }
  }

  /** The post's last row. */
  ghost predicate LastAt(rows: seq<Reading>, p: string, i: nat) {
    && i < |rows| && rows[i].post == p
    && (forall j | i < j < |rows| :: rows[j].post != p)
  }

  /** On readings in time order the export's loop keeps each post's last row, as the trend does. */
  lemma {:induction false} KeepsLast(rows: seq<Reading>, p: string) returns (i: nat)
    requires InTimeOrder(rows) && p in Keys(rows, PostOf)
    ensures LastAt(rows, p, i)
    ensures Kept(rows, p, IfNotOlder) == Some(rows[i]) && Kept(rows, p, Always) == Some(rows[i])
  {
    var n := |rows| - 1;
    var init := rows[..n];
    if rows[n].post == p {
      i := n;
      KeptIffSeen(init, p, IfNotOlder);
    } else {
      i := KeepsLast(init, p);
    }
  }

  /** Each post's last row is strictly newer than the rows of that post before it. */
  ghost predicate LastIsNewest(rows: seq<Reading>) {
    forall i, j | 0 <= i < j < |rows| && rows[i].post == rows[j].post && LastAt(rows, rows[j].post, j) ::
      IsNewer(rows[j], rows[i])
  }

  ghost predicate OneRowPerId(rows: seq<Reading>) {
    forall i, j | 0 <= i < j < |rows| :: rows[i].id != rows[j].id
  }

  lemma SamePick(rows: seq<Reading>, p: string)
    requires InTimeOrder(rows) && LastIsNewest(rows) && p in Keys(rows, PostOf)
    ensures Kept(rows, p, IfNewer) == Kept(rows, p, IfNotOlder)
  {
    var newest := KeepsNewest(rows, p);
    var last := KeepsLast(rows, p);
  }

  lemma AgreeingPicks(rows: seq<Reading>)
    requires InTimeOrder(rows) && LastIsNewest(rows)
    ensures LatestBy(rows, IfNewer) == LatestBy(rows, IfNotOlder)
  {
    var posts := Keys(rows, PostOf);
    forall k | 0 <= k < |posts| ensures LatestBy(rows, IfNewer)[k] == LatestBy(rows, IfNotOlder)[k] {
      SamePick(rows, posts[k]);
    }
  }

  /**
    The dashboard and the export pick the same readings exactly when each post's last row is strictly
    newer, by collection time and then creation time, than the post's earlier rows.
   */
  lemma PicksAgreeIff(rows: seq<Reading>)
    requires InTimeOrder(rows) && OneRowPerId(rows)
    ensures LatestBy(rows, IfNewer) == LatestBy(rows, IfNotOlder) <==> LastIsNewest(rows)
  {
    var posts := Keys(rows, PostOf);
    if LastIsNewest(rows) {
      AgreeingPicks(rows);
    }
    if LatestBy(rows, IfNewer) == LatestBy(rows, IfNotOlder) {
      forall i, j | 0 <= i < j < |rows| && rows[i].post == rows[j].post && LastAt(rows, rows[j].post, j)
        ensures IsNewer(rows[j], rows[i])
      {
        var p := rows[j].post;
        KeysAre(rows, PostOf);
        assert PostOf(rows[j]) in posts;
        var k :| 0 <= k < |posts| && posts[k] == p;
        assert Kept(rows, p, IfNewer) == Some(LatestBy(rows, IfNewer)[k]);
        assert Kept(rows, p, IfNotOlder) == Some(LatestBy(rows, IfNotOlder)[k]);
        var newest := KeepsNewest(rows, p);
        var last := KeepsLast(rows, p);
        assert newest == last == j;
      }
    }
  }

  // ---------------------------------------------------------------- the trend's last point

  lemma SameLatest(rows: seq<Reading>)
    requires InTimeOrder(rows)
    ensures LatestBy(rows, Always) == LatestBy(rows, IfNotOlder)
  {
    var posts := Keys(rows, PostOf);
    forall k | 0 <= k < |posts| ensures LatestBy(rows, Always)[k] == LatestBy(rows, IfNotOlder)[k] {
      var last := KeepsLast(rows, posts[k]);
    }
  }

  /** All readings lie before the end of the last day. */
  lemma LastDayCuts(rows: seq<Reading>)
    requires InTimeOrder(rows) && rows != []
    ensures Days(rows) != [] && Cut(rows, |rows|, EndOfDay(Days(rows)[|Days(rows)| - 1]))
  {
    var days, latest := Days(rows), rows[|rows| - 1].collectedAt;
    DaysAre(rows);
    assert DayOf(latest) in days;
    var day := days[|days| - 1];
    assert DayOf(latest) <= day;
    DayBounds(latest, day);
  }

  /** The trend's last point, as the running state leaves it. */
  lemma TrendEnd(rows: seq<Reading>)
    requires InTimeOrder(rows) && rows != []
    ensures Trend(rows) != []
    ensures var end, sum := Trend(rows)[|Trend(rows)| - 1], SumTally(LatestBy(rows, IfNotOlder));
            end.reach == sum.reach && end.revenue == sum.revenue
  {
    LastDayCuts(rows);
    var last := |Days(rows)| - 1;
    assert Trend(rows)[last] == PointFor(rows, Days(rows)[last]);
    ReplaySum(rows, |rows|, EndOfDay(Days(rows)[last]));
    assert rows[..|rows|] == rows;
    SameLatest(rows);
  }

  /** The trend ends at the export's totals; at the dashboard's own totals too when the picks agree. */
  lemma TrendEndsAtTotals(rows: seq<Reading>)
    requires InTimeOrder(rows) && rows != []
    ensures Trend(rows) != []
    ensures var end := Trend(rows)[|Trend(rows)| - 1];
            var exported, shown := SumTally(LatestBy(rows, IfNotOlder)), SumTally(LatestBy(rows, IfNewer));
            && end.reach == exported.reach && end.revenue == exported.revenue
            && (LastIsNewest(rows) ==> end.reach == shown.reach && end.revenue == shown.revenue)
  {
    TrendEnd(rows);
    if LastIsNewest(rows) {
      AgreeingPicks(rows);
    }
  }

  // ---------------------------------------------------------------- two queries, two answers

  /** Another answer to the same query: `collectedAt` alone orders it, ties come in any order. */
  ghost predicate Answers(rows: seq<Reading>, answer: seq<Reading>) {
    multiset(answer) == multiset(rows) && InTimeOrder(answer)
  }

  /** Among the readings of a post, only one has the newest pair of times. */
  ghost predicate NewestOnce(rows: seq<Reading>) {
    forall i, j | 0 <= i < |rows| && 0 <= j < |rows| && i != j && rows[i].post == rows[j].post ::
      SameTimes(rows[i], rows[j]) ==> HasNewer(rows, rows[i])
  }

  predicate SameTimes(a: Reading, b: Reading) {
    a.collectedAt == b.collectedAt && a.createdAt == b.createdAt
  }

  ghost predicate HasNewer(rows: seq<Reading>, r: Reading) {
    exists k :: 0 <= k < |rows| && rows[k].post == r.post && IsNewer(rows[k], r)
  }

  /** Among the readings of a post, only one has the latest collection time. */
  ghost predicate LatestOnce(rows: seq<Reading>) {
    forall i, j | 0 <= i < |rows| && 0 <= j < |rows| && i != j && rows[i].post == rows[j].post ::
      rows[i].collectedAt == rows[j].collectedAt ==> HasLater(rows, rows[i])
  }

  ghost predicate HasLater(rows: seq<Reading>, r: Reading) {
    exists k :: 0 <= k < |rows| && rows[k].post == r.post && rows[k].collectedAt > r.collectedAt
  }

  /** Where the kept row stands in another order: nothing in it is newer. */
  lemma NothingNewer(rows: seq<Reading>, p: string, i: nat, r: Reading)
    requires NewestAt(rows, p, i) && r in rows && r.post == p
    ensures !IsNewer(r, rows[i])
  {
    var k :| 0 <= k < |rows| && rows[k] == r;
  }

  lemma SameMembers(xs: seq<Reading>, ys: seq<Reading>)
    requires multiset(xs) == multiset(ys)
    ensures forall r :: r in xs <==> r in ys
    ensures forall p :: p in Keys(xs, PostOf) <==> p in Keys(ys, PostOf)
  {
    assert forall r :: r in xs <==> r in multiset(xs);
    assert forall r :: r in ys <==> r in multiset(ys);
    forall p ensures p in Keys(xs, PostOf) <==> p in Keys(ys, PostOf) {
      SeenEarlier(xs, PostOf, p);
      SeenEarlier(ys, PostOf, p);
      if i :| 0 <= i < |xs| && PostOf(xs[i]) == p {
        assert xs[i] in ys;
      }
      if j :| 0 <= j < |ys| && PostOf(ys[j]) == p {
        assert ys[j] in xs;
      }
    }
  }

  lemma StablePick(xs: seq<Reading>, ys: seq<Reading>, p: string)
    requires NewestOnce(xs) && multiset(xs) == multiset(ys)
    ensures Kept(xs, p, IfNewer) == Kept(ys, p, IfNewer)
  {
    SameMembers(xs, ys);
    KeptIffSeen(xs, p, IfNewer);
    KeptIffSeen(ys, p, IfNewer);
    if p in Keys(xs, PostOf) {
      var i := KeepsNewest(xs, p);
      var j := KeepsNewest(ys, p);
      NothingNewer(xs, p, i, ys[j]);
      NothingNewer(ys, p, j, xs[i]);
      if xs[i] != ys[j] {
        var m :| 0 <= m < |xs| && xs[m] == ys[j];
        assert SameTimes(xs[i], xs[m]);
        var k :| 0 <= k < |xs| && xs[k].post == p && IsNewer(xs[k], xs[i]);
        NothingNewer(xs, p, i, xs[k]);
      }
    }
  }

  lemma SwappedAnswers(rows: seq<Reading>, i: nat, j: nat)
    requires InTimeOrder(rows) && i < |rows| && j < |rows| && rows[i].collectedAt == rows[j].collectedAt
    ensures Answers(rows, Swapped(rows, i, j))
  {
    assert forall k | 0 <= k < |rows| :: Swapped(rows, i, j)[k].collectedAt == rows[k].collectedAt;
  }

  lemma OneNewest(rows: seq<Reading>, p: string, i: nat, j: nat)
    requires NewestAt(rows, p, i) && NewestAt(rows, p, j)
    ensures i == j
  {
  }

  /** Exchanging the kept row with one that ties it changes the pick. */
  lemma TieMovesPick(rows: seq<Reading>, p: string, n: nat, m: nat)
    requires InTimeOrder(rows) && OneRowPerId(rows) && NewestAt(rows, p, n)
    requires m < |rows| && m != n && rows[m].post == p && SameTimes(rows[m], rows[n])
    ensures Answers(rows, Swapped(rows, n, m))
    ensures Kept(Swapped(rows, n, m), p, IfNewer) == Some(rows[m]) && rows[m] != rows[n]
  {
    var swapped := Swapped(rows, n, m);
    SwappedAnswers(rows, n, m);
    assert NewestAt(swapped, p, n);
    KeysAre(swapped, PostOf);
    assert PostOf(swapped[n]) == p;
    var k := KeepsNewest(swapped, p);
    OneNewest(swapped, p, n, k);
    assert rows[m].id != rows[n].id;
  }

  lemma PickOf(rows: seq<Reading>, p: string, i: nat)
    requires i < |rows| && rows[i].post == p
    ensures p in Keys(rows, PostOf)
  {
    KeysAre(rows, PostOf);
    assert PostOf(rows[i]) == p;
  }

  /**
    The dashboard keeps the same readings whatever the order of tied rows exactly when the newest pair of
    times of each post belongs to one reading.
   */
  lemma PicksStableIff(rows: seq<Reading>)
    requires InTimeOrder(rows) && OneRowPerId(rows)
    ensures (forall answer, p | Answers(rows, answer) :: Kept(answer, p, IfNewer) == Kept(rows, p, IfNewer))
       <==> NewestOnce(rows)
  {
    if NewestOnce(rows) {
      forall answer, p | Answers(rows, answer) ensures Kept(answer, p, IfNewer) == Kept(rows, p, IfNewer) {
        StablePick(rows, answer, p);
      }
    } else {
      var i, j :| && 0 <= i < |rows| && 0 <= j < |rows| && i != j && rows[i].post == rows[j].post
                  && SameTimes(rows[i], rows[j]) && !HasNewer(rows, rows[i]);
      var p := rows[i].post;
      PickOf(rows, p, i);
      var n := KeepsNewest(rows, p);
      NothingNewer(rows, p, n, rows[i]);
      assert !IsNewer(rows[n], rows[i]);
      var m := if i == n then j else i;
      TieMovesPick(rows, p, n, m);
      var swapped := Swapped(rows, n, m);
      assert Kept(swapped, p, IfNewer) != Kept(rows, p, IfNewer);
    }
  }

  lemma NothingLater(rows: seq<Reading>, p: string, i: nat, r: Reading)
    requires InTimeOrder(rows) && LastAt(rows, p, i) && r in rows && r.post == p
    ensures r.collectedAt <= rows[i].collectedAt
  {
    var k :| 0 <= k < |rows| && rows[k] == r;
  }

  lemma ExportPickAgrees(rows: seq<Reading>, shown: seq<Reading>, exported: seq<Reading>, p: string)
    requires LatestOnce(rows) && Answers(rows, shown) && Answers(rows, exported)
    ensures Kept(shown, p, IfNewer) == Kept(exported, p, IfNotOlder)
  {
    SameMembers(rows, shown);
    SameMembers(rows, exported);
    KeptIffSeen(shown, p, IfNewer);
    KeptIffSeen(exported, p, IfNotOlder);
    if p in Keys(rows, PostOf) {
      var i := KeepsNewest(shown, p);
      var j := KeepsLast(exported, p);
      NothingNewer(shown, p, i, exported[j]);
      NothingLater(exported, p, j, shown[i]);
      if shown[i] != exported[j] {
        var m :| 0 <= m < |rows| && rows[m] == shown[i];
        var n :| 0 <= n < |rows| && rows[n] == exported[j];
        var k :| 0 <= k < |rows| && rows[k].post == p && rows[k].collectedAt > rows[n].collectedAt;
        NothingLater(exported, p, j, rows[k]);
      }
    }
  }

  /** Exchanging a post's last row with one collected at the same time changes the export's pick. */
  lemma TieMovesExport(rows: seq<Reading>, p: string, n: nat, m: nat)
    requires InTimeOrder(rows) && OneRowPerId(rows) && LastAt(rows, p, n)
    requires m < |rows| && m != n && rows[m].post == p && rows[m].collectedAt == rows[n].collectedAt
    ensures Answers(rows, Swapped(rows, n, m))
    ensures Kept(Swapped(rows, n, m), p, IfNotOlder) == Some(rows[m]) && rows[m] != rows[n]
  {
    var swapped := Swapped(rows, n, m);
    SwappedAnswers(rows, n, m);
    assert LastAt(swapped, p, n);
    PickOf(swapped, p, n);
    var k := KeepsLast(swapped, p);
    assert k == n;
    assert rows[m].id != rows[n].id;
  }

  /** Where two readings share the latest time of their post, two orders make the export keep two readings. */
  lemma TiedAnswersDiffer(rows: seq<Reading>) returns (swapped: seq<Reading>, p: string)
    requires InTimeOrder(rows) && OneRowPerId(rows) && !LatestOnce(rows)
    ensures Answers(rows, swapped) && Kept(rows, p, IfNotOlder) != Kept(swapped, p, IfNotOlder)
  {
    var i, j :| && 0 <= i < |rows| && 0 <= j < |rows| && i != j && rows[i].post == rows[j].post
                && rows[i].collectedAt == rows[j].collectedAt && !HasLater(rows, rows[i]);
    p := rows[i].post;
    PickOf(rows, p, i);
    var n := KeepsLast(rows, p);
    NothingLater(rows, p, n, rows[i]);
    assert rows[n].collectedAt <= rows[i].collectedAt;
    var m := if i == n then j else i;
    TieMovesExport(rows, p, n, m);
    swapped := Swapped(rows, n, m);
  }

  /**
    The dashboard and the export, each with its own answer, agree whatever the order of tied rows exactly
    when the latest collection time of each post belongs to one reading.
   */
  lemma AnswersAgreeIff(rows: seq<Reading>)
    requires InTimeOrder(rows) && OneRowPerId(rows)
    ensures (forall shown, exported, p | Answers(rows, shown) && Answers(rows, exported) ::
               Kept(shown, p, IfNewer) == Kept(exported, p, IfNotOlder))
       <==> LatestOnce(rows)
  {
    if LatestOnce(rows) {
      forall shown, exported, p | Answers(rows, shown) && Answers(rows, exported)
        ensures Kept(shown, p, IfNewer) == Kept(exported, p, IfNotOlder)
      {
        ExportPickAgrees(rows, shown, exported, p);
      }
    } else {
      var swapped, p := TiedAnswersDiffer(rows);
      assert Answers(rows, rows);
    }
  }

  // ---------------------------------------------------------------- totals of two answers

  function TallyOf(kept: Option<Reading>): Tally {
    match kept
    case None => ZERO
    case Some(r) => Amounts(r)
  }

  /** What the dashboard shows for a post. */
  function Shown(rows: seq<Reading>): string -> Tally {
    (p: string) => TallyOf(Kept(rows, p, IfNewer))
  }

  /** All posts in one group. */
  function Whole(shown: string -> Tally): Breakdown<string, (), (), Tally> {
    ByTag(SUM, (p: string) => (), shown)
  }

  lemma {:induction false} SumByPosts(rows: seq<Reading>, latest: seq<Reading>, posts: seq<string>)
    requires |latest| == |posts| && forall i | 0 <= i < |posts| :: Kept(rows, posts[i], IfNewer) == Some(latest[i])
    ensures SumTally(latest) == Group(Whole(Shown(rows)), posts, ())
  {
    if posts != [] {
      SumByPosts(rows, latest[..|latest| - 1], posts[..|posts| - 1]);
    }
  }

  lemma {:induction false} SameShown(f: string -> Tally, g: string -> Tally, posts: seq<string>)
    requires forall i | 0 <= i < |posts| :: f(posts[i]) == g(posts[i])
    ensures Group(Whole(f), posts, ()) == Group(Whole(g), posts, ())
  {
    if posts != [] {
      SameShown(f, g, posts[..|posts| - 1]);
    }
  }

  /** Answers that show the same figures for every post add up alike. */
  lemma SameTotals(xs: seq<Reading>, ys: seq<Reading>)
    requires multiset(xs) == multiset(ys) && forall p :: Shown(xs)(p) == Shown(ys)(p)
    ensures SumTally(LatestBy(xs, IfNewer)) == SumTally(LatestBy(ys, IfNewer))
  {
    var ps, qs := Keys(xs, PostOf), Keys(ys, PostOf);
    SumByPosts(xs, LatestBy(xs, IfNewer), ps);
    SumByPosts(ys, LatestBy(ys, IfNewer), qs);
    SameMembers(xs, ys);
    KeysAre(xs, PostOf);
    KeysAre(ys, PostOf);
    SameMultiset(ps, qs);
    SumLawful();
    SameShown(Shown(xs), Shown(ys), ps);
    GroupPermuted(Whole(Shown(ys)), ps, qs, ());
  }

  /** Readings of one post that tie for its newest pair of times carry the same figures. */
  ghost predicate TiesAlike(rows: seq<Reading>) {
    forall i, j | 0 <= i < |rows| && 0 <= j < |rows| && rows[i].post == rows[j].post && SameTimes(rows[i], rows[j]) ::
      !HasNewer(rows, rows[i]) ==> Amounts(rows[i]) == Amounts(rows[j])
  }

  lemma StableFigures(xs: seq<Reading>, ys: seq<Reading>, p: string)
    requires TiesAlike(xs) && multiset(xs) == multiset(ys)
    ensures Shown(xs)(p) == Shown(ys)(p)
  {
    SameMembers(xs, ys);
    KeptIffSeen(xs, p, IfNewer);
    KeptIffSeen(ys, p, IfNewer);
    if p in Keys(xs, PostOf) {
      var i := KeepsNewest(xs, p);
      var j := KeepsNewest(ys, p);
      NothingNewer(xs, p, i, ys[j]);
      NothingNewer(ys, p, j, xs[i]);
      var m :| 0 <= m < |xs| && xs[m] == ys[j];
      assert SameTimes(xs[i], xs[m]);
      forall k | 0 <= k < |xs| && xs[k].post == p ensures !IsNewer(xs[k], xs[i]) {
        NothingNewer(xs, p, i, xs[k]);
      }
      assert !HasNewer(xs, xs[i]);
    }
  }

  /** Exchanging two readings of one post leaves the other posts' readings where they were. */
  lemma SwapKeepsOthers(rows: seq<Reading>, n: nat, m: nat, q: string)
    requires n < |rows| && m < |rows| && rows[n].post == rows[m].post && rows[n].post != q
    ensures Kept(Swapped(rows, n, m), q, IfNewer) == Kept(rows, q, IfNewer)
  {
    var swapped := Swapped(rows, n, m);
    KeysByKey(rows, swapped, PostOf);
    KeptIffSeen(rows, q, IfNewer);
    KeptIffSeen(swapped, q, IfNewer);
    if q in Keys(rows, PostOf) {
      var k := KeepsNewest(rows, q);
      assert NewestAt(swapped, q, k);
      var l := KeepsNewest(swapped, q);
      OneNewest(swapped, q, k, l);
    }
  }

  /** Changing one element of a sum changes the sum by the difference. */
  lemma {:induction false} SumUpdate(latest: seq<Reading>, i: nat, r: Reading)
    requires i < |latest|
    ensures Plus(SumTally(latest[i := r]), Amounts(latest[i])) == Plus(SumTally(latest), Amounts(r))
  {
    var n := |latest| - 1;
    if i == n {
      assert latest[i := r][..n] == latest[..n];
    } else {
      SumUpdate(latest[..n], i, r);
      assert latest[i := r][..n] == latest[..n][i := r];
    }
  }

  /** Exchanging the kept row with one that ties it changes one kept reading and no other. */
  lemma TieMovesOne(rows: seq<Reading>, p: string, n: nat, m: nat) returns (a: nat)
    requires InTimeOrder(rows) && OneRowPerId(rows) && NewestAt(rows, p, n)
    requires m < |rows| && m != n && rows[m].post == p && SameTimes(rows[m], rows[n])
    ensures a < |LatestBy(rows, IfNewer)| && LatestBy(rows, IfNewer)[a] == rows[n]
    ensures LatestBy(Swapped(rows, n, m), IfNewer) == LatestBy(rows, IfNewer)[a := rows[m]]
  {
    var swapped, posts := Swapped(rows, n, m), Keys(rows, PostOf);
    var before, after := LatestBy(rows, IfNewer), LatestBy(swapped, IfNewer);
    TieMovesPick(rows, p, n, m);
    KeysByKey(rows, swapped, PostOf);
    PickOf(rows, p, n);
    var k := KeepsNewest(rows, p);
    OneNewest(rows, p, k, n);
    KeysAre(rows, PostOf);
    a :| 0 <= a < |posts| && posts[a] == p;
    forall b | 0 <= b < |posts| && b != a ensures after[b] == before[b] {
      SwapKeepsOthers(rows, n, m, posts[b]);
    }
  }

  /** So if the two have different figures it changes the total. */
  lemma TieMovesTotal(rows: seq<Reading>, p: string, n: nat, m: nat)
    requires InTimeOrder(rows) && OneRowPerId(rows) && NewestAt(rows, p, n)
    requires m < |rows| && m != n && rows[m].post == p && SameTimes(rows[m], rows[n])
    requires Amounts(rows[m]) != Amounts(rows[n])
    ensures SumTally(LatestBy(Swapped(rows, n, m), IfNewer)) != SumTally(LatestBy(rows, IfNewer))
  {
    var a := TieMovesOne(rows, p, n, m);
    SumUpdate(LatestBy(rows, IfNewer), a, rows[m]);
  }

  /**
    The dashboard's totals are the same whatever the order of tied rows exactly when readings that tie
    for the newest of their post carry the same figures.
   */
  lemma TotalsStableIff(rows: seq<Reading>)
    requires InTimeOrder(rows) && OneRowPerId(rows)
    ensures (forall answer | Answers(rows, answer) ::
               SumTally(LatestBy(answer, IfNewer)) == SumTally(LatestBy(rows, IfNewer)))
       <==> TiesAlike(rows)
  {
    if TiesAlike(rows) {
      forall answer | Answers(rows, answer)
        ensures SumTally(LatestBy(answer, IfNewer)) == SumTally(LatestBy(rows, IfNewer))
      {
        AlikeTotals(rows, answer);
      }
    } else {
      var i, j :| && 0 <= i < |rows| && 0 <= j < |rows| && rows[i].post == rows[j].post
                  && SameTimes(rows[i], rows[j]) && !HasNewer(rows, rows[i])
                  && Amounts(rows[i]) != Amounts(rows[j]);
      var p := rows[i].post;
      PickOf(rows, p, i);
      var n := KeepsNewest(rows, p);
      NothingNewer(rows, p, n, rows[i]);
      assert !IsNewer(rows[n], rows[i]);
      var m := if Amounts(rows[i]) != Amounts(rows[n]) then i else j;
      TieMovesTotal(rows, p, n, m);
      SwappedAnswers(rows, n, m);
    }
  }

  lemma AlikeTotals(rows: seq<Reading>, answer: seq<Reading>)
    requires TiesAlike(rows) && multiset(rows) == multiset(answer)
    ensures SumTally(LatestBy(answer, IfNewer)) == SumTally(LatestBy(rows, IfNewer))
  {
    forall p ensures Shown(answer)(p) == Shown(rows)(p) {
      StableFigures(rows, answer, p);
    }
    SameTotals(answer, rows);
  }

  // ---------------------------------------------------------------- drill-downs

  function OnContent(owner: string -> string, content: string): Reading -> bool {
    (r: Reading) => owner(r.post) == content
  }

  /** `where: { post: { contentId } }`: `owner` gives the content a post belongs to. */
  function OfContent(rows: seq<Reading>, owner: string -> string, content: string): seq<Reading> {
    Filter(OnContent(owner, content), rows)
  }

  lemma {:induction false} OfContentKept(rows: seq<Reading>, owner: string -> string, p: string, rule: Rule)
    ensures Kept(OfContent(rows, owner, owner(p)), p, rule) == Kept(rows, p, rule)
  {
    if rows != [] {
      var init, last := rows[..|rows| - 1], rows[|rows| - 1];
      OfContentKept(init, owner, p, rule);
      var mine := OfContent(init, owner, owner(p));
      assert (mine + [last])[..|mine|] == mine;
    }
  }

  function OwnPosts(posts: seq<string>, owner: string -> string, content: string): seq<string> {
    Filter((p: string) => owner(p) == content, posts)
  }

  lemma OwnPostsIn(posts: seq<string>, owner: string -> string, content: string)
    ensures forall p :: p in OwnPosts(posts, owner, content) <==> p in posts && owner(p) == content
  {
    FilterIn((p: string) => owner(p) == content, posts);
  }

  lemma {:induction false} OfContentKeys(rows: seq<Reading>, owner: string -> string, content: string)
    ensures Keys(OfContent(rows, owner, content), PostOf) == OwnPosts(Keys(rows, PostOf), owner, content)
  {
    if rows != [] {
      var init, last := rows[..|rows| - 1], rows[|rows| - 1];
      OfContentKeys(init, owner, content);
      var mine, seen := OfContent(init, owner, content), Keys(init, PostOf);
      assert (mine + [last])[..|mine|] == mine;
      assert (seen + [last.post])[..|seen|] == seen;
      OwnPostsIn(seen, owner, content);
    }
  }

  /** Restricting the readings to a content and keeping one per post can be done in either order. */
  lemma DrillDownCommutes(rows: seq<Reading>, owner: string -> string, content: string, rule: Rule)
    ensures LatestBy(OfContent(rows, owner, content), rule) == OfContent(LatestBy(rows, rule), owner, content)
  {
    var own := OfContent(rows, owner, content);
    var latest, posts := LatestBy(rows, rule), Keys(rows, PostOf);
    OfContentKeys(rows, owner, content);
    forall k | 0 <= k < |posts| ensures latest[k].post == posts[k] {
      KeptIffSeen(rows, posts[k], rule);
    }
    PickedPosts(latest, posts, owner, content);
    var picked, ownPosts := OfContent(latest, owner, content), OwnPosts(posts, owner, content);
    OwnPostsIn(posts, owner, content);
    forall k | 0 <= k < |ownPosts| ensures LatestBy(own, rule)[k] == picked[k] {
      assert ownPosts[k] in ownPosts;
      OfContentKept(rows, owner, ownPosts[k], rule);
      var i :| 0 <= i < |latest| && latest[i] == picked[k];
      assert Kept(rows, posts[i], rule) == Some(latest[i]);
    }
  }

  /** Picking readings picks their posts. */
  lemma {:induction false} PickedPosts(latest: seq<Reading>, posts: seq<string>,
      owner: string -> string, content: string)
    requires |latest| == |posts| && forall k | 0 <= k < |posts| :: latest[k].post == posts[k]
    ensures var picked, own := OfContent(latest, owner, content), OwnPosts(posts, owner, content);
            |picked| == |own| && forall k | 0 <= k < |own| :: picked[k].post == own[k] && picked[k] in latest
  {
    if latest != [] {
      PickedPosts(latest[..|latest| - 1], posts[..|posts| - 1], owner, content);
    }
  }

  // ---------------------------------------------------------------- breakdowns

  function PlatformOf(r: Reading): Platform {
    r.platform
  }

  const BY_PLATFORM := ByTag(SUM, PlatformOf, Amounts)

  function ContentOf(owner: string -> string): Reading -> string {
    (r: Reading) => owner(r.post)
  }

  function ByContent(owner: string -> string): Breakdown<Reading, string, string, Tally> {
    ByTag(SUM, ContentOf(owner), Amounts)
  }

  lemma SumLawful()
    ensures Lawful(SUM)
  {
  }

  function Everything<S>(): S -> bool {
    _ => true
  }

  lemma {:induction false} TotalIsSum<K>(b: Breakdown<Reading, K, K, Tally>, readings: seq<Reading>)
    requires b.m == SUM && b.amounts == Amounts
    ensures Total(b, readings, Everything()) == SumTally(readings)
  {
    if readings != [] {
      TotalIsSum(b, readings[..|readings| - 1]);
    }
  }

  /** The platform and content breakdowns each share out the whole: reach, engagement, revenue, posts. */
  lemma BreakdownsSumToTotals(latest: seq<Reading>, owner: string -> string)
    ensures Over(SUM, Items(BY_PLATFORM, latest), Everything()) == SumTally(latest)
    ensures Over(SUM, Items(ByContent(owner), latest), Everything()) == SumTally(latest)
  {
    SumLawful();
    Conserved(BY_PLATFORM, latest, Everything());
    Conserved(ByContent(owner), latest, Everything());
    TotalIsSum(BY_PLATFORM, latest);
    TotalIsSum(ByContent(owner), latest);
  }

  lemma {:induction false} GroupIsDrillDown(latest: seq<Reading>, owner: string -> string, content: string)
    ensures Group(ByContent(owner), latest, content) == SumTally(OfContent(latest, owner, content))
  {
    if latest != [] {
      var init, last := latest[..|latest| - 1], latest[|latest| - 1];
      GroupIsDrillDown(init, owner, content);
      var mine := OfContent(init, owner, content);
      assert (mine + [last])[..|mine|] == mine;
    }
  }

  /** The drill-down on the summary's own answer: its totals are the figures of the content's one row. */
  lemma DrillDownInPlace(rows: seq<Reading>, owner: string -> string, content: string)
    ensures var items := Items(ByContent(owner), LatestBy(rows, IfNewer));
            var totals := SumTally(LatestBy(OfContent(rows, owner, content), IfNewer));
            if exists r :: r in rows && owner(r.post) == content
            then OneRowShows(items, content, totals)
            else totals == ZERO && forall j | 0 <= j < |items| :: items[j].seed != content
  {
    var latest := LatestBy(rows, IfNewer);
    DrillDownCommutes(rows, owner, content, IfNewer);
    GroupIsDrillDown(latest, owner, content);
    if exists r :: r in rows && owner(r.post) == content {
      HasLatest(rows, owner, content);
      OneItemPerTag(SUM, ContentOf(owner), Amounts, latest, content);
    } else {
      NoReadings(rows, owner, content);
    }
  }

  /** Exactly one item is labelled `content`, and it holds `totals`. */
  ghost predicate OneRowShows(items: seq<Item<string, Tally>>, content: string, totals: Tally) {
    exists i :: 0 <= i < |items| && items[i] == Item(content, totals)
      && forall j | 0 <= j < |items| && items[j].seed == content :: j == i
  }

  /**
    The drill-down into a content is its own query.  If readings that tie for the newest of a post carry
    the same figures, its totals are the figures of the content's one row in the summary, whatever order
    either answer gave tied rows; a content without readings has no row and zero totals.
   */
  lemma DrillDownReconciles(rows: seq<Reading>, own: seq<Reading>, owner: string -> string, content: string)
    requires Answers(OfContent(rows, owner, content), own) && TiesAlike(own)
    ensures var items := Items(ByContent(owner), LatestBy(rows, IfNewer));
            var totals := SumTally(LatestBy(own, IfNewer));
            if exists r :: r in rows && owner(r.post) == content
            then OneRowShows(items, content, totals)
            else totals == ZERO && forall j | 0 <= j < |items| :: items[j].seed != content
  {
    AlikeTotals(own, OfContent(rows, owner, content));
    DrillDownInPlace(rows, owner, content);
  }

  /** Filtering keeps the order and the rows apart. */
  lemma {:induction false} OfContentOrdered(rows: seq<Reading>, owner: string -> string, content: string)
    requires InTimeOrder(rows) && OneRowPerId(rows)
    ensures InTimeOrder(OfContent(rows, owner, content)) && OneRowPerId(OfContent(rows, owner, content))
  {
    if rows != [] {
      var n := |rows| - 1;
      OfContentOrdered(rows[..n], owner, content);
      var own := OfContent(rows[..n], owner, content);
      FilterIn(OnContent(owner, content), rows[..n]);
      forall i | 0 <= i < |own| ensures own[i].collectedAt <= rows[n].collectedAt && own[i].id != rows[n].id {
        assert own[i] in rows[..n];
      }
    }
  }

  /**
    And only then: a drill-down has the totals of its share of the summary, however its answer is ordered,
    exactly when the content's readings that tie for the newest of their post carry the same figures.
   */
  lemma DrillDownReconcilesIff(rows: seq<Reading>, owner: string -> string, content: string)
    requires InTimeOrder(rows) && OneRowPerId(rows)
    ensures (forall own | Answers(OfContent(rows, owner, content), own) ::
               SumTally(LatestBy(own, IfNewer)) == SumTally(OfContent(LatestBy(rows, IfNewer), owner, content)))
       <==> TiesAlike(OfContent(rows, owner, content))
  {
    OfContentOrdered(rows, owner, content);
    DrillDownCommutes(rows, owner, content, IfNewer);
    TotalsStableIff(OfContent(rows, owner, content));
  }

  /** Two tied readings of different figures, answered in two orders, give two totals. */
  lemma SwappedTieDisagrees(a: Reading, b: Reading, owner: string -> string)
    requires a.post == b.post && SameTimes(a, b) && Amounts(a) != Amounts(b)
    ensures OfContent([a, b], owner, owner(a.post)) == [a, b] && Answers([a, b], [b, a])
    ensures SumTally(LatestBy([a, b], IfNewer)) != SumTally(LatestBy([b, a], IfNewer))
  {
    assert InTimeOrder([b, a]) && multiset([a, b]) == multiset([b, a]);
    FilterAll(OnContent(owner, owner(a.post)), [a, b]);
    TieTotals(a, b);
  }

  lemma TieTotals(a: Reading, b: Reading)
    requires a.post == b.post && SameTimes(a, b)
    ensures SumTally(LatestBy([a, b], IfNewer)) == Amounts(a) && SumTally(LatestBy([b, a], IfNewer)) == Amounts(b)
  {
    TieKeepsFirst(a, b);
    TieKeepsFirst(b, a);
    OneTally(a);
    OneTally(b);
  }

  lemma OneTally(r: Reading)
    ensures SumTally([r]) == Amounts(r)
  {
    assert [r][..0] == [];
  }

  /** Of two readings of one post with the same two times the dashboard keeps the first, the export the second. */
  lemma TieKeepsFirst(a: Reading, b: Reading)
    requires a.post == b.post && SameTimes(a, b)
    ensures LatestBy([a, b], IfNewer) == [a] && LatestBy([a, b], IfNotOlder) == [b]
  {
    var rows, p := [a, b], a.post;
    assert rows[..1] == [a] && [a][..0] == [];
    KeptOfOne(a, IfNewer);
    KeptOfOne(a, IfNotOlder);
    assert Keys(rows, PostOf) == Seen(Keys([a], PostOf), p) == [p];
    assert Kept(rows, p, IfNewer) == Some(a) && Kept(rows, p, IfNotOlder) == Some(b);
  }

  lemma KeptOfOne(a: Reading, rule: Rule)
    ensures Kept([a], a.post, rule) == Some(a) && Keys([a], PostOf) == [a.post]
  {
    assert [a][..0] == [];
    assert Kept([], a.post, rule) == None && Keys([], PostOf) == [];
  }

  lemma HasLatest(rows: seq<Reading>, owner: string -> string, content: string)
    requires exists r :: r in rows && owner(r.post) == content
    ensures exists r :: r in LatestBy(rows, IfNewer) && ContentOf(owner)(r) == content
  {
    var r :| r in rows && owner(r.post) == content;
    var n :| 0 <= n < |rows| && rows[n] == r;
    var posts := Keys(rows, PostOf);
    KeysAre(rows, PostOf);
    assert PostOf(rows[n]) in posts;
    var k :| 0 <= k < |posts| && posts[k] == r.post;
    KeptIffSeen(rows, posts[k], IfNewer);
    assert LatestBy(rows, IfNewer)[k] in LatestBy(rows, IfNewer);
  }

  lemma NoReadings(rows: seq<Reading>, owner: string -> string, content: string)
    requires forall r :: r in rows ==> owner(r.post) != content
    ensures var latest := LatestBy(rows, IfNewer);
            && (forall k | 0 <= k < |latest| :: owner(latest[k].post) != content)
            && OfContent(latest, owner, content) == []
            && forall j | 0 <= j < |Items(ByContent(owner), latest)| ::
                 Items(ByContent(owner), latest)[j].seed != content
  {
    var latest, posts := LatestBy(rows, IfNewer), Keys(rows, PostOf);
    forall k | 0 <= k < |latest| ensures owner(latest[k].post) != content {
      KeptIffSeen(rows, posts[k], IfNewer);
    }
    NoneOfContent(latest, owner, content);
    var contents := Keys(latest, ContentOf(owner));
    KeysAre(latest, ContentOf(owner));
    forall j | 0 <= j < |contents| ensures Items(ByContent(owner), latest)[j].seed != content {
      FirstHasKey(latest, ContentOf(owner), contents[j]);
      assert contents[j] in contents;
    }
  }

  lemma {:induction false} NoneOfContent(latest: seq<Reading>, owner: string -> string, content: string)
    requires forall k | 0 <= k < |latest| :: owner(latest[k].post) != content
    ensures OfContent(latest, owner, content) == []
  {
    if latest != [] {
      NoneOfContent(latest[..|latest| - 1], owner, content);
    }
  }

  // ---------------------------------------------------------------- the views

  /** `.sort((a, b) => b.revenue - a.revenue)`, which leaves equal rows in their order. */
  function Ranked<S>(items: seq<Item<S, Tally>>): seq<Item<S, Tally>> {
    if items == [] then [] else Place(items[0], Ranked(items[1..]))
  }

  function Place<S>(x: Item<S, Tally>, ranked: seq<Item<S, Tally>>): seq<Item<S, Tally>> {
    if ranked == [] || ranked[0].totals.revenue <= x.totals.revenue then [x] + ranked
    else [ranked[0]] + Place(x, ranked[1..])
  }

  ghost predicate Descending<S>(items: seq<Item<S, Tally>>) {
    forall i, j | 0 <= i < j < |items| :: items[i].totals.revenue >= items[j].totals.revenue
  }

  /** The sum over items, all items counted. */
  function SumItems<S>(items: seq<Item<S, Tally>>): Tally {
    if items == [] then ZERO else Plus(items[0].totals, SumItems(items[1..]))
  }

  lemma {:induction false} PlaceDescends<S>(x: Item<S, Tally>, ranked: seq<Item<S, Tally>>)
    requires Descending(ranked)
    ensures Descending(Place(x, ranked))
    ensures Place(x, ranked) != [] && (Place(x, ranked)[0] == x || (ranked != [] && Place(x, ranked)[0] == ranked[0]))
  {
    if ranked == [] || ranked[0].totals.revenue <= x.totals.revenue {
    } else {
      PlaceDescends(x, ranked[1..]);
    }
  }

  lemma SumItemsCons<S>(x: Item<S, Tally>, items: seq<Item<S, Tally>>)
    ensures SumItems([x] + items) == Plus(x.totals, SumItems(items))
  {
    assert ([x] + items)[1..] == items;
  }

  lemma {:induction false} PlaceSums<S>(x: Item<S, Tally>, ranked: seq<Item<S, Tally>>)
    ensures SumItems(Place(x, ranked)) == Plus(x.totals, SumItems(ranked))
  {
    if ranked == [] || ranked[0].totals.revenue <= x.totals.revenue {
      SumItemsCons(x, ranked);
    } else {
      PlaceSums(x, ranked[1..]);
      SumItemsCons(ranked[0], Place(x, ranked[1..]));
    }
  }

  lemma {:induction false} PlacePermutes<S>(x: Item<S, Tally>, ranked: seq<Item<S, Tally>>)
    ensures multiset(Place(x, ranked)) == multiset(ranked) + multiset{x}
  {
    if ranked == [] || ranked[0].totals.revenue <= x.totals.revenue {
    } else {
      PlacePermutes(x, ranked[1..]);
      assert ranked == [ranked[0]] + ranked[1..];
    }
  }

  lemma {:induction false} RankedSorts<S>(items: seq<Item<S, Tally>>)
    ensures Descending(Ranked(items)) && multiset(Ranked(items)) == multiset(items)
    ensures SumItems(Ranked(items)) == SumItems(items)
  {
    if items != [] {
      RankedSorts(items[1..]);
      PlaceDescends(items[0], Ranked(items[1..]));
      PlaceSums(items[0], Ranked(items[1..]));
      PlacePermutes(items[0], Ranked(items[1..]));
      assert items == [items[0]] + items[1..];
    }
  }

  function WithRevenue<S>(revenue: int): Item<S, Tally> -> bool {
    (item: Item<S, Tally>) => item.totals.revenue == revenue
  }

  lemma {:induction false} FilterCons<R>(p: R -> bool, x: R, rows: seq<R>)
    ensures Filter(p, [x] + rows) == (if p(x) then [x] else []) + Filter(p, rows)
  {
    var all := [x] + rows;
    if rows == [] {
      assert all[..0] == [] && Filter(p, all[..0]) == [];
    } else {
      var n := |rows| - 1;
      FilterCons(p, x, rows[..n]);
      assert all[..|all| - 1] == [x] + rows[..n];
    }
  }

  /** An item is placed before its equals. */
  lemma {:induction false} PlaceStable<S>(x: Item<S, Tally>, ranked: seq<Item<S, Tally>>, revenue: int)
    requires Descending(ranked)
    ensures Filter(WithRevenue(revenue), Place(x, ranked))
         == (if x.totals.revenue == revenue then [x] else []) + Filter(WithRevenue(revenue), ranked)
  {
    if ranked == [] || ranked[0].totals.revenue <= x.totals.revenue {
      FilterCons(WithRevenue(revenue), x, ranked);
    } else {
      PlaceStable(x, ranked[1..], revenue);
      FilterCons(WithRevenue(revenue), ranked[0], Place(x, ranked[1..]));
      FilterCons(WithRevenue(revenue), ranked[0], ranked[1..]);
      assert ranked == [ranked[0]] + ranked[1..];
    }
  }

  /** Items of equal revenue keep their order. */
  lemma {:induction false} RankedStable<S>(items: seq<Item<S, Tally>>, revenue: int)
    ensures Filter(WithRevenue(revenue), Ranked(items)) == Filter(WithRevenue(revenue), items)
  {
    if items != [] {
      RankedSorts(items[1..]);
      RankedStable(items[1..], revenue);
      PlaceStable(items[0], Ranked(items[1..]), revenue);
      FilterCons(WithRevenue(revenue), items[0], items[1..]);
      assert items == [items[0]] + items[1..];
    }
  }

  /** Sorted by falling revenue, equals in the order they came in. */
  ghost predicate StablyRanked<S>(ranked: seq<Item<S, Tally>>, items: seq<Item<S, Tally>>) {
    && Descending(ranked) && multiset(ranked) == multiset(items)
    && (forall revenue: int :: Filter(WithRevenue(revenue), ranked) == Filter(WithRevenue(revenue), items))
  }

  lemma RankedIs<S>(items: seq<Item<S, Tally>>)
    ensures StablyRanked(Ranked(items), items) && SumItems(Ranked(items)) == SumItems(items)
  {
    RankedSorts(items);
    forall revenue: int ensures Filter(WithRevenue(revenue), Ranked(items)) == Filter(WithRevenue(revenue), items) {
      RankedStable(items, revenue);
    }
  }

  lemma {:induction false} SumItemsIsOver<S>(items: seq<Item<S, Tally>>)
    ensures SumItems(items) == Over(SUM, items, Everything())
  {
    if items != [] {
      var n := |items| - 1;
      SumItemsIsOver(items[..n]);
      SumItemsSnoc(items[..n], items[n]);
      assert items == items[..n] + [items[n]];
    }
  }

  lemma {:induction false} SumItemsSnoc<S>(items: seq<Item<S, Tally>>, x: Item<S, Tally>)
    ensures SumItems(items + [x]) == Plus(SumItems(items), x.totals)
  {
    if items == [] {
      assert ([] + [x])[1..] == [];
    } else {
      assert (items + [x])[1..] == items[1..] + [x];
      SumItemsSnoc(items[1..], x);
    }
  }

  method RankedByPlatform(latest: seq<Reading>) returns (items: seq<Item<Platform, Tally>>)
    ensures StablyRanked(items, Items(BY_PLATFORM, latest))
    ensures SumItems(items) == SumTally(latest)
  {
    items := BreakDown(BY_PLATFORM, latest);
    RankedIs(items);
    SumItemsIsOver(items);
    BreakdownsSumToTotals(latest, (p: string) => p);
    items := Ranked(items);
  }

  method RankedByContent(latest: seq<Reading>, owner: string -> string) returns (items: seq<Item<string, Tally>>)
    ensures StablyRanked(items, Items(ByContent(owner), latest))
    ensures SumItems(items) == SumTally(latest)
  {
    items := BreakDown(ByContent(owner), latest);
    RankedIs(items);
    SumItemsIsOver(items);
    BreakdownsSumToTotals(latest, owner);
    items := Ranked(items);
  }

  /** The overview: its platform rows add up to its totals, which are the newest readings' sum. */
  method Overview(metrics: seq<Reading>)
      returns (totals: Tally, byPlatform: seq<Item<Platform, Tally>>, trend: seq<TrendPoint>)
    requires InTimeOrder(metrics)
    ensures totals == SumTally(LatestBy(metrics, IfNewer)) == SumItems(byPlatform)
    ensures StablyRanked(byPlatform, Items(BY_PLATFORM, LatestBy(metrics, IfNewer))) && trend == Trend(metrics)
    ensures metrics != [] && LastIsNewest(metrics) ==>
      trend[|trend| - 1].reach == totals.reach && trend[|trend| - 1].revenue == totals.revenue
  {
    var latest := LatestPerPost(metrics);
    totals := SumTally(latest);
    byPlatform := RankedByPlatform(latest);
    trend := BuildTrend(metrics);
    if metrics != [] {
      TrendEndsAtTotals(metrics);
    }
  }

  /** The drill-down, from its own query's answer: totals and platform rows agree, and reconcile with the summary. */
  method ContentRevenue(own: seq<Reading>, ghost rows: seq<Reading>, owner: string -> string, content: string)
      returns (totals: Tally, byPlatform: seq<Item<Platform, Tally>>, trend: seq<TrendPoint>)
    requires Answers(OfContent(rows, owner, content), own)
    ensures totals == SumTally(LatestBy(own, IfNewer)) == SumItems(byPlatform)
    ensures StablyRanked(byPlatform, Items(BY_PLATFORM, LatestBy(own, IfNewer))) && trend == Trend(own)
    ensures TiesAlike(own) ==> totals == SumTally(OfContent(LatestBy(rows, IfNewer), owner, content))
  {
    var latest := LatestPerPost(own);
    totals := SumTally(latest);
    byPlatform := RankedByPlatform(latest);
    trend := BuildTrend(own);
    if TiesAlike(own) {
      DrillDownCommutes(rows, owner, content, IfNewer);
      AlikeTotals(own, OfContent(rows, owner, content));
    }
  }
}
