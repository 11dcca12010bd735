/**
  Which platform a content is recommended for: the shared tie-break, and the two read paths (one
  content at a time, and all ready contents in one query) over the score rows both engines append.
 */
module Ranking {
  import opened Platforms
  import opened Grouping

  datatype Engine = V1 | V2

  /** A score is held in ten-thousandths, the scale of its column. */
  datatype ScoreRow = ScoreRow(content: string, platform: Platform, score: int, engine: Engine, computedAt: int)

  const RANKED_PLATFORMS: seq<Platform> := [Facebook, YouTube]

  const PLATFORM_TIE_BREAK_ORDER: seq<Platform> := RANKED_PLATFORMS + [TikTok, LineOa]

  function PlatformsOf(engine: Engine): seq<Platform> {
    match engine
    case V1 => RANKED_PLATFORMS
    case V2 => PLATFORM_TIE_BREAK_ORDER
  }

  // ---------------------------------------------------------------- the tie-break

  const MAX_SAFE_INTEGER := 9_007_199_254_740_991

  function IndexOf(order: seq<Platform>, p: Platform): (i: int)
    ensures i == -1 <==> p !in order
    ensures i != -1 ==> 0 <= i < |order| && order[i] == p
  {
    if order == [] then -1
    else if order[0] == p then 0
    else var i := IndexOf(order[1..], p); if i == -1 then -1 else i + 1
  }

  function Rank(order: seq<Platform>, p: Platform): int {
    var index := IndexOf(order, p);
    if index == -1 then MAX_SAFE_INTEGER else index
  }

  function Better(order: seq<Platform>, best: ScoreRow, row: ScoreRow): ScoreRow {
    if row.score > best.score then row
    else if row.score < best.score then best
    else if Rank(order, row.platform) < Rank(order, best.platform) then row
    else best
  }

  /** `scores.reduce(...)` from the first row on. */
  function Reduced(order: seq<Platform>, scores: seq<ScoreRow>): ScoreRow
    requires scores != []
  {
    var n := |scores| - 1;
    if n == 0 then scores[0] else Better(order, Reduced(order, scores[..n]), scores[n])
  }

  function PickIn(order: seq<Platform>, scores: seq<ScoreRow>): Option<ScoreRow> {
    if scores == [] then None else Some(Reduced(order, scores))
  }

  function PickRecommendedScore(scores: seq<ScoreRow>): Option<ScoreRow> {
    PickIn(PLATFORM_TIE_BREAK_ORDER, scores)
  }

  /** Higher score, or equal score and earlier platform. */
  predicate Beats(order: seq<Platform>, a: ScoreRow, b: ScoreRow) {
    a.score > b.score || (a.score == b.score && Rank(order, a.platform) < Rank(order, b.platform))
  }

  ghost predicate DistinctPlatforms(scores: seq<ScoreRow>) {
    forall i, j | 0 <= i < j < |scores| :: scores[i].platform != scores[j].platform
  }

  lemma {:induction false} NoneBeatsPick(order: seq<Platform>, scores: seq<ScoreRow>)
    requires scores != []
    ensures Reduced(order, scores) in scores
    ensures forall i | 0 <= i < |scores| :: !Beats(order, scores[i], Reduced(order, scores))
  {
    var n := |scores| - 1;
    if n > 0 {
      NoneBeatsPick(order, scores[..n]);
    }
  }

  lemma RankInjective(p: Platform, q: Platform)
    ensures Rank(PLATFORM_TIE_BREAK_ORDER, p) == Rank(PLATFORM_TIE_BREAK_ORDER, q) ==> p == q
    ensures 0 <= Rank(PLATFORM_TIE_BREAK_ORDER, p) < 4
  {
    var order := PLATFORM_TIE_BREAK_ORDER;
    assert order == [Facebook, YouTube, TikTok, LineOa];
    assert p in order && q in order by {
      assert order[0] == Facebook && order[1] == YouTube && order[2] == TikTok && order[3] == LineOa;
    }
  }

  /** With one row per platform the pick is the one row that beats every other. */
  lemma PickIsUniqueMaximum(scores: seq<ScoreRow>, row: ScoreRow)
    requires DistinctPlatforms(scores)
    ensures PickRecommendedScore(scores) == Some(row) <==>
              row in scores && forall s | s in scores && s != row :: Beats(PLATFORM_TIE_BREAK_ORDER, row, s)
    ensures PickRecommendedScore(scores) == None <==> scores == []
  {
    var order := PLATFORM_TIE_BREAK_ORDER;
    if scores != [] {
      var pick := Reduced(order, scores);
      NoneBeatsPick(order, scores);
      forall s | s in scores && s != pick ensures Beats(order, pick, s) {
        var i :| 0 <= i < |scores| && scores[i] == s;
        assert !Beats(order, scores[i], pick);
        RankInjective(s.platform, pick.platform);
        assert s.platform != pick.platform;
      }
    }
  }

  /** The order in which the rows arrive does not matter. */
  lemma PickIgnoresOrder(xs: seq<ScoreRow>, ys: seq<ScoreRow>)
    requires DistinctPlatforms(xs) && DistinctPlatforms(ys)
    requires forall s :: s in xs <==> s in ys
    ensures PickRecommendedScore(xs) == PickRecommendedScore(ys)
  {
    assert ys != [] ==> ys[0] in xs;
    match PickRecommendedScore(xs)
    case None =>
    case Some(row) =>
      PickIsUniqueMaximum(xs, row);
      PickIsUniqueMaximum(ys, row);
  }

  lemma {:induction false} IndexInPrefix(order: seq<Platform>, more: seq<Platform>, p: Platform)
    requires p in order
    ensures IndexOf(order + more, p) == IndexOf(order, p)
  {
    if order[0] != p {
      assert (order + more)[1..] == order[1..] + more;
      IndexInPrefix(order[1..], more, p);
    }
  }

  /** Appending platforms to the order changes no outcome among the platforms already in it. */
  lemma {:induction false} AppendingKeepsOutcomes(order: seq<Platform>, more: seq<Platform>, scores: seq<ScoreRow>)
    requires forall i | 0 <= i < |scores| :: scores[i].platform in order
    ensures PickIn(order + more, scores) == PickIn(order, scores)
  {
    var n := |scores| - 1;
    if n >= 1 {
      AppendingKeepsOutcomes(order, more, scores[..n]);
      NoneBeatsPick(order, scores[..n]);
      IndexInPrefix(order, more, scores[n].platform);
      IndexInPrefix(order, more, Reduced(order, scores[..n]).platform);
    }
  }

  /** So every Facebook and YouTube outcome is what it was before the other two were appended. */
  lemma OriginalOutcomesUnchanged(scores: seq<ScoreRow>)
    requires forall i | 0 <= i < |scores| :: scores[i].platform in RANKED_PLATFORMS
    ensures PickRecommendedScore(scores) == PickIn(RANKED_PLATFORMS, scores)
  {
    AppendingKeepsOutcomes(RANKED_PLATFORMS, [TikTok, LineOa], scores);
  }

  // ---------------------------------------------------------------- the newest row per platform

  function PlatformOf(row: ScoreRow): Platform {
    row.platform
  }

  /** The first row of each platform, platforms in order of first appearance. */
  function Newest(rows: seq<ScoreRow>): seq<ScoreRow> {
    var platforms := Keys(rows, PlatformOf);
    seq(|platforms|, i requires 0 <= i < |platforms| => First(rows, PlatformOf, platforms[i]))
  }

  method LatestScorePerPlatform(rowsNewestFirst: seq<ScoreRow>) returns (latest: seq<ScoreRow>)
    ensures latest == Newest(rowsNewestFirst)
  {
    var byPlatform := new OrderedMap<Platform, ScoreRow>();
    for n := 0 to |rowsNewestFirst|
      invariant fresh(byPlatform) && byPlatform.Valid()
      invariant byPlatform.keys == Keys(rowsNewestFirst[..n], PlatformOf)
      invariant forall p | p in byPlatform.keys :: byPlatform.values[p] == First(rowsNewestFirst[..n], PlatformOf, p)
    {
      var row := rowsNewestFirst[n];
      assert rowsNewestFirst[..n + 1][..n] == rowsNewestFirst[..n];
      if byPlatform.Get(row.platform) == None {
        byPlatform.Set(row.platform, row);
      }
    }
    assert rowsNewestFirst[..|rowsNewestFirst|] == rowsNewestFirst;
    latest := byPlatform.Values();
  }

  // ---------------------------------------------------------------- the queries

  /** `computedAt DESC, platform ASC`. */
  predicate Before(a: ScoreRow, b: ScoreRow) {
    || a.computedAt > b.computedAt
    || (a.computedAt == b.computedAt
        && Rank(PLATFORM_TIE_BREAK_ORDER, a.platform) < Rank(PLATFORM_TIE_BREAK_ORDER, b.platform))
  }

  ghost predicate InOrder(rows: seq<ScoreRow>) {
    forall i, j | 0 <= i < j < |rows| :: !Before(rows[j], rows[i])
  }

  ghost predicate StrictlyInOrder(rows: seq<ScoreRow>) {
    forall i, j | 0 <= i < j < |rows| :: Before(rows[i], rows[j])
  }

  function InScope(contents: seq<string>, engine: Engine): ScoreRow -> bool {
    (row: ScoreRow) => row.content in contents && row.engine == engine
  }

  function Scoped(table: seq<ScoreRow>, contents: seq<string>, engine: Engine): seq<ScoreRow> {
    Filter(InScope(contents, engine), table)
  }

  /** Any answer the database may give: the matching rows, in the requested order, ties in any order. */
  ghost predicate Answers(table: seq<ScoreRow>, contents: seq<string>, engine: Engine, answer: seq<ScoreRow>) {
    multiset(answer) == multiset(Scoped(table, contents, engine)) && InOrder(answer)
  }

  function HasContent(content: string): ScoreRow -> bool {
    (row: ScoreRow) => row.content == content
  }

  function OfContent(rows: seq<ScoreRow>, content: string): seq<ScoreRow> {
    Filter(HasContent(content), rows)
  }

  datatype ReadyContent = ReadyContent(content: string, latest: seq<ScoreRow>, recommended: Option<Platform>)

  /** The platform of a row with the highest score, the earliest of those in the tie-break order. */
  function TopPlatform(scores: seq<ScoreRow>): (r: Option<Platform>)
    ensures r.None? <==> scores == []
    ensures r.Some? ==> exists s | s in scores :: s.platform == r.value && forall t | t in scores ::
              t.score < s.score || (t.score == s.score && Rank(PLATFORM_TIE_BREAK_ORDER, s.platform)
                                                          <= Rank(PLATFORM_TIE_BREAK_ORDER, t.platform))
  {
    assert scores != [] ==>
             && Reduced(PLATFORM_TIE_BREAK_ORDER, scores) in scores
             && forall i | 0 <= i < |scores| ::
                  !Beats(PLATFORM_TIE_BREAK_ORDER, scores[i], Reduced(PLATFORM_TIE_BREAK_ORDER, scores)) by {
      if scores != [] {
        NoneBeatsPick(PLATFORM_TIE_BREAK_ORDER, scores);
      }
    }
    match PickRecommendedScore(scores)
    case None => None
    case Some(row) => Some(row.platform)
  }

  /** Groups the rows of one query by content, each group in the order of the answer. */
  method RowsByContent(scores: seq<ScoreRow>) returns (rowsByContent: OrderedMap<string, seq<ScoreRow>>)
    ensures fresh(rowsByContent) && rowsByContent.Valid()
    ensures forall c | c in rowsByContent.values :: rowsByContent.values[c] == OfContent(scores, c)
    ensures forall c | c !in rowsByContent.values :: OfContent(scores, c) == []
  {
    rowsByContent := new OrderedMap<string, seq<ScoreRow>>();
    for n := 0 to |scores|
      invariant fresh(rowsByContent) && rowsByContent.Valid()
      invariant forall c | c in rowsByContent.values :: rowsByContent.values[c] == OfContent(scores[..n], c)
      invariant forall c | c !in rowsByContent.values :: OfContent(scores[..n], c) == []
    {
      var score := scores[n];
      assert scores[..n + 1][..n] == scores[..n];
      var existing := rowsByContent.Get(score.content);
      var list := if existing.Some? then existing.value else [];
      rowsByContent.Set(score.content, list + [score]);
    }
    assert scores[..|scores|] == scores;
  }

  /** The batched read: `scores` is the answer of the one query for all contents. */
  method ReadyContentsWithScores(contents: seq<string>, scores: seq<ScoreRow>) returns (ready: seq<ReadyContent>)
    ensures |ready| == |contents|
    ensures forall i | 0 <= i < |contents| ::
      ready[i] == ReadyContent(contents[i], Newest(OfContent(scores, contents[i])),
                               TopPlatform(Newest(OfContent(scores, contents[i]))))
  {
    ready := [];
    if |contents| == 0 { return; }
    var rowsByContent := RowsByContent(scores);
    ghost var groups := rowsByContent.values;
    assert Newest([]) == [];
    for i := 0 to |contents|
      invariant rowsByContent.values == groups
      invariant |ready| == i
      invariant forall k | 0 <= k < i ::
        ready[k] == ReadyContent(contents[k], Newest(OfContent(scores, contents[k])),
                                 TopPlatform(Newest(OfContent(scores, contents[k]))))
    {
      var rows := rowsByContent.Get(contents[i]);
      var latest := [];
      if rows.Some? {
        latest := LatestScorePerPlatform(rows.value);
      }
      ready := ready + [ReadyContent(contents[i], latest, TopPlatform(latest))];
    }
  }

  /** The read of one content: `rows` is the answer of its own query. */
  method GetRecommendation(rows: seq<ScoreRow>) returns (latest: seq<ScoreRow>, recommended: Option<ScoreRow>)
    ensures latest == Newest(rows) && recommended == PickRecommendedScore(latest)
  {
    latest := LatestScorePerPlatform(rows);
    recommended := PickRecommendedScore(latest);
  }
}
