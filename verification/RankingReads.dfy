/**
  Histories of recomputes and engine switches: both read paths return the active engine's last batch,
  whatever the other engine has left in the table.
 */
module RankingReads {
  import opened Platforms
  import opened Grouping
  import opened Ranking

  datatype Scores = Scores(facebook: int, youtube: int, tiktok: int, lineOa: int) {
    function At(p: Platform): int {
      match p
      case Facebook => facebook
      case YouTube => youtube
      case TikTok => tiktok
      case LineOa => lineOa
    }
  }

  /** One batch: two rows under the first engine, four under the second, all with one timestamp. */
  function BatchRows(engine: Engine, content: string, scores: Scores, at: int): (rows: seq<ScoreRow>)
    ensures |rows| == |PlatformsOf(engine)|
    ensures forall i | 0 <= i < |rows| ::
      rows[i] == ScoreRow(content, PlatformsOf(engine)[i], scores.At(PlatformsOf(engine)[i]), engine, at)
  {
    seq(|PlatformsOf(engine)|, i requires 0 <= i < |PlatformsOf(engine)| =>
      ScoreRow(content, PlatformsOf(engine)[i], scores.At(PlatformsOf(engine)[i]), engine, at))
  }

  class ScoreTable {
    var rows: seq<ScoreRow>

    constructor ()
      ensures rows == []
    {
      rows := [];
    }

    /** Appends one batch in one transaction, or nothing. */
    method ComputeScores(engine: Engine, content: string, found: bool, scores: Scores, at: int, commits: bool)
        returns (created: Option<seq<ScoreRow>>)
      modifies this
      ensures created == if found && commits then Some(BatchRows(engine, content, scores, at)) else None
      ensures rows == if found && commits then old(rows) + BatchRows(engine, content, scores, at) else old(rows)
    {
      if !found { return None; }
      var batch := [];
      for i := 0 to |PlatformsOf(engine)|
        invariant batch == BatchRows(engine, content, scores, at)[..i]
      {
        var platform := PlatformsOf(engine)[i];
        batch := batch + [ScoreRow(content, platform, scores.At(platform), engine, at)];
      }
      assert BatchRows(engine, content, scores, at)[..|batch|] == BatchRows(engine, content, scores, at);
      if !commits { return None; }
      rows := rows + batch;
      created := Some(batch);
    }
  }

  // ---------------------------------------------------------------- histories

  datatype Event = SwitchTo(engine: Engine) | Recompute(content: string, scores: Scores, at: int)

  /** The engine in effect after a history that began under the default engine. */
  function ActiveAfter(events: seq<Event>): Engine {
    if events == [] then V1 else
    match events[|events| - 1]
    case SwitchTo(engine) => engine
    case Recompute(_, _, _) => ActiveAfter(events[..|events| - 1])
  }

  /** The rows the last event appends. */
  function Appended(events: seq<Event>): seq<ScoreRow>
    requires events != []
  {
    match events[|events| - 1]
    case SwitchTo(_) => []
    case Recompute(content, scores, at) =>
      BatchRows(ActiveAfter(events[..|events| - 1]), content, scores, at)
  }

  function TableAfter(events: seq<Event>): seq<ScoreRow> {
    if events == [] then [] else TableAfter(events[..|events| - 1]) + Appended(events)
  }

  /** Did the last event score this content under this engine? */
  predicate ScoredLast(events: seq<Event>, content: string, engine: Engine)
    requires events != []
  {
    var last := events[|events| - 1];
    last.Recompute? && last.content == content && ActiveAfter(events[..|events| - 1]) == engine
  }

  /** The batch the engine last wrote for a content; empty when it never did. */
  function LastBatch(events: seq<Event>, content: string, engine: Engine): seq<ScoreRow> {
    if events == [] then []
    else if ScoredLast(events, content, engine) then Appended(events)
    else LastBatch(events[..|events| - 1], content, engine)
  }

  /** Recomputes of one content happen at increasing times. */
  ghost predicate TimesIncrease(events: seq<Event>) {
    forall i, j | 0 <= i < j < |events| && events[i].Recompute? && events[j].Recompute?
                  && events[i].content == events[j].content :: events[i].at < events[j].at
  }

  // ---------------------------------------------------------------- counting rows

  lemma {:induction false} OfContentInOrder(rows: seq<ScoreRow>, content: string)
    requires InOrder(rows)
    ensures InOrder(OfContent(rows, content))
    ensures forall i | 0 <= i < |OfContent(rows, content)| :: OfContent(rows, content)[i] in rows
  {
    if rows != [] {
      var n := |rows| - 1;
      OfContentInOrder(rows[..n], content);
      var kept := OfContent(rows[..n], content);
      forall i | 0 <= i < |kept| ensures !Before(rows[n], kept[i]) {
        assert kept[i] in rows[..n];
      }
    }
  }

  /** Only the asked engine's rows matter to an answer. */
  lemma OtherEngineIrrelevant(table: seq<ScoreRow>, other: seq<ScoreRow>, contents: seq<string>,
      engine: Engine, answer: seq<ScoreRow>)
    requires forall r: ScoreRow | r.engine == engine :: multiset(table)[r] == multiset(other)[r]
    ensures Answers(table, contents, engine, answer) <==> Answers(other, contents, engine, answer)
  {
    forall r ensures multiset(Scoped(table, contents, engine))[r] == multiset(Scoped(other, contents, engine))[r] {
      FilterCount(InScope(contents, engine), table, r);
      FilterCount(InScope(contents, engine), other, r);
    }
    assert multiset(Scoped(table, contents, engine)) == multiset(Scoped(other, contents, engine));
  }

  // ---------------------------------------------------------------- the one possible answer

  /** A content's rows under one engine, newest batch first. */
  function NewestFirst(events: seq<Event>, content: string, engine: Engine): seq<ScoreRow> {
    if events == [] then []
    else
      var earlier := NewestFirst(events[..|events| - 1], content, engine);
      if ScoredLast(events, content, engine) then Appended(events) + earlier else earlier
  }

  lemma {:induction false} NewestFirstCount(events: seq<Event>, content: string, engine: Engine, r: ScoreRow)
    ensures multiset(NewestFirst(events, content, engine))[r]
         == if r.content == content && r.engine == engine then multiset(TableAfter(events))[r] else 0
  {
    if events != [] {
      NewestFirstCount(events[..|events| - 1], content, engine, r);
      var added := Appended(events);
      if multiset(added)[r] > 0 {
        assert r in added;
      }
    }
  }

  ghost predicate RecomputedAt(events: seq<Event>, content: string, at: int) {
    exists k :: 0 <= k < |events| && events[k].Recompute? && events[k].content == content && events[k].at == at
  }

  lemma RecomputedEarlier(events: seq<Event>, content: string, at: int)
    requires events != [] && RecomputedAt(events[..|events| - 1], content, at)
    ensures RecomputedAt(events, content, at)
    ensures TimesIncrease(events) && events[|events| - 1].Recompute? && events[|events| - 1].content == content ==>
      at < events[|events| - 1].at
  {
    var earlier := events[..|events| - 1];
    var k :| 0 <= k < |earlier| && earlier[k].Recompute? && earlier[k].content == content && earlier[k].at == at;
    assert events[k] == earlier[k];
  }

  ghost predicate FromEvents(rows: seq<ScoreRow>, events: seq<Event>, content: string, engine: Engine) {
    forall i {:trigger rows[i]} | 0 <= i < |rows| ::
      RecomputedAt(events, content, rows[i].computedAt) && rows[i].platform in PlatformsOf(engine)
  }

  /** Every row of a content was written by one of its recomputes. */
  lemma {:induction false} RowsFromEvents(events: seq<Event>, content: string, engine: Engine)
    ensures FromEvents(NewestFirst(events, content, engine), events, content, engine)
  {
    if events != [] {
      var n := |events| - 1;
      RowsFromEvents(events[..n], content, engine);
      var rows, earlier := NewestFirst(events, content, engine), NewestFirst(events[..n], content, engine);
      var skipped := |rows| - |earlier|;
      forall i | 0 <= i < |rows|
        ensures RecomputedAt(events, content, rows[i].computedAt) && rows[i].platform in PlatformsOf(engine)
      {
        if i >= skipped {
          assert rows[i] == earlier[i - skipped];
          RecomputedEarlier(events, content, rows[i].computedAt);
        } else {
          assert rows[i] == Appended(events)[i];
          assert events[n].at == rows[i].computedAt;
        }
      }
    }
  }

  lemma RankOfPlace(engine: Engine, i: nat)
    requires i < |PlatformsOf(engine)|
    ensures Rank(PLATFORM_TIE_BREAK_ORDER, PlatformsOf(engine)[i]) == i
  {
    assert PLATFORM_TIE_BREAK_ORDER == [Facebook, YouTube, TikTok, LineOa];
    RanksAre();
  }

  lemma BatchInOrder(engine: Engine, content: string, scores: Scores, at: int)
    ensures StrictlyInOrder(BatchRows(engine, content, scores, at))
    ensures DistinctPlatforms(BatchRows(engine, content, scores, at))
  {
    var rows := BatchRows(engine, content, scores, at);
    forall i, j | 0 <= i < j < |rows|
      ensures Before(rows[i], rows[j]) && rows[i].platform != rows[j].platform
    {
      RankOfPlace(engine, i);
      RankOfPlace(engine, j);
    }
  }

  lemma RanksAre()
    ensures Rank(PLATFORM_TIE_BREAK_ORDER, Facebook) == 0 && Rank(PLATFORM_TIE_BREAK_ORDER, YouTube) == 1
    ensures Rank(PLATFORM_TIE_BREAK_ORDER, TikTok) == 2 && Rank(PLATFORM_TIE_BREAK_ORDER, LineOa) == 3
  {
    var order := PLATFORM_TIE_BREAK_ORDER;
    assert order == [Facebook, YouTube, TikTok, LineOa];
    assert order[1..] == [YouTube, TikTok, LineOa] && order[1..][1..] == [TikTok, LineOa];
    assert order[1..][1..][1..] == [LineOa];
  }

  lemma {:induction false} NewestFirstInOrder(events: seq<Event>, content: string, engine: Engine)
    requires TimesIncrease(events)
    ensures StrictlyInOrder(NewestFirst(events, content, engine))
  {
    if events != [] {
      var n := |events| - 1;
      var earlier := NewestFirst(events[..n], content, engine);
      NewestFirstInOrder(events[..n], content, engine);
      if ScoredLast(events, content, engine) {
        var last := events[n];
        BatchInOrder(engine, content, last.scores, last.at);
        RowsFromEvents(events[..n], content, engine);
        forall j | 0 <= j < |earlier| ensures earlier[j].computedAt < last.at {
          RecomputedEarlier(events, content, earlier[j].computedAt);
        }
      }
    }
  }

  predicate SameKey(a: ScoreRow, b: ScoreRow) {
    a.computedAt == b.computedAt && a.platform == b.platform
  }

  /** Rows that the requested order cannot tell apart are equal. */
  ghost predicate KeysTell(rows: seq<ScoreRow>) {
    forall i, j | 0 <= i < |rows| && 0 <= j < |rows| && SameKey(rows[i], rows[j]) :: rows[i] == rows[j]
  }

  /** The requested order is total up to the key. */
  lemma NeitherBefore(a: ScoreRow, b: ScoreRow)
    ensures !Before(a, b) && !Before(b, a) <==> SameKey(a, b)
  {
    RankInjective(a.platform, b.platform);
  }

  lemma SameFirst(rows: seq<ScoreRow>, answer: seq<ScoreRow>)
    requires InOrder(rows) && InOrder(answer) && multiset(rows) == multiset(answer)
    requires rows != [] && answer != []
    ensures SameKey(rows[0], answer[0]) && answer[0] in rows
  {
    var a, b := rows[0], answer[0];
    assert b in multiset(rows) && a in multiset(answer);
    var i :| 0 <= i < |rows| && rows[i] == b;
    var j :| 0 <= j < |answer| && answer[j] == a;
    assert i > 0 ==> !Before(rows[i], rows[0]);
    assert j > 0 ==> !Before(answer[j], answer[0]);
    NeitherBefore(a, b);
    NeitherBefore(a, a);
  }

  lemma FirstEqual(rows: seq<ScoreRow>, answer: seq<ScoreRow>)
    requires InOrder(rows) && KeysTell(rows) && InOrder(answer) && multiset(rows) == multiset(answer)
    requires rows != [] && answer != []
    ensures rows[0] == answer[0]
  {
    SameFirst(rows, answer);
    var k :| 0 <= k < |rows| && rows[k] == answer[0];
    assert SameKey(rows[0], rows[k]);
  }

  lemma Tail(rows: seq<ScoreRow>)
    requires rows != []
    ensures multiset(rows[1..]) == multiset(rows) - multiset{rows[0]}
    ensures InOrder(rows) ==> InOrder(rows[1..])
    ensures KeysTell(rows) ==> KeysTell(rows[1..])
    ensures rows == [rows[0]] + rows[1..]
  {
    assert rows == [rows[0]] + rows[1..];
  }

  /** Where the key tells rows apart, the order leaves the database no choice. */
  lemma {:induction false} OnlyOneOrder(rows: seq<ScoreRow>, answer: seq<ScoreRow>)
    requires InOrder(rows) && KeysTell(rows) && InOrder(answer) && multiset(rows) == multiset(answer)
    ensures rows == answer
    decreases |rows|
  {
    assert |rows| == |multiset(rows)| == |multiset(answer)| == |answer|;
    if rows != [] {
      FirstEqual(rows, answer);
      Tail(rows);
      Tail(answer);
      OnlyOneOrder(rows[1..], answer[1..]);
    }
  }

  lemma StrictTells(rows: seq<ScoreRow>)
    requires StrictlyInOrder(rows)
    ensures InOrder(rows) && KeysTell(rows)
  {
    forall i, j | 0 <= i < |rows| && 0 <= j < |rows| && SameKey(rows[i], rows[j]) ensures i == j {
      NeitherBefore(rows[i], rows[j]);
    }
  }

  // ---------------------------------------------------------------- the newest rows are the last batch

  lemma {:induction false} DistinctIsNewest(rows: seq<ScoreRow>)
    requires DistinctPlatforms(rows)
    ensures |Keys(rows, PlatformOf)| == |rows|
    ensures forall i | 0 <= i < |rows| :: Keys(rows, PlatformOf)[i] == rows[i].platform
    ensures Newest(rows) == rows
  {
    if rows != [] {
      var n := |rows| - 1;
      DistinctIsNewest(rows[..n]);
      var before := Keys(rows[..n], PlatformOf);
      assert rows[n].platform !in before;
      assert Keys(rows, PlatformOf) == before + [rows[n].platform];
      forall i | 0 <= i < |rows| ensures Newest(rows)[i] == rows[i] {
        if i < n {
          assert Newest(rows[..n])[i] == rows[i];
          assert before[i] in before;
        }
      }
    }
  }

  /** Rows of platforms already present change nothing. */
  lemma {:induction false} LaterRowsIgnored(rows: seq<ScoreRow>, more: seq<ScoreRow>)
    requires forall i | 0 <= i < |more| :: more[i].platform in Keys(rows, PlatformOf)
    ensures Keys(rows + more, PlatformOf) == Keys(rows, PlatformOf)
    ensures Newest(rows + more) == Newest(rows)
  {
    if more == [] {
      assert rows + more == rows;
    } else {
      var n := |more| - 1;
      LaterRowsIgnored(rows, more[..n]);
      assert (rows + more)[..|rows + more| - 1] == rows + more[..n];
      var platforms := Keys(rows, PlatformOf);
      forall i | 0 <= i < |platforms| ensures Newest(rows + more)[i] == Newest(rows)[i] {
        assert platforms[i] in platforms;
        assert Newest(rows + more[..n])[i] == Newest(rows)[i];
      }
    }
  }

  lemma BatchComesFirst(engine: Engine, content: string, scores: Scores, at: int, earlier: seq<ScoreRow>)
    requires forall i | 0 <= i < |earlier| :: earlier[i].platform in PlatformsOf(engine)
    ensures Newest(BatchRows(engine, content, scores, at) + earlier) == BatchRows(engine, content, scores, at)
  {
    var batch := BatchRows(engine, content, scores, at);
    BatchInOrder(engine, content, scores, at);
    DistinctIsNewest(batch);
    forall i | 0 <= i < |earlier| ensures earlier[i].platform in Keys(batch, PlatformOf) {
      var k :| 0 <= k < |PlatformsOf(engine)| && PlatformsOf(engine)[k] == earlier[i].platform;
      assert Keys(batch, PlatformOf)[k] == earlier[i].platform;
    }
    LaterRowsIgnored(batch, earlier);
  }

  lemma {:induction false} NewestIsLastBatch(events: seq<Event>, content: string, engine: Engine)
    ensures Newest(NewestFirst(events, content, engine)) == LastBatch(events, content, engine)
  {
    if events != [] {
      var n := |events| - 1;
      if ScoredLast(events, content, engine) {
        var earlier := NewestFirst(events[..n], content, engine);
        RowsFromEvents(events[..n], content, engine);
        BatchComesFirst(engine, content, events[n].scores, events[n].at, earlier);
      } else {
        NewestIsLastBatch(events[..n], content, engine);
      }
    }
  }

  // ---------------------------------------------------------------- the two read paths

  /** A content's part of any answer is the newest-first list of its rows. */
  lemma AnswerIsNewestFirst(events: seq<Event>, contents: seq<string>, engine: Engine,
      answer: seq<ScoreRow>, content: string)
    requires TimesIncrease(events) && content in contents
    requires Answers(TableAfter(events), contents, engine, answer)
    ensures OfContent(answer, content) == NewestFirst(events, content, engine)
  {
    var table, own, strict := TableAfter(events), OfContent(answer, content), NewestFirst(events, content, engine);
    forall r ensures multiset(own)[r] == multiset(strict)[r] {
      FilterCount(HasContent(content), answer, r);
      FilterCount(InScope(contents, engine), table, r);
      NewestFirstCount(events, content, engine, r);
    }
    assert multiset(own) == multiset(strict);
    OfContentInOrder(answer, content);
    NewestFirstInOrder(events, content, engine);
    StrictTells(strict);
    OnlyOneOrder(strict, own);
  }

  /**
    After any history of recomputes and engine switches, the read of one content and its share of the
    batched read give the same rows, the last batch of the active engine, and so recommend alike.
   */
  lemma ReadPathsAgree(events: seq<Event>, content: string, contents: seq<string>,
      one: seq<ScoreRow>, batched: seq<ScoreRow>)
    requires TimesIncrease(events) && content in contents
    requires Answers(TableAfter(events), [content], ActiveAfter(events), one)
    requires Answers(TableAfter(events), contents, ActiveAfter(events), batched)
    ensures Newest(one) == LastBatch(events, content, ActiveAfter(events))
    ensures Newest(OfContent(batched, content)) == LastBatch(events, content, ActiveAfter(events))
  {
    var engine := ActiveAfter(events);
    forall i | 0 <= i < |one| ensures one[i].content == content {
      FilterCount(InScope([content], engine), TableAfter(events), one[i]);
      assert one[i] in multiset(one);
    }
    FilterAll(HasContent(content), one);
    AnswerIsNewestFirst(events, [content], engine, one, content);
    AnswerIsNewestFirst(events, contents, engine, batched, content);
    NewestIsLastBatch(events, content, engine);
  }

  // ---------------------------------------------------------------- which batch that is

  /** The active engine is the one last switched to ... */
  lemma {:induction false} ActiveIs(events: seq<Event>, i: nat)
    requires i < |events| && events[i].SwitchTo? && forall j | i < j < |events| :: !events[j].SwitchTo?
    ensures ActiveAfter(events) == events[i].engine
  {
    if i < |events| - 1 {
      ActiveIs(events[..|events| - 1], i);
    }
  }

  /** ... and the first engine until there is a switch. */
  lemma {:induction false} ActiveAtFirst(events: seq<Event>)
    requires forall i | 0 <= i < |events| :: !events[i].SwitchTo?
    ensures ActiveAfter(events) == V1
  {
    if events != [] {
      ActiveAtFirst(events[..|events| - 1]);
    }
  }

  /** The first engine's batch has two rows and the second's four, each with its own platform's score. */
  lemma BatchIs(content: string, scores: Scores, at: int)
    ensures BatchRows(V1, content, scores, at) ==
              [ScoreRow(content, Facebook, scores.facebook, V1, at), ScoreRow(content, YouTube, scores.youtube, V1, at)]
    ensures BatchRows(V2, content, scores, at) ==
              [ScoreRow(content, Facebook, scores.facebook, V2, at), ScoreRow(content, YouTube, scores.youtube, V2, at),
               ScoreRow(content, TikTok, scores.tiktok, V2, at), ScoreRow(content, LineOa, scores.lineOa, V2, at)]
  {
    assert PlatformsOf(V1) == [Facebook, YouTube] && PlatformsOf(V2) == [Facebook, YouTube, TikTok, LineOa];
  }

  /** Did event `i` recompute this content while this engine was in effect? */
  ghost predicate ScoresAt(events: seq<Event>, i: nat, content: string, engine: Engine) {
    i < |events| && events[i].Recompute? && events[i].content == content && ActiveAfter(events[..i]) == engine
  }

  lemma ScoredBefore(events: seq<Event>, i: nat, content: string, engine: Engine)
    requires i + 1 < |events|
    ensures ScoresAt(events[..|events| - 1], i, content, engine) == ScoresAt(events, i, content, engine)
  {
    assert events[..|events| - 1][..i] == events[..i];
  }

  /** The last batch is that of the last such recompute ... */
  lemma {:induction false} LastBatchIs(events: seq<Event>, content: string, engine: Engine, i: nat)
    requires ScoresAt(events, i, content, engine)
    requires forall j: nat | i < j < |events| :: !ScoresAt(events, j, content, engine)
    ensures LastBatch(events, content, engine) == BatchRows(engine, content, events[i].scores, events[i].at)
  {
    var n := |events| - 1;
    if i < n {
      assert !ScoresAt(events, n, content, engine);
      forall j: nat | i <= j < n
        ensures ScoresAt(events[..n], j, content, engine) == ScoresAt(events, j, content, engine)
      {
        ScoredBefore(events, j, content, engine);
      }
      LastBatchIs(events[..n], content, engine, i);
    }
  }

  /** ... and there is none exactly where there was no such recompute. */
  lemma {:induction false} NoBatchIff(events: seq<Event>, content: string, engine: Engine)
    ensures LastBatch(events, content, engine) == []
       <==> forall i: nat | i < |events| :: !ScoresAt(events, i, content, engine)
  {
    if events != [] {
      var n := |events| - 1;
      NoBatchIff(events[..n], content, engine);
      forall i: nat | i < n
        ensures ScoresAt(events[..n], i, content, engine) == ScoresAt(events, i, content, engine)
      {
        ScoredBefore(events, i, content, engine);
      }
      assert ScoredLast(events, content, engine) == ScoresAt(events, n, content, engine);
    }
  }

  // ---------------------------------------------------------------- equal timestamps

  /** A row reduced to what the requested order looks at. */
  function KeyOnly(r: ScoreRow): ScoreRow {
    ScoreRow("", r.platform, 0, V1, r.computedAt)
  }

  lemma KeyOnlyInOrder(rows: seq<ScoreRow>)
    requires InOrder(rows)
    ensures InOrder(Mapped(KeyOnly, rows)) && KeysTell(Mapped(KeyOnly, rows))
  {
  }

  /** Two answers to one query show the same platforms and times, place by place. */
  lemma AnswersAlign(rows: seq<ScoreRow>, answer: seq<ScoreRow>)
    requires InOrder(rows) && InOrder(answer) && multiset(rows) == multiset(answer)
    ensures |rows| == |answer| && forall k | 0 <= k < |rows| :: SameKey(rows[k], answer[k])
  {
    assert |rows| == |multiset(rows)| == |multiset(answer)| == |answer|;
    KeyOnlyInOrder(rows);
    KeyOnlyInOrder(answer);
    MappedPermuted(KeyOnly, rows, answer);
    OnlyOneOrder(Mapped(KeyOnly, rows), Mapped(KeyOnly, answer));
    forall k | 0 <= k < |rows| ensures SameKey(rows[k], answer[k]) {
      assert Mapped(KeyOnly, rows)[k] == Mapped(KeyOnly, answer)[k];
    }
  }

  ghost predicate HasLater(rows: seq<ScoreRow>, r: ScoreRow) {
    exists k :: 0 <= k < |rows| && rows[k].platform == r.platform && rows[k].computedAt > r.computedAt
  }

  /** Rows that share a platform's newest timestamp are equal. */
  ghost predicate NewestAlike(rows: seq<ScoreRow>) {
    forall i, j | 0 <= i < |rows| && 0 <= j < |rows| && SameKey(rows[i], rows[j]) ::
      !HasLater(rows, rows[i]) ==> rows[i] == rows[j]
  }

  /** The first row of a platform is one of its newest. */
  lemma FirstIsNewest(rows: seq<ScoreRow>, f: nat, k: nat)
    requires InOrder(rows) && f < |rows| && k < |rows| && rows[k].platform == rows[f].platform
    requires forall j | 0 <= j < f :: rows[j].platform != rows[f].platform
    ensures rows[k].computedAt <= rows[f].computedAt
  {
  }

  lemma StableNewest(rows: seq<ScoreRow>, answer: seq<ScoreRow>)
    requires InOrder(rows) && InOrder(answer) && multiset(rows) == multiset(answer) && NewestAlike(rows)
    ensures Newest(answer) == Newest(rows)
  {
    AnswersAlign(rows, answer);
    KeysByKey(rows, answer, PlatformOf);
    var platforms := Keys(rows, PlatformOf);
    forall a | 0 <= a < |platforms| ensures Newest(answer)[a] == Newest(rows)[a] {
      assert platforms[a] in platforms;
      var f := FirstIndex(rows, PlatformOf, platforms[a]);
      var g := FirstIndex(answer, PlatformOf, platforms[a]);
      assert f == g;
      assert answer[f] in multiset(rows);
      var m :| 0 <= m < |rows| && rows[m] == answer[f];
      forall k | 0 <= k < |rows| && rows[k].platform == rows[f].platform
        ensures rows[k].computedAt <= rows[f].computedAt
      {
        FirstIsNewest(rows, f, k);
      }
      assert !HasLater(rows, rows[f]);
    }
  }

  lemma SwapInOrder(rows: seq<ScoreRow>, f: nat, m: nat)
    requires InOrder(rows) && f < |rows| && m < |rows| && SameKey(rows[f], rows[m])
    ensures InOrder(Swapped(rows, f, m))
    ensures forall k | 0 <= k < |rows| :: SameKey(Swapped(rows, f, m)[k], rows[k])
  {
    assert forall k | 0 <= k < |rows| :: SameKey(Swapped(rows, f, m)[k], rows[k]);
  }

  /** Exchanging a platform's first row with another of the same key is another answer, with another newest row. */
  lemma TieMovesNewest(rows: seq<ScoreRow>, f: nat, m: nat)
    requires InOrder(rows) && f < |rows| && m < |rows| && SameKey(rows[f], rows[m]) && rows[f] != rows[m]
    requires forall j | 0 <= j < f :: rows[j].platform != rows[f].platform
    ensures InOrder(Swapped(rows, f, m)) && multiset(Swapped(rows, f, m)) == multiset(rows)
    ensures Newest(Swapped(rows, f, m)) != Newest(rows)
  {
    var swapped, p := Swapped(rows, f, m), rows[f].platform;
    SwapInOrder(rows, f, m);
    KeysByKey(rows, swapped, PlatformOf);
    KeysAre(rows, PlatformOf);
    assert PlatformOf(rows[f]) in Keys(rows, PlatformOf);
    var a :| 0 <= a < |Keys(rows, PlatformOf)| && Keys(rows, PlatformOf)[a] == p;
    var g := FirstIndex(rows, PlatformOf, p);
    var h := FirstIndex(swapped, PlatformOf, p);
    assert g == f && h == f;
    assert Newest(swapped)[a] != Newest(rows)[a];
  }

  /** The newest rows are the same in every answer exactly when rows sharing a platform's newest timestamp are equal. */
  lemma NewestStableIff(rows: seq<ScoreRow>)
    requires InOrder(rows)
    ensures (forall answer | multiset(answer) == multiset(rows) && InOrder(answer) :: Newest(answer) == Newest(rows))
       <==> NewestAlike(rows)
  {
    if NewestAlike(rows) {
      forall answer | multiset(answer) == multiset(rows) && InOrder(answer) ensures Newest(answer) == Newest(rows) {
        StableNewest(rows, answer);
      }
    } else {
      var i, j :| && 0 <= i < |rows| && 0 <= j < |rows| && SameKey(rows[i], rows[j])
                  && !HasLater(rows, rows[i]) && rows[i] != rows[j];
      KeysAre(rows, PlatformOf);
      assert PlatformOf(rows[i]) in Keys(rows, PlatformOf);
      var f := FirstIndex(rows, PlatformOf, rows[i].platform);
      FirstIsNewest(rows, f, i);
      assert rows[f].computedAt <= rows[i].computedAt;
      TieMovesNewest(rows, f, if rows[i] != rows[f] then i else j);
    }
  }

  /** A content's share of the batched answer is an answer to its own query. */
  lemma ShareAnswers(table: seq<ScoreRow>, content: string, contents: seq<string>, engine: Engine,
      batched: seq<ScoreRow>)
    requires content in contents && Answers(table, contents, engine, batched)
    ensures Answers(table, [content], engine, OfContent(batched, content))
  {
    var own, asked := OfContent(batched, content), Scoped(table, [content], engine);
    forall r ensures multiset(own)[r] == multiset(asked)[r] {
      FilterCount(HasContent(content), batched, r);
      FilterCount(InScope(contents, engine), table, r);
      FilterCount(InScope([content], engine), table, r);
    }
    assert multiset(own) == multiset(asked);
    OfContentInOrder(batched, content);
  }

  /**
    On any table, timestamps equal or not, the two read paths agree however the database orders ties
    exactly when the content's rows that share a platform's newest timestamp are equal.
   */
  lemma ReadPathsAgreeIff(table: seq<ScoreRow>, content: string, contents: seq<string>, engine: Engine,
      one: seq<ScoreRow>, batched: seq<ScoreRow>)
    requires content in contents
    requires Answers(table, [content], engine, one) && Answers(table, contents, engine, batched)
    ensures (forall o, b | Answers(table, [content], engine, o) && Answers(table, contents, engine, b) ::
               Newest(o) == Newest(OfContent(b, content)))
       <==> NewestAlike(one)
  {
    NewestStableIff(one);
    if NewestAlike(one) {
      forall o, b | Answers(table, [content], engine, o) && Answers(table, contents, engine, b)
        ensures Newest(o) == Newest(OfContent(b, content))
      {
        ShareAnswers(table, content, contents, engine, b);
        StableNewest(one, o);
        StableNewest(one, OfContent(b, content));
      }
    } else {
      var other :| multiset(other) == multiset(one) && InOrder(other) && Newest(other) != Newest(one);
      assert Answers(table, [content], engine, other);
      assert Newest(one) != Newest(OfContent(batched, content)) || Newest(other) != Newest(OfContent(batched, content));
    }
  }
}
