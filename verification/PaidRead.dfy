/**
  The paid summaries: the same accumulation over ad performance entries, by currency, campaign and
  free-text result type.
 */
module PaidRead {
  import opened Platforms
  import opened Grouping
  import L = CommerceLedger
  import C = CommerceRead

  datatype Entry = Entry(
    campaign: L.Uuid, spend: int, reach: Option<int>, impressions: Option<int>, clicks: Option<int>,
    resultType: Option<string>, resultCount: Option<int>, currency: L.Currency)

  datatype Totals = Totals(spend: int, reach: int, impressions: int, clicks: int, results: int, entries: int)

  datatype Label =
    | OfCurrency(currency: L.Currency)
    | OfCampaign(currency: L.Currency, campaign: L.Uuid)
    | OfResultType(currency: L.Currency, resultType: Option<string>)

  function Plus(a: Totals, b: Totals): Totals {
    Totals(a.spend + b.spend, a.reach + b.reach, a.impressions + b.impressions, a.clicks + b.clicks,
           a.results + b.results, a.entries + b.entries)
  }

  const SUM := Monoid(Totals(0, 0, 0, 0, 0, 0), Plus)

  function Amounts(e: Entry): Totals {
    Totals(e.spend, L.OrZero(e.reach), L.OrZero(e.impressions), L.OrZero(e.clicks), L.OrZero(e.resultCount), 1)
  }

  function CurrencyOf(e: Entry): L.Currency {
    e.currency
  }

  function CampaignKey(e: Entry): string {
    C.Joined(e.campaign, e.currency)
  }

  function ResultName(e: Entry): string {
    if e.resultType.Some? then e.resultType.value else "unlabelled"
  }

  function ResultKey(e: Entry): string {
    C.Joined(ResultName(e), e.currency)
  }

  function CurrencyLabel(e: Entry): Label {
    OfCurrency(e.currency)
  }

  function CampaignLabel(e: Entry): Label {
    OfCampaign(e.currency, e.campaign)
  }

  function ResultLabel(e: Entry): Label {
    OfResultType(e.currency, e.resultType)
  }

  const BY_CURRENCY := Breakdown(SUM, CurrencyOf, CurrencyLabel, Amounts)

  const BY_CAMPAIGN := Breakdown(SUM, CampaignKey, CampaignLabel, Amounts)

  const BY_RESULT_TYPE := Breakdown(SUM, ResultKey, ResultLabel, Amounts)

  function LabelCurrency(of: Label): L.Currency {
    of.currency
  }

  lemma CampaignKeyIff(d: Entry, e: Entry)
    ensures CampaignKey(d) == CampaignKey(e) <==> d.campaign == e.campaign && d.currency == e.currency
  {
    C.JoinedIff(d.campaign, d.currency, e.campaign, e.currency);
  }

  /** Entries without a result type share the group of the free text "unlabelled", and no other. */
  lemma ResultKeyIff(d: Entry, e: Entry)
    ensures ResultKey(d) == ResultKey(e) <==>
              d.currency == e.currency
              && (d.resultType == e.resultType
                  || (d.resultType.None? && e.resultType == Some("unlabelled"))
                  || (e.resultType.None? && d.resultType == Some("unlabelled")))
  {
    C.JoinedIff(ResultName(d), d.currency, ResultName(e), e.currency);
  }

  method ByCurrency(rows: seq<Entry>) returns (items: seq<Item<Label, Totals>>)
    ensures items == Items(BY_CURRENCY, rows)
  {
    items := BreakDown(BY_CURRENCY, rows);
  }

  method ByCampaign(rows: seq<Entry>) returns (items: seq<Item<Label, Totals>>)
    ensures items == Items(BY_CAMPAIGN, rows)
  {
    items := BreakDown(BY_CAMPAIGN, rows);
  }

  method ByResultType(rows: seq<Entry>) returns (items: seq<Item<Label, Totals>>)
    ensures items == Items(BY_RESULT_TYPE, rows)
  {
    items := BreakDown(BY_RESULT_TYPE, rows);
  }

  function CurrencyTotal(rows: seq<Entry>, c: L.Currency): Totals {
    Group(ByTag(SUM, CurrencyOf, Amounts), rows, c)
  }

  function Shown(items: seq<Item<Label, Totals>>, c: L.Currency): Totals {
    Over(SUM, items, Tagged(LabelCurrency, c))
  }

  lemma SumLawful()
    ensures Lawful(SUM)
  {
  }

  /** All three breakdowns show, in every currency, exactly what was entered in that currency. */
  lemma BreakdownsAgree(rows: seq<Entry>, c: L.Currency)
    ensures Shown(Items(BY_CURRENCY, rows), c) == CurrencyTotal(rows, c)
    ensures Shown(Items(BY_CAMPAIGN, rows), c) == CurrencyTotal(rows, c)
    ensures Shown(Items(BY_RESULT_TYPE, rows), c) == CurrencyTotal(rows, c)
  {
    SumLawful();
    forall i, j | 0 <= i < |rows| && 0 <= j < |rows|
      ensures CampaignKey(rows[i]) == CampaignKey(rows[j]) ==> rows[i].currency == rows[j].currency
      ensures ResultKey(rows[i]) == ResultKey(rows[j]) ==> rows[i].currency == rows[j].currency
    {
      CampaignKeyIff(rows[i], rows[j]);
      ResultKeyIff(rows[i], rows[j]);
    }
    RefinesTag(BY_CURRENCY, CurrencyOf, LabelCurrency, rows, c);
    RefinesTag(BY_CAMPAIGN, CurrencyOf, LabelCurrency, rows, c);
    RefinesTag(BY_RESULT_TYPE, CurrencyOf, LabelCurrency, rows, c);
  }

  /** Each campaign that occurs in a currency has one item, with its entries' sum. */
  lemma CampaignsGroup(rows: seq<Entry>)
    ensures Items(BY_CAMPAIGN, rows) == Items(ByTag(SUM, CampaignLabel, Amounts), rows)
    ensures Items(BY_CURRENCY, rows) == Items(ByTag(SUM, CurrencyLabel, Amounts), rows)
  {
    forall i, j | 0 <= i < |rows| && 0 <= j < |rows|
      ensures CampaignKey(rows[i]) == CampaignKey(rows[j]) <==> CampaignLabel(rows[i]) == CampaignLabel(rows[j])
    {
      CampaignKeyIff(rows[i], rows[j]);
    }
    GroupsByLabel(BY_CAMPAIGN, rows);
    GroupsByLabel(BY_CURRENCY, rows);
  }

  /** Some entry has no result type and another, in the same currency, is labelled "unlabelled". */
  ghost predicate LabelsMeet(rows: seq<Entry>) {
    exists i, j :: 0 <= i < |rows| && 0 <= j < |rows| && Meet(rows[i], rows[j])
  }

  predicate Meet(d: Entry, e: Entry) {
    d.currency == e.currency && d.resultType.None? && e.resultType == Some("unlabelled")
  }

  /** The result types are grouped as they are labelled exactly when no such two entries meet. */
  lemma ResultTypesGroupIff(rows: seq<Entry>)
    ensures Items(BY_RESULT_TYPE, rows) == Items(ByTag(SUM, ResultLabel, Amounts), rows) <==> !LabelsMeet(rows)
  {
    if !LabelsMeet(rows) {
      forall i, j | 0 <= i < |rows| && 0 <= j < |rows|
        ensures ResultKey(rows[i]) == ResultKey(rows[j]) <==> ResultLabel(rows[i]) == ResultLabel(rows[j])
      {
        ResultKeyIff(rows[i], rows[j]);
        assert !Meet(rows[i], rows[j]) && !Meet(rows[j], rows[i]);
      }
      GroupsByLabel(BY_RESULT_TYPE, rows);
    } else {
      var i, j :| 0 <= i < |rows| && 0 <= j < |rows| && Meet(rows[i], rows[j]);
      ResultKeyIff(rows[i], rows[j]);
      LabelsNeedKeys(BY_RESULT_TYPE, rows, i, j);
    }
  }

  function InCurrency(c: L.Currency): Entry -> bool {
    (e: Entry) => e.currency == c
  }

  function Spend(e: Entry): int { e.spend }

  function Reach(e: Entry): int { L.OrZero(e.reach) }

  function Impressions(e: Entry): int { L.OrZero(e.impressions) }

  function Clicks(e: Entry): int { L.OrZero(e.clicks) }

  function Results(e: Entry): int { L.OrZero(e.resultCount) }

  /** Field by field, a currency's total is the column sum over that currency's entries. */
  lemma {:induction false} ColumnSums(rows: seq<Entry>, c: L.Currency)
    ensures var own := Filter(InCurrency(c), rows);
            CurrencyTotal(rows, c)
            == Totals(Column(own, Spend), Column(own, Reach), Column(own, Impressions), Column(own, Clicks),
                      Column(own, Results), |own|)
  {
    if rows != [] {
      ColumnSums(rows[..|rows| - 1], c);
      var before := Filter(InCurrency(c), rows[..|rows| - 1]);
      assert (before + [rows[|rows| - 1]])[..|before|] == before;
    }
  }
}
