/**
  The commerce summaries: four breakdowns of the same conversions that agree currency by currency,
  and a per-content view in which reversals net as they do globally.
 */
module CommerceRead {
  import opened Platforms
  import opened Calendar
  import opened Grouping
  import opened CommerceLedger

  datatype Label =
    | OfCurrency(currency: Currency)
    | OfChannel(currency: Currency, channel: Channel)
    | OfProduct(currency: Currency, product: Option<Uuid>)
    | OfPeriod(currency: Currency, start: string, end: string)

  function ChannelText(channel: Channel): string {
    match channel
    case Shopee => "shopee"
    case TikTokShop => "tiktok_shop"
  }

  /** `${name}::${currency}`. */
  function Joined(name: string, currency: Currency): string {
    name + "::" + currency
  }

  function CurrencyOf(row: Conversion): Currency {
    row.currency
  }

  function ChannelKey(row: Conversion): string {
    Joined(ChannelText(row.channel), row.currency)
  }

  function ProductKey(row: Conversion): string {
    Joined(if row.product.Some? then row.product.value else "unattributed", row.currency)
  }

  /** The two dates of a period, as the keys and the labels show them. */
  function PeriodKey(row: Conversion): string {
    Joined(IsoDate(row.periodStart) + "::" + IsoDate(row.periodEnd), row.currency)
  }

  const BY_CURRENCY := Breakdown(SUM, CurrencyOf, CurrencyLabel, Amounts)

  const BY_CHANNEL := Breakdown(SUM, ChannelKey, ChannelLabel, Amounts)

  const BY_PRODUCT := Breakdown(SUM, ProductKey, ProductLabel, Amounts)

  const BY_PERIOD := Breakdown(SUM, PeriodKey, PeriodLabel, Amounts)

  function CurrencyLabel(row: Conversion): Label {
    OfCurrency(row.currency)
  }

  function ChannelLabel(row: Conversion): Label {
    OfChannel(row.currency, row.channel)
  }

  function ProductLabel(row: Conversion): Label {
    OfProduct(row.currency, row.product)
  }

  function PeriodLabel(row: Conversion): Label {
    OfPeriod(row.currency, IsoDate(row.periodStart), IsoDate(row.periodEnd))
  }

  function LabelCurrency(of: Label): Currency {
    of.currency
  }

  // ---------------------------------------------------------------- keys

  /** The key of a group keeps both of its parts: currencies are three characters. */
  lemma JoinedIff(a: string, c: Currency, b: string, d: Currency)
    ensures Joined(a, c) == Joined(b, d) <==> a == b && c == d
  {
    if Joined(a, c) == Joined(b, d) {
      var left, right := Joined(a, c), Joined(b, d);
      assert left[|left| - 3..] == c && right[|right| - 3..] == d;
      assert left[..|left| - 5] == a && right[..|right| - 5] == b;
    }
  }

  lemma ChannelKeyIff(r: Conversion, s: Conversion)
    ensures ChannelKey(r) == ChannelKey(s) <==> r.channel == s.channel && r.currency == s.currency
  {
    JoinedIff(ChannelText(r.channel), r.currency, ChannelText(s.channel), s.currency);
    assert |ChannelText(Shopee)| != |ChannelText(TikTokShop)|;
  }

  /** A product id is never the word for no product, so "unattributed" stays a group of its own. */
  lemma ProductKeyIff(r: Conversion, s: Conversion)
    ensures ProductKey(r) == ProductKey(s) <==> r.product == s.product && r.currency == s.currency
  {
    var a := if r.product.Some? then r.product.value else "unattributed";
    var b := if s.product.Some? then s.product.value else "unattributed";
    JoinedIff(a, r.currency, b, s.currency);
    assert |"unattributed"| == 12;
  }

  /** Two rows share a period group exactly when both dates show alike and the currency agrees. */
  lemma PeriodKeyIff(r: Conversion, s: Conversion)
    ensures PeriodKey(r) == PeriodKey(s) <==> PeriodLabel(r) == PeriodLabel(s)
  {
    var a := IsoDate(r.periodStart) + "::" + IsoDate(r.periodEnd);
    var b := IsoDate(s.periodStart) + "::" + IsoDate(s.periodEnd);
    JoinedIff(a, r.currency, b, s.currency);
    if a == b {
      assert a[..10] == IsoDate(r.periodStart) && b[..10] == IsoDate(s.periodStart);
      assert a[12..] == IsoDate(r.periodEnd) && b[12..] == IsoDate(s.periodEnd);
    }
  }

  predicate RepresentablePeriod(row: Conversion) {
    Representable(row.periodStart) && Representable(row.periodEnd)
  }

  /** The days of the two periods: equal, but for dates in one month of a year beyond four digits. */
  predicate SamePeriod(r: Conversion, s: Conversion) {
    && (r.periodStart == s.periodStart || Blurred(r.periodStart, s.periodStart))
    && (r.periodEnd == s.periodEnd || Blurred(r.periodEnd, s.periodEnd))
  }

  lemma PeriodDaysIff(r: Conversion, s: Conversion)
    requires RepresentablePeriod(r) && RepresentablePeriod(s)
    ensures PeriodKey(r) == PeriodKey(s) <==> r.currency == s.currency && SamePeriod(r, s)
  {
    PeriodKeyIff(r, s);
    IsoDateIff(r.periodStart, s.periodStart);
    IsoDateIff(r.periodEnd, s.periodEnd);
  }

  // ---------------------------------------------------------------- the breakdowns

  method ByCurrency(rows: seq<Conversion>) returns (items: seq<Item<Label, Totals>>)
    ensures items == Items(BY_CURRENCY, rows)
  {
    items := BreakDown(BY_CURRENCY, rows);
  }

  method ByChannel(rows: seq<Conversion>) returns (items: seq<Item<Label, Totals>>)
    ensures items == Items(BY_CHANNEL, rows)
  {
    items := BreakDown(BY_CHANNEL, rows);
  }

  method ByProduct(rows: seq<Conversion>) returns (items: seq<Item<Label, Totals>>)
    ensures items == Items(BY_PRODUCT, rows)
  {
    items := BreakDown(BY_PRODUCT, rows);
  }

  method ByPeriod(rows: seq<Conversion>) returns (items: seq<Item<Label, Totals>>)
    ensures items == Items(BY_PERIOD, rows)
  {
    items := BreakDown(BY_PERIOD, rows);
  }

  /** Everything recorded in one currency. */
  function CurrencyTotal(rows: seq<Conversion>, c: Currency): Totals {
    Group(ByTag(SUM, CurrencyOf, Amounts), rows, c)
  }

  /** What a breakdown shows in one currency. */
  function Shown(items: seq<Item<Label, Totals>>, c: Currency): Totals {
    Over(SUM, items, Tagged(LabelCurrency, c))
  }

  lemma SumLawful()
    ensures Lawful(SUM)
  {
  }

  /** Whatever stands before it, a key ends in its currency. */
  lemma KeysFixCurrency(rows: seq<Conversion>)
    ensures KeyFixesTag(BY_CURRENCY, CurrencyOf, LabelCurrency, rows)
    ensures KeyFixesTag(BY_CHANNEL, CurrencyOf, LabelCurrency, rows)
    ensures KeyFixesTag(BY_PRODUCT, CurrencyOf, LabelCurrency, rows)
    ensures KeyFixesTag(BY_PERIOD, CurrencyOf, LabelCurrency, rows)
  {
    forall i, j | 0 <= i < |rows| && 0 <= j < |rows|
      ensures ChannelKey(rows[i]) == ChannelKey(rows[j]) ==> rows[i].currency == rows[j].currency
      ensures ProductKey(rows[i]) == ProductKey(rows[j]) ==> rows[i].currency == rows[j].currency
      ensures PeriodKey(rows[i]) == PeriodKey(rows[j]) ==> rows[i].currency == rows[j].currency
    {
      ChannelKeyIff(rows[i], rows[j]);
      ProductKeyIff(rows[i], rows[j]);
      PeriodKeyIff(rows[i], rows[j]);
    }
  }

  /** All four breakdowns show, in every currency, exactly what was recorded in that currency. */
  lemma BreakdownsAgree(rows: seq<Conversion>, c: Currency)
    ensures Shown(Items(BY_CURRENCY, rows), c) == CurrencyTotal(rows, c)
    ensures Shown(Items(BY_CHANNEL, rows), c) == CurrencyTotal(rows, c)
    ensures Shown(Items(BY_PRODUCT, rows), c) == CurrencyTotal(rows, c)
    ensures Shown(Items(BY_PERIOD, rows), c) == CurrencyTotal(rows, c)
  {
    SumLawful();
    KeysFixCurrency(rows);
    RefinesTag(BY_CURRENCY, CurrencyOf, LabelCurrency, rows, c);
    RefinesTag(BY_CHANNEL, CurrencyOf, LabelCurrency, rows, c);
    RefinesTag(BY_PRODUCT, CurrencyOf, LabelCurrency, rows, c);
    RefinesTag(BY_PERIOD, CurrencyOf, LabelCurrency, rows, c);
  }

  /** The text keys stand for what the items show: each label that occurs has one item, with its rows' sum. */
  lemma LabelsGroup(rows: seq<Conversion>)
    ensures Items(BY_CURRENCY, rows) == Items(ByTag(SUM, CurrencyLabel, Amounts), rows)
    ensures Items(BY_CHANNEL, rows) == Items(ByTag(SUM, ChannelLabel, Amounts), rows)
    ensures Items(BY_PRODUCT, rows) == Items(ByTag(SUM, ProductLabel, Amounts), rows)
    ensures Items(BY_PERIOD, rows) == Items(ByTag(SUM, PeriodLabel, Amounts), rows)
  {
    KeysAreLabels(rows);
    GroupsByLabel(BY_CURRENCY, rows);
    GroupsByLabel(BY_CHANNEL, rows);
    GroupsByLabel(BY_PRODUCT, rows);
    GroupsByLabel(BY_PERIOD, rows);
  }

  lemma KeysAreLabels(rows: seq<Conversion>)
    ensures KeyIsLabel(BY_CURRENCY, rows) && KeyIsLabel(BY_CHANNEL, rows)
    ensures KeyIsLabel(BY_PRODUCT, rows) && KeyIsLabel(BY_PERIOD, rows)
  {
    forall i, j | 0 <= i < |rows| && 0 <= j < |rows|
      ensures ChannelKey(rows[i]) == ChannelKey(rows[j]) <==> ChannelLabel(rows[i]) == ChannelLabel(rows[j])
      ensures ProductKey(rows[i]) == ProductKey(rows[j]) <==> ProductLabel(rows[i]) == ProductLabel(rows[j])
      ensures PeriodKey(rows[i]) == PeriodKey(rows[j]) <==> PeriodLabel(rows[i]) == PeriodLabel(rows[j])
    {
      ChannelKeyIff(rows[i], rows[j]);
      ProductKeyIff(rows[i], rows[j]);
      PeriodKeyIff(rows[i], rows[j]);
    }
  }

  /** A period by its days, not its text. */
  datatype Period = Period(currency: Currency, start: int, end: int)

  function PeriodOf(row: Conversion): Period {
    Period(row.currency, row.periodStart, row.periodEnd)
  }

  /** Two rows of different periods whose dates show alike. */
  ghost predicate PeriodsBlur(rows: seq<Conversion>) {
    exists i, j :: 0 <= i < |rows| && 0 <= j < |rows| && Blur(rows[i], rows[j])
  }

  predicate Blur(r: Conversion, s: Conversion) {
    r.currency == s.currency && SamePeriod(r, s) && PeriodOf(r) != PeriodOf(s)
  }

  /** The breakdown of the source with the days of each group's first row as its label. */
  const BY_PERIOD_DAYS := Breakdown(SUM, PeriodKey, PeriodOf, Amounts)

  /**
    Every period that occurs has its own item exactly when no two periods blur; years of four digits
    never do.
   */
  lemma PeriodsGroupIff(rows: seq<Conversion>)
    requires forall i | 0 <= i < |rows| :: RepresentablePeriod(rows[i])
    ensures Items(BY_PERIOD_DAYS, rows) == Items(ByTag(SUM, PeriodOf, Amounts), rows) <==> !PeriodsBlur(rows)
  {
    forall i, j | 0 <= i < |rows| && 0 <= j < |rows|
      ensures PeriodKey(rows[i]) == PeriodKey(rows[j])
         <==> rows[i].currency == rows[j].currency && SamePeriod(rows[i], rows[j])
    {
      PeriodDaysIff(rows[i], rows[j]);
    }
    if !PeriodsBlur(rows) {
      forall i, j | 0 <= i < |rows| && 0 <= j < |rows|
        ensures PeriodKey(rows[i]) == PeriodKey(rows[j]) <==> PeriodOf(rows[i]) == PeriodOf(rows[j])
      {
        assert !Blur(rows[i], rows[j]);
      }
      GroupsByLabel(BY_PERIOD_DAYS, rows);
    } else {
      var i, j :| 0 <= i < |rows| && 0 <= j < |rows| && Blur(rows[i], rows[j]);
      LabelsNeedKeys(BY_PERIOD_DAYS, rows, i, j);
    }
  }

  /** A row for one day. */
  function OneDay(day: int): NewConversion {
    NewConversion(Shopee, day, day, None, None, None, 0, None, None, None, None, None)
  }

  /** A ledger can hold two such periods: two calls of Create. */
  method CreateBlurred(first: int, second: int) returns (ledger: ConversionLedger)
    requires Representable(first) && Representable(second) && first != second && Blurred(first, second)
    ensures ledger.Valid() && PeriodsBlur(ledger.rows)
    ensures forall i | 0 <= i < |ledger.rows| :: RepresentablePeriod(ledger.rows[i])
  {
    ledger := new ConversionLedger();
    assert FIRST[0] != SECOND[0];
    CreateOriginal(ledger, OneDay(first), FIRST);
    CreateOriginal(ledger, OneDay(second), SECOND);
    assert Blur(ledger.rows[0], ledger.rows[1]);
  }

  function InCurrency(c: Currency): Conversion -> bool {
    (row: Conversion) => row.currency == c
  }

  function Commission(row: Conversion): int { row.commission }

  function GrossSales(row: Conversion): int { if row.gross.Some? then row.gross.value else 0 }

  function Orders(row: Conversion): int { if row.ordersCount.Some? then row.ordersCount.value else 0 }

  function ItemsSold(row: Conversion): int { if row.itemsSold.Some? then row.itemsSold.value else 0 }

  /**
    Field by field, a currency's total is the column sum over that currency's rows, a missing value
    counting as zero; the record count is their number, so no row is counted twice.
   */
  lemma {:induction false} ColumnSums(rows: seq<Conversion>, c: Currency)
    ensures var own := Filter(InCurrency(c), rows);
            CurrencyTotal(rows, c)
            == Totals(Column(own, Commission), Column(own, GrossSales), Column(own, Orders),
                      Column(own, ItemsSold), |own|)
  {
    if rows != [] {
      ColumnSums(rows[..|rows| - 1], c);
      var before := Filter(InCurrency(c), rows[..|rows| - 1]);
      assert (before + [rows[|rows| - 1]])[..|before|] == before;
    }
  }

  // ---------------------------------------------------------------- one content

  function ContentRows(placements: seq<Uuid>, posts: seq<Uuid>): Conversion -> bool {
    (row: Conversion) => InContent(placements, posts, LinkageOf(row))
  }

  /** The totals of the per-content view. */
  method ContentTotals(ledger: seq<Conversion>, placements: seq<Uuid>, posts: seq<Uuid>)
      returns (items: seq<Item<Label, Totals>>)
    ensures items == Items(BY_CURRENCY, Filter(ContentRows(placements, posts), ledger))
  {
    var conversions := [];
    if |placements| == 0 && |posts| == 0 {
      NoTargets(ledger);
    } else {
      conversions := Filter(ContentRows(placements, posts), ledger);
    }
    items := ByCurrency(conversions);
  }

  lemma {:induction false} NoTargets(ledger: seq<Conversion>)
    ensures Filter(ContentRows([], []), ledger) == []
  {
    if ledger != [] {
      NoTargets(ledger[..|ledger| - 1]);
    }
  }

  /** Selecting rows and totalling them is totalling the selected indices of the ledger. */
  lemma {:induction false} SelectedTotal(ledger: seq<Conversion>, n: nat, picks: Conversion -> bool,
      scope: Linkage -> bool, c: Currency)
    requires n <= |ledger|
    requires forall i | 0 <= i < |ledger| ::
      scope(LinkageOf(ledger[i])) == (picks(ledger[i]) && ledger[i].currency == c)
    ensures CurrencyTotal(Filter(picks, ledger[..n]), c) == Total(ByChain(ledger), Indices(ledger)[..n], scope)
  {
    if n > 0 {
      SelectedTotal(ledger, n - 1, picks, scope, c);
      assert ledger[..n][..n - 1] == ledger[..n - 1];
      assert Indices(ledger)[..n][..n - 1] == Indices(ledger)[..n - 1];
      assert Indices(ledger)[..n][n - 1] == n - 1;
      var kept := Filter(picks, ledger[..n - 1]);
      assert (kept + [ledger[n - 1]])[..|kept|] == kept;
    }
  }

  function ContentScope(placements: seq<Uuid>, posts: seq<Uuid>, c: Currency): Linkage -> bool {
    (l: Linkage) => InContent(placements, posts, l) && l.currency == c
  }

  function AttributionScope(q: Query, c: Currency): Linkage -> bool {
    (l: Linkage) =>
      && (q.channel.Some? ==> l.channel == q.channel.value)
      && (q.product.Some? ==> l.product == q.product)
      && l.currency == c
  }

  /** What the reversal chains in scope add up to, each at its net over the whole ledger. */
  function ChainNets(ledger: seq<Conversion>, scope: Linkage -> bool): Totals {
    Over(SUM, Items(ByChain(ledger), Indices(ledger)), scope)
  }

  lemma {:induction false} ScopeNets(ledger: seq<Conversion>, picks: Conversion -> bool, scope: Linkage -> bool,
      answer: seq<Conversion>, c: Currency)
    requires Linked(ledger) && multiset(answer) == multiset(Filter(picks, ledger))
    requires forall i | 0 <= i < |ledger| ::
      scope(LinkageOf(ledger[i])) == (picks(ledger[i]) && ledger[i].currency == c)
    ensures CurrencyTotal(answer, c) == ChainNets(ledger, scope)
  {
    SumLawful();
    GroupPermuted(ByTag(SUM, CurrencyOf, Amounts), answer, Filter(picks, ledger), c);
    assert ledger[..|ledger|] == ledger && Indices(ledger)[..|ledger|] == Indices(ledger);
    SelectedTotal(ledger, |ledger|, picks, scope, c);
    ChainsNetInScope(ledger, scope);
  }

  /** However the database orders its answer, a content's total in a currency is its chains' nets. */
  lemma ContentNets(ledger: seq<Conversion>, placements: seq<Uuid>, posts: seq<Uuid>,
      answer: seq<Conversion>, c: Currency)
    requires Linked(ledger) && multiset(answer) == multiset(Filter(ContentRows(placements, posts), ledger))
    ensures CurrencyTotal(answer, c) == ChainNets(ledger, ContentScope(placements, posts, c))
  {
    ScopeNets(ledger, ContentRows(placements, posts), ContentScope(placements, posts, c), answer, c);
  }

  function SummaryRows(q: Query): Conversion -> bool {
    (row: Conversion) => InSummary(q, row)
  }

  /** The same for the summary of a channel or product, when it does not bound the period. */
  lemma SummaryNets(ledger: seq<Conversion>, q: Query, answer: seq<Conversion>, c: Currency)
    requires Linked(ledger) && multiset(answer) == multiset(Filter(SummaryRows(q), ledger))
    requires q.periodStart.None? && q.periodEnd.None?
    ensures CurrencyTotal(answer, c) == ChainNets(ledger, AttributionScope(q, c))
  {
    ScopeNets(ledger, SummaryRows(q), AttributionScope(q, c), answer, c);
  }
}
