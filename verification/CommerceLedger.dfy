/**
  The append-only conversion ledger: what a reversal inherits, the chains reversals form, and why a
  scoped summary sees every chain whole or not at all.
 */
module CommerceLedger {
  import opened Platforms
  import opened Grouping

  type Uuid = s: string | |s| == 36 witness seq(36, _ => '0')
  type Currency = s: string | |s| == 3 witness "THB"

  const DEFAULT_CURRENCY: Currency := "THB"

  datatype Channel = Shopee | TikTokShop

  /** Amounts are in cents; a date is its number of days. */
  datatype Conversion = Conversion(
    id: Uuid, channel: Channel, periodStart: int, periodEnd: int,
    ordersCount: Option<int>, itemsSold: Option<int>, gross: Option<int>, commission: int, currency: Currency,
    post: Option<Uuid>, placement: Option<Uuid>, product: Option<Uuid>, link: Option<Uuid>, reversalOf: Option<Uuid>)

  datatype NewConversion = NewConversion(
    channel: Channel, periodStart: int, periodEnd: int,
    ordersCount: Option<int>, itemsSold: Option<int>, gross: Option<int>, commission: int,
    post: Option<Uuid>, placement: Option<Uuid>, product: Option<Uuid>, link: Option<Uuid>, reversalOf: Option<Uuid>)

  datatype Refusal =
    | BadReference
    | PeriodBackwards
    | Duplicate
    | TargetMissing
    | ChannelMismatch
    | CurrencyMismatch
    | InsertFailed

  datatype Result = Ok(row: Conversion) | Err(refusal: Refusal)

  /** The transaction a row belongs to, as far as any summary scope can tell. */
  datatype Linkage = Linkage(channel: Channel, currency: Currency, post: Option<Uuid>,
    placement: Option<Uuid>, product: Option<Uuid>, link: Option<Uuid>)

  function LinkageOf(row: Conversion): Linkage {
    Linkage(row.channel, row.currency, row.post, row.placement, row.product, row.link)
  }

  /** `findUnique({ where: { id } })` among the first `n` rows. */
  function Find(rows: seq<Conversion>, n: nat, id: Uuid): (r: Option<nat>)
    requires n <= |rows|
    ensures r.Some? ==> r.value < n && rows[r.value].id == id
    ensures r.None? ==> forall i | 0 <= i < n :: rows[i].id != id
  {
    if n == 0 then None
    else if rows[n - 1].id == id then Some(n - 1)
    else Find(rows, n - 1, id)
  }

  /** Ids are distinct, no period is backwards, every reversal names an earlier row and repeats its linkage. */
  ghost predicate Linked(rows: seq<Conversion>) {
    && (forall i | 0 <= i < |rows| :: rows[i].periodStart <= rows[i].periodEnd)
    && (forall i, j | 0 <= i < j < |rows| :: rows[i].id != rows[j].id)
    && (forall i | 0 <= i < |rows| :: Settled(rows, i))
  }

  ghost predicate Settled(rows: seq<Conversion>, i: nat)
    requires i < |rows|
  {
    rows[i].reversalOf.Some? ==>
      exists j :: 0 <= j < i && rows[j].id == rows[i].reversalOf.value && LinkageOf(rows[j]) == LinkageOf(rows[i])
  }

  ghost predicate IsTarget(rows: seq<Conversion>, dto: NewConversion, j: int) {
    0 <= j < |rows| && dto.reversalOf == Some(rows[j].id)
  }

  /** The row to be reversed, if any, is there, on the same channel and in the same currency. */
  ghost predicate Reversible(rows: seq<Conversion>, dto: NewConversion) {
    dto.reversalOf.Some? ==>
      exists j :: IsTarget(rows, dto, j) && rows[j].channel == dto.channel && rows[j].currency == DEFAULT_CURRENCY
  }

  /** The facts a new row takes from the request whether or not it reverses another. */
  predicate Records(row: Conversion, dto: NewConversion) {
    && row.channel == dto.channel && row.reversalOf == dto.reversalOf && row.commission == dto.commission
    && row.ordersCount == dto.ordersCount && row.itemsSold == dto.itemsSold && row.gross == dto.gross
    && row.periodStart == dto.periodStart && row.periodEnd == dto.periodEnd
  }

  class ConversionLedger {
    var rows: seq<Conversion>

    constructor ()
      ensures Valid() && rows == []
    {
      rows := [];
    }

    ghost predicate Valid()
      reads this
    {
      Linked(rows)
    }

    /**
      `shaped` and `duplicate` are the answers of the reference-format check and of the query for an
      identical recent row; `inserts` is false when the database refuses or loses the insert.
     */
    method Create(dto: NewConversion, id: Uuid, shaped: bool, duplicate: bool, inserts: bool) returns (r: Result)
      requires Valid()
      requires forall i | 0 <= i < |rows| :: rows[i].id != id
      modifies this
      ensures Valid()
      ensures r.Err? ==> rows == old(rows)
      ensures r.Ok? ==> rows == old(rows) + [r.row] && r.row.id == id && r.row.currency == DEFAULT_CURRENCY
      ensures r.Ok? <==> (shaped && dto.periodStart <= dto.periodEnd && !duplicate && inserts
                          && Reversible(old(rows), dto))
      ensures r.Ok? ==> Records(r.row, dto)
      ensures r.Ok? && dto.reversalOf.None? ==>
        LinkageOf(r.row) == Linkage(dto.channel, DEFAULT_CURRENCY, dto.post, dto.placement, dto.product, dto.link)
      ensures r.Err? ==>
        match r.refusal
        case BadReference => !shaped
        case PeriodBackwards => shaped && dto.periodEnd < dto.periodStart
        case Duplicate => shaped && dto.periodStart <= dto.periodEnd && duplicate
        case TargetMissing =>
          dto.reversalOf.Some? && forall j | 0 <= j < |rows| :: rows[j].id != dto.reversalOf.value
        case ChannelMismatch => exists j :: IsTarget(rows, dto, j) && rows[j].channel != dto.channel
        case CurrencyMismatch => exists j :: IsTarget(rows, dto, j) && rows[j].currency != DEFAULT_CURRENCY
        case InsertFailed => !inserts
    {
      if !shaped { return Err(BadReference); }
      if dto.periodEnd < dto.periodStart { return Err(PeriodBackwards); }
      if duplicate { return Err(Duplicate); }

      var post, placement, product, link := dto.post, dto.placement, dto.product, dto.link;
      if dto.reversalOf.Some? {
        var target := Find(rows, |rows|, dto.reversalOf.value);
        if target.None? { return Err(TargetMissing); }
        var reversed := rows[target.value];
        if reversed.channel != dto.channel { return Err(ChannelMismatch); }
        if reversed.currency != DEFAULT_CURRENCY { return Err(CurrencyMismatch); }
        post, placement, product, link := reversed.post, reversed.placement, reversed.product, reversed.link;
      }

      if !inserts { return Err(InsertFailed); }
      var row := Conversion(id, dto.channel, dto.periodStart, dto.periodEnd, dto.ordersCount, dto.itemsSold,
                            dto.gross, dto.commission, DEFAULT_CURRENCY, post, placement, product, link,
                            dto.reversalOf);
      AppendKeepsLinked(rows, row);
      rows := rows + [row];
      return Ok(row);
    }
  }

  lemma AppendKeepsLinked(rows: seq<Conversion>, row: Conversion)
    requires Linked(rows) && row.periodStart <= row.periodEnd
    requires forall i | 0 <= i < |rows| :: rows[i].id != row.id
    requires row.reversalOf.Some? ==>
      exists j :: 0 <= j < |rows| && rows[j].id == row.reversalOf.value && LinkageOf(rows[j]) == LinkageOf(row)
    ensures Linked(rows + [row])
  {
    var longer := rows + [row];
    forall i | 0 <= i < |longer| ensures Settled(longer, i) {
      if i < |rows| {
        assert Settled(rows, i);
        if rows[i].reversalOf.Some? {
          var j :| 0 <= j < i && rows[j].id == rows[i].reversalOf.value && LinkageOf(rows[j]) == LinkageOf(rows[i]);
          assert longer[j] == rows[j];
        }
      } else if row.reversalOf.Some? {
        var j :| 0 <= j < |rows| && rows[j].id == row.reversalOf.value && LinkageOf(rows[j]) == LinkageOf(row);
        assert longer[j] == rows[j];
      }
    }
  }

  // ---------------------------------------------------------------- reversal chains

  /** The row a chain of reversals leads back to. */
  function Root(rows: seq<Conversion>, i: nat): (root: nat)
    requires i < |rows|
    ensures root <= i
  {
    match rows[i].reversalOf
    case None => i
    case Some(id) =>
      match Find(rows, i, id)
      case None => i
      case Some(j) => Root(rows, j)
  }

  /** In a linked ledger a chain ends at a row that reverses nothing, and is one transaction throughout. */
  lemma {:induction false} RootLinked(rows: seq<Conversion>, i: nat)
    requires Linked(rows) && i < |rows|
    ensures rows[Root(rows, i)].reversalOf.None?
    ensures LinkageOf(rows[Root(rows, i)]) == LinkageOf(rows[i])
  {
    assert Settled(rows, i);
    if rows[i].reversalOf.Some? {
      var j := Find(rows, i, rows[i].reversalOf.value).value;
      RootLinked(rows, j);
    }
  }

  /** The chain of a reversal is that of the row it reverses, and a row that reverses nothing heads its own. */
  lemma RootFollows(rows: seq<Conversion>, i: nat, j: nat)
    requires Linked(rows) && i < |rows| && j < |rows|
    ensures rows[i].reversalOf.None? ==> Root(rows, i) == i
    ensures rows[i].reversalOf == Some(rows[j].id) ==> Root(rows, i) == Root(rows, j)
  {
    assert Settled(rows, i);
    if rows[i].reversalOf == Some(rows[j].id) {
      var k := Find(rows, i, rows[j].id).value;
      assert k == j;
    }
  }

  datatype Totals = Totals(commission: int, gross: int, orders: int, items: int, records: int)

  function Plus(a: Totals, b: Totals): Totals {
    Totals(a.commission + b.commission, a.gross + b.gross, a.orders + b.orders, a.items + b.items,
           a.records + b.records)
  }

  const SUM := Monoid(Totals(0, 0, 0, 0, 0), Plus)

  function OrZero(n: Option<int>): int {
    if n.Some? then n.value else 0
  }

  function Amounts(row: Conversion): Totals {
    Totals(row.commission, OrZero(row.gross), OrZero(row.ordersCount), OrZero(row.itemsSold), 1)
  }

  /** The ledger grouped by chain. */
  function ByChain(rows: seq<Conversion>): Breakdown<nat, nat, Linkage, Totals> {
    Breakdown(
      SUM,
      (i: nat) => if i < |rows| then Root(rows, i) else i,
      (i: nat) => if i < |rows| then LinkageOf(rows[i]) else Linkage(Shopee, DEFAULT_CURRENCY, None, None, None, None),
      (i: nat) => if i < |rows| then Amounts(rows[i]) else SUM.zero)
  }

  function Indices(rows: seq<Conversion>): (r: seq<nat>)
    ensures |r| == |rows| && forall i | 0 <= i < |rows| :: r[i] == i
  {
    seq(|rows|, i => i)
  }

  /** What the rows of a chain among the first `n` add up to. */
  function ChainNet(rows: seq<Conversion>, root: nat, n: nat): Totals
    requires n <= |rows|
  {
    if n == 0 then Totals(0, 0, 0, 0, 0)
    else if Root(rows, n - 1) == root then Plus(ChainNet(rows, root, n - 1), Amounts(rows[n - 1]))
    else ChainNet(rows, root, n - 1)
  }

  lemma {:induction false} GroupIsChain(rows: seq<Conversion>, root: nat, n: nat)
    requires n <= |rows|
    ensures Group(ByChain(rows), Indices(rows)[..n], root) == ChainNet(rows, root, n)
  {
    if n > 0 {
      GroupIsChain(rows, root, n - 1);
      assert Indices(rows)[..n][..n - 1] == Indices(rows)[..n - 1];
    }
  }

  /** The groups are the chains, each under the row that heads it ... */
  lemma ChainHeads(rows: seq<Conversion>, i: nat)
    requires Linked(rows)
    ensures i in Keys(Indices(rows), ByChain(rows).key) <==> i < |rows| && rows[i].reversalOf.None?
  {
    var b, all := ByChain(rows), Indices(rows);
    KeysAre(all, b.key);
    if i < |rows| && rows[i].reversalOf.None? {
      RootFollows(rows, i, i);
      assert b.key(all[i]) in Keys(all, b.key);
    }
    if i in Keys(all, b.key) {
      var j := FirstIndex(all, b.key, i);
      RootLinked(rows, j);
    }
  }

  /** ... with that row's linkage and the chain's net. */
  lemma ChainItem(rows: seq<Conversion>, k: nat)
    requires Linked(rows) && k < |Items(ByChain(rows), Indices(rows))|
    ensures var head := Keys(Indices(rows), ByChain(rows).key)[k];
            head < |rows|
            && Items(ByChain(rows), Indices(rows))[k] == Item(LinkageOf(rows[head]), ChainNet(rows, head, |rows|))
  {
    var b, all := ByChain(rows), Indices(rows);
    var head := Keys(all, b.key)[k];
    var j := FirstIndex(all, b.key, head);
    RootLinked(rows, j);
    GroupIsChain(rows, head, |rows|);
    assert all[..|rows|] == all;
  }

  /**
    Whatever rows a scope picks by channel, currency and attribution, its total is the sum, over the
    chains in scope, of each chain's net in the whole ledger.
   */
  lemma ChainsNetInScope(rows: seq<Conversion>, scope: Linkage -> bool)
    requires Linked(rows)
    ensures Over(SUM, Items(ByChain(rows), Indices(rows)), scope) == Total(ByChain(rows), Indices(rows), scope)
  {
    var b, all := ByChain(rows), Indices(rows);
    forall i, j | 0 <= i < |all| && 0 <= j < |all| && b.key(all[i]) == b.key(all[j])
      ensures scope(b.seed(all[i])) == scope(b.seed(all[j]))
    {
      RootLinked(rows, i);
      RootLinked(rows, j);
    }
    Conserved(b, all, scope);
  }

  // ---------------------------------------------------------------- summary scopes

  /** The filters of the global summary. */
  datatype Query = Query(
    channel: Option<Channel>, product: Option<Uuid>, periodStart: Option<int>, periodEnd: Option<int>)

  predicate InSummary(q: Query, row: Conversion) {
    && (q.channel.Some? ==> row.channel == q.channel.value)
    && (q.product.Some? ==> row.product == q.product)
    && (q.periodStart.Some? ==> q.periodStart.value <= row.periodStart)
    && (q.periodEnd.Some? ==> row.periodEnd <= q.periodEnd.value)
  }

  /** The rows attributed to one of a content's placements or posts. */
  predicate InContent(placements: seq<Uuid>, posts: seq<Uuid>, l: Linkage) {
    || (l.placement.Some? && l.placement.value in placements)
    || (l.post.Some? && l.post.value in posts)
  }

  predicate InsideBound(q: Query, day: int) {
    !(q.periodStart.Some? && day < q.periodStart.value) && !(q.periodEnd.Some? && day > q.periodEnd.value)
  }

  /** A summary takes a row exactly when every day of the row's period lies inside the bound. */
  lemma SummaryTakesWholePeriods(q: Query, row: Conversion)
    requires row.periodStart <= row.periodEnd
    ensures InSummary(q, row) <==>
              && (q.channel == None || q.channel == Some(row.channel))
              && (q.product == None || q.product == row.product)
              && forall day | row.periodStart <= day <= row.periodEnd :: InsideBound(q, day)
  {
    if forall day | row.periodStart <= day <= row.periodEnd :: InsideBound(q, day) {
      assert InsideBound(q, row.periodStart) && InsideBound(q, row.periodEnd);
    }
  }

  /** A row is a content's exactly when its placement or its post is one of the content's. */
  lemma InContentIff(placements: seq<Uuid>, posts: seq<Uuid>, row: Conversion)
    ensures InContent(placements, posts, LinkageOf(row)) <==>
              || (exists i :: 0 <= i < |placements| && row.placement == Some(placements[i]))
              || (exists i :: 0 <= i < |posts| && row.post == Some(posts[i]))
  {
  }

  /** Every chain is wholly inside or wholly outside. */
  ghost predicate KeepsChains(rows: seq<Conversion>, picks: Conversion -> bool) {
    forall i | 0 <= i < |rows| :: picks(rows[i]) == picks(rows[Root(rows, i)])
  }

  lemma ContentKeepsChains(rows: seq<Conversion>, placements: seq<Uuid>, posts: seq<Uuid>)
    requires Linked(rows)
    ensures KeepsChains(rows, row => InContent(placements, posts, LinkageOf(row)))
  {
    forall i | 0 <= i < |rows|
      ensures InContent(placements, posts, LinkageOf(rows[i]))
           == InContent(placements, posts, LinkageOf(rows[Root(rows, i)]))
    {
      RootLinked(rows, i);
    }
  }

  /** The filter can tell two periods apart. */
  predicate BoundsPeriods(q: Query) {
    && (q.periodStart.Some? || q.periodEnd.Some?)
    && (q.periodStart.Some? && q.periodEnd.Some? ==> q.periodStart.value <= q.periodEnd.value)
  }

  const FIRST: Uuid := "111111111111111111111111111111111111"

  const SECOND: Uuid := "222222222222222222222222222222222222"

  /** A sale just outside the bounded period. */
  function Sale(q: Query): NewConversion
    requires BoundsPeriods(q)
  {
    var day := if q.periodStart.Some? then q.periodStart.value - 1 else q.periodEnd.value + 1;
    NewConversion(if q.channel.Some? then q.channel.value else Shopee, day, day, None, None, None, 24000,
                  None, None, q.product, None, None)
  }

  /** Its reversal, inside. */
  function Refund(q: Query): NewConversion
    requires BoundsPeriods(q)
  {
    var day := if q.periodStart.Some? then q.periodStart.value else q.periodEnd.value;
    NewConversion(Sale(q).channel, day, day, None, None, None, -24000, None, None, q.product, None, Some(FIRST))
  }

  /** A request as a row of its own linkage. */
  function Recorded(dto: NewConversion, id: Uuid): Conversion {
    Conversion(id, dto.channel, dto.periodStart, dto.periodEnd, dto.ordersCount, dto.itemsSold, dto.gross,
               dto.commission, DEFAULT_CURRENCY, dto.post, dto.placement, dto.product, dto.link, dto.reversalOf)
  }

  function SplitLedger(q: Query): seq<Conversion>
    requires BoundsPeriods(q)
  {
    [Recorded(Sale(q), FIRST), Recorded(Refund(q), SECOND)]
  }

  lemma RowIs(row: Conversion, dto: NewConversion)
    requires Records(row, dto)
    requires LinkageOf(row) == Linkage(dto.channel, DEFAULT_CURRENCY, dto.post, dto.placement, dto.product, dto.link)
    ensures row == Recorded(dto, row.id)
  {
  }

  /** An original row is recorded as requested. */
  method CreateOriginal(ledger: ConversionLedger, dto: NewConversion, id: Uuid)
    requires ledger.Valid() && forall i | 0 <= i < |ledger.rows| :: ledger.rows[i].id != id
    requires dto.reversalOf.None? && dto.periodStart <= dto.periodEnd
    modifies ledger
    ensures ledger.Valid() && ledger.rows == old(ledger.rows) + [Recorded(dto, id)]
  {
    var r := ledger.Create(dto, id, true, false, true);
    RowIs(r.row, dto);
  }

  /** A reversal that repeats its target's linkage is recorded as requested. */
  method CreateReversal(ledger: ConversionLedger, dto: NewConversion, id: Uuid, ghost j: nat)
    requires ledger.Valid() && forall i | 0 <= i < |ledger.rows| :: ledger.rows[i].id != id
    requires IsTarget(ledger.rows, dto, j) && dto.periodStart <= dto.periodEnd
    requires LinkageOf(ledger.rows[j]) == LinkageOf(Recorded(dto, id))
    modifies ledger
    ensures ledger.Valid() && ledger.rows == old(ledger.rows) + [Recorded(dto, id)]
  {
    ghost var before := ledger.rows;
    assert Reversible(before, dto);
    var r := ledger.Create(dto, id, true, false, true);
    assert Settled(ledger.rows, |before|);
    ghost var k :| 0 <= k < |before| && ledger.rows[k].id == dto.reversalOf.value
                   && LinkageOf(ledger.rows[k]) == LinkageOf(r.row);
    assert ledger.rows[j].id == ledger.rows[k].id;
    RowIs(r.row, dto);
  }

  /** Two calls of Create leave that ledger. */
  method CreateSplit(q: Query) returns (ledger: ConversionLedger)
    requires BoundsPeriods(q)
    ensures ledger.rows == SplitLedger(q) && ledger.rows[0].commission + ledger.rows[1].commission == 0
  {
    assert FIRST[0] != SECOND[0];
    ledger := new ConversionLedger();
    CreateOriginal(ledger, Sale(q), FIRST);
    CreateReversal(ledger, Refund(q), SECOND, 0);
  }

  /**
    A summary keeps the chains of every ledger whole exactly when it does not bound the period: a
    reversal carries its own period, so a bound can let in the reversal and keep out its target.
   */
  lemma SummaryKeepsChainsIff(q: Query)
    ensures (forall rows: seq<Conversion> | Linked(rows) :: KeepsChains(rows, row => InSummary(q, row)))
       <==> !BoundsPeriods(q)
  {
    if BoundsPeriods(q) {
      var rows := SplitLedger(q);
      assert FIRST[0] != SECOND[0];
      assert LinkageOf(rows[0]) == LinkageOf(rows[1]);
      assert Linked(rows);
      assert Find(rows, 1, rows[0].id) == Some(0);
      assert Root(rows, 1) == 0;
      assert !KeepsChains(rows, row => InSummary(q, row));
    } else {
      forall rows: seq<Conversion> | Linked(rows) ensures KeepsChains(rows, row => InSummary(q, row)) {
        forall i | 0 <= i < |rows| ensures InSummary(q, rows[i]) == InSummary(q, rows[Root(rows, i)]) {
          RootLinked(rows, i);
        }
      }
    }
  }
}
