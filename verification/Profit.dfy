/** Weighted-average cost accounting and the split of realized profit.

    Amounts are integers; costs and profits are exact rationals, of which only order and the field
    laws are used, and which therefore appear as `real`s. */
module Profit {

  import opened Outcomes
  import opened Domain

  /** The position and the instrument pair a trade is booked on. */
  datatype Account = Account(position: string, base: string, quote: string) {
    predicate Valid() {
      position != "" && base != "" && quote != "" && base != quote
    }
  }

  datatype Trade = Trade(account: Account, side: Side, base: int, quote: int, cost: int) {
    predicate Valid() {
      account.Valid() && 0 < base && 0 < quote && 0 <= cost
    }
  }

  datatype Allocation = Allocation(
    account: Account, pnl: real, profit: real, loss: real, inventory: int, basis: real,
    recyclable: int, banked: int, retained: real, cost: int)

  // ---------------------------------------------------------------------------------
  // The books
  // ---------------------------------------------------------------------------------

  /** What one pass over the trades knows. `released` is the cost basis that sales have taken out;
      the program does not keep it. */
  datatype Book = Book(inventory: int, basis: real, realized: real, released: real) {
    ghost predicate Sane() {
      0 <= inventory && 0.0 <= basis && (inventory == 0 ==> basis == 0.0)
    }
  }

  const OPENING: Book := Book(0, 0.0, 0.0, 0.0)

  /** The share of the basis that a sale releases. */
  function ReleasedBy(b: Book, sold: int): real
    requires b.inventory != 0
  {
    b.basis * (sold as real / b.inventory as real)
  }

  /** One trade, booked at weighted-average cost; a sale beyond the inventory is refused. The basis
      is not reset when the inventory is sold out. */
  function Booked(b: Book, t: Trade): Option<Book>
    requires t.Valid() && 0 <= b.inventory
  {
    if t.side == Buy then
      Some(b.(inventory := b.inventory + t.base, basis := b.basis + (t.quote + t.cost) as real))
    else if b.inventory < t.base then None
    else
      var released := ReleasedBy(b, t.base);
      Some(Book(b.inventory - t.base, b.basis - released, b.realized + ((t.quote - t.cost) as real - released),
                b.released + released))
  }

  ghost predicate AllValid(trades: seq<Trade>) {
    forall t :: t in trades ==> t.Valid()
  }

  /** All trades in order. */
  ghost function Books(b: Option<Book>, trades: seq<Trade>): Option<Book>
    requires AllValid(trades) && (b.Some? ==> 0 <= b.value.inventory)
    decreases |trades|
  {
    if trades == [] || b.None? then b else Books(Booked(b.value, trades[0]), trades[1..])
  }

  function CostOf(trades: seq<Trade>): int {
    if trades == [] then 0 else trades[0].cost + CostOf(trades[1..])
  }

  /** Rounded down, so rounding creates no capital. */
  function Split(account: Account, inventory: int, basis: real, realized: real, cost: int, recycle: real, bank: real): Allocation {
    var profit := if realized < 0.0 then 0.0 else realized;
    var loss := if -realized < 0.0 then 0.0 else -realized;
    var recyclable, banked := (profit * recycle).Floor, (profit * bank).Floor;
    Allocation(account, realized, profit, loss, inventory, basis, recyclable, banked,
               profit - recyclable as real - banked as real, cost)
  }

  predicate RatiosFit(recycle: real, bank: real) {
    0.0 <= recycle <= 1.0 && 0.0 <= bank <= 1.0 && recycle + bank <= 1.0
  }

  ghost predicate Belong(trades: seq<Trade>, account: Account) {
    forall t :: t in trades ==> t.account == account
  }

  /** What the whole computation yields. */
  ghost function AllocationOf(trades: seq<Trade>, account: Account, recycle: real, bank: real): Option<Allocation>
    requires AllValid(trades)
  {
    if !account.Valid() || !RatiosFit(recycle, bank) || !Belong(trades, account) then None
    else match Books(Some(OPENING), trades)
      case None => None
      case Some(b) => Some(Split(account, b.inventory, b.basis, b.realized, CostOf(trades), recycle, bank))
  }

  method ComputeProfitAllocation(trades: seq<Trade>, account: Account, recycle: real, bank: real)
      returns (r: Result<Allocation>)
    requires AllValid(trades)
    ensures r == match AllocationOf(trades, account, recycle, bank)
                 case None => Refused(OutOfContract)
                 case Some(a) => Ok(a)
  {
    if !account.Valid() || !RatiosFit(recycle, bank) {
      return Refused(OutOfContract);
    }
    var inventory, basis, realized, cost := 0, 0.0, 0.0, 0;
    ghost var released := 0.0;
    for i := 0 to |trades|
      invariant Book(inventory, basis, realized, released).Sane()
      invariant forall k :: 0 <= k < i ==> trades[k].account == account
      invariant Books(Some(OPENING), trades) == Books(Some(Book(inventory, basis, realized, released)), trades[i..])
      invariant cost + CostOf(trades[i..]) == CostOf(trades)
    {
      var trade := trades[i];
      assert trade in trades && trade.Valid();
      assert trades[i..][0] == trade && trades[i..][1..] == trades[i + 1..];
      if trade.account != account {
        return Refused(OutOfContract);
      }
      cost := cost + trade.cost;
      ghost var before := Book(inventory, basis, realized, released);
      if trade.side == Buy {
        inventory := inventory + trade.base;
        basis := basis + (trade.quote + trade.cost) as real;
        continue;
      }
      if inventory < trade.base {
        assert Books(Some(before), trades[i..]) == None;
        return Refused(OutOfContract);
      }
      BookedIsSane(before, trade);
      var share := basis * (trade.base as real / inventory as real);
      assert share == ReleasedBy(before, trade.base);
      realized := realized + ((trade.quote - trade.cost) as real - share);
      inventory := inventory - trade.base;
      basis := basis - share;
      released := released + share;
      assert Booked(before, trade) == Some(Book(inventory, basis, realized, released));
      assert Books(Some(before), trades[i..]) == Books(Booked(before, trade), trades[i + 1..]);
      if inventory == 0 {
        basis := 0.0;
      }
    }
    assert trades[|trades|..] == [];
    return Ok(Split(account, inventory, basis, realized, cost, recycle, bank));
  }

  // ---------------------------------------------------------------------------------
  // Arithmetic of one sale
  // ---------------------------------------------------------------------------------

  /** Selling out releases the whole basis, so the reset at zero inventory changes nothing. */
  lemma BookedIsSane(b: Book, t: Trade)
    requires b.Sane() && t.Valid()
    ensures Booked(b, t).Some? ==> Booked(b, t).value.Sane()
    ensures Booked(b, t).Some? && t.side == Sell ==> b.basis >= ReleasedBy(b, t.base) >= 0.0
  {
  }

  // ---------------------------------------------------------------------------------
  // Conservation
  // ---------------------------------------------------------------------------------

  function Traded(trades: seq<Trade>, side: Side): int {
    if trades == [] then 0 else (if trades[0].side == side then trades[0].base else 0) + Traded(trades[1..], side)
  }

  /** What all purchases cost, external costs included. */
  function BuyCost(trades: seq<Trade>): int {
    if trades == [] then 0
    else (if trades[0].side == Buy then trades[0].quote + trades[0].cost else 0) + BuyCost(trades[1..])
  }

  /** What all sales returned, external costs deducted. */
  function NetProceeds(trades: seq<Trade>): int {
    if trades == [] then 0
    else (if trades[0].side == Sell then trades[0].quote - trades[0].cost else 0) + NetProceeds(trades[1..])
  }

  lemma {:induction false} BooksConserve(b: Book, trades: seq<Trade>)
    requires AllValid(trades) && b.Sane() && Books(Some(b), trades).Some?
    ensures var c := Books(Some(b), trades).value;
            && c.Sane()
            && c.inventory == b.inventory + Traded(trades, Buy) - Traded(trades, Sell)
            && c.basis + c.released == b.basis + b.released + BuyCost(trades) as real
            && c.realized + c.released == b.realized + b.released + NetProceeds(trades) as real
            && b.released <= c.released
    decreases |trades|
  {
    if trades != [] {
      assert trades[0] in trades;
      BookedIsSane(b, trades[0]);
      BooksConserve(Booked(b, trades[0]).value, trades[1..]);
    }
  }

  /** After any trade list: the inventory is what was bought less what was sold, the cost of all
      purchases is the basis released plus the basis remaining, and the realized result is the net
      proceeds less the basis released. Nothing else enters or leaves the books. */
  lemma Conservation(trades: seq<Trade>, account: Account, recycle: real, bank: real)
    requires AllValid(trades) && AllocationOf(trades, account, recycle, bank).Some?
    ensures var a := AllocationOf(trades, account, recycle, bank).value;
            && 0 <= a.inventory == Traded(trades, Buy) - Traded(trades, Sell)
            && (a.inventory == 0 ==> a.basis == 0.0)
            && a.pnl == NetProceeds(trades) as real - (BuyCost(trades) as real - a.basis)
            && 0.0 <= a.basis <= BuyCost(trades) as real
            && a.profit - a.loss == a.pnl
  {
    BooksConserve(OPENING, trades);
  }

  /** Profit and loss are the two signs of the realized result, so that a loss is never recycled.
      Recycled, banked and retained profit make up the profit, and none is negative. */
  lemma ProfitIsSplit(trades: seq<Trade>, account: Account, recycle: real, bank: real)
    requires AllValid(trades) && AllocationOf(trades, account, recycle, bank).Some?
    ensures var a := AllocationOf(trades, account, recycle, bank).value;
            && a.profit == (if 0.0 <= a.pnl then a.pnl else 0.0) && a.loss == (if 0.0 <= a.pnl then 0.0 else -a.pnl)
            && a.recyclable as real + a.banked as real + a.retained == a.profit
            && 0 <= a.recyclable && 0 <= a.banked && 0.0 <= a.retained
            && a.recyclable as real <= a.profit * recycle < a.recyclable as real + 1.0
            && a.banked as real <= a.profit * bank < a.banked as real + 1.0
  {
  }

  /** The quoted amounts of all trades of a side. */
  function Quoted(trades: seq<Trade>, side: Side): int {
    if trades == [] then 0 else (if trades[0].side == side then trades[0].quote else 0) + Quoted(trades[1..], side)
  }

  lemma {:induction false} CostsSeparate(trades: seq<Trade>)
    ensures NetProceeds(trades) - BuyCost(trades) == Quoted(trades, Sell) - Quoted(trades, Buy) - CostOf(trades)
  {
    if trades != [] { CostsSeparate(trades[1..]); }
  }

  /** The reported external cost is exactly what separates the result from the quoted amounts. */
  lemma CostIsWhatIsLost(trades: seq<Trade>, account: Account, recycle: real, bank: real)
    requires AllValid(trades) && AllocationOf(trades, account, recycle, bank).Some?
    ensures var a := AllocationOf(trades, account, recycle, bank).value;
            && a.account == account
            && a.pnl - a.basis == (Quoted(trades, Sell) - Quoted(trades, Buy) - a.cost) as real
  {
    Conservation(trades, account, recycle, bank);
    CostsSeparate(trades);
  }

  // ---------------------------------------------------------------------------------
  // When it succeeds
  // ---------------------------------------------------------------------------------

  /** At no point was more sold than bought. */
  ghost predicate NeverOversold(inventory: int, trades: seq<Trade>) {
    forall n :: 0 <= n <= |trades| ==> Traded(trades[..n], Sell) <= inventory + Traded(trades[..n], Buy)
  }

  lemma TradedStep(trades: seq<Trade>, n: nat, side: Side)
    requires 0 < n <= |trades|
    ensures Traded(trades[..n], side)
         == (if trades[0].side == side then trades[0].base else 0) + Traded(trades[1..][..n - 1], side)
  {
    assert trades[..n][0] == trades[0] && trades[..n][1..] == trades[1..][..n - 1];
  }

  lemma NeverOversoldStep(inventory: int, trades: seq<Trade>)
    requires trades != []
    ensures var change := if trades[0].side == Buy then trades[0].base else -trades[0].base;
            NeverOversold(inventory, trades) <==> 0 <= inventory && NeverOversold(inventory + change, trades[1..])
  {
    var change := if trades[0].side == Buy then trades[0].base else -trades[0].base;
    if 0 <= inventory && NeverOversold(inventory + change, trades[1..]) {
      forall n | 0 <= n <= |trades| ensures Traded(trades[..n], Sell) <= inventory + Traded(trades[..n], Buy) {
        if n != 0 {
          TradedStep(trades, n, Sell);
          TradedStep(trades, n, Buy);
          assert Traded(trades[1..][..n - 1], Sell) <= inventory + change + Traded(trades[1..][..n - 1], Buy);
        }
      }
    }
    if NeverOversold(inventory, trades) {
      assert Traded(trades[..0], Sell) <= inventory + Traded(trades[..0], Buy);
      forall n | 0 <= n <= |trades[1..]|
        ensures Traded(trades[1..][..n], Sell) <= inventory + change + Traded(trades[1..][..n], Buy)
      {
        TradedStep(trades, n + 1, Sell);
        TradedStep(trades, n + 1, Buy);
        var m := n + 1;
        assert Traded(trades[..m], Sell) <= inventory + Traded(trades[..m], Buy);
      }
    }
  }

  /** The books balance exactly when at no point more was sold than bought. */
  lemma {:induction false} BooksExist(b: Book, trades: seq<Trade>)
    requires AllValid(trades) && 0 <= b.inventory
    ensures Books(Some(b), trades).Some? <==> NeverOversold(b.inventory, trades)
    decreases |trades|
  {
    if trades != [] {
      var t := trades[0];
      assert t in trades;
      NeverOversoldStep(b.inventory, trades);
      if Booked(b, t).Some? {
        BooksExist(Booked(b, t).value, trades[1..]);
      } else {
        assert Traded(trades[1..][..0], Sell) == 0 == Traded(trades[1..][..0], Buy);
      }
    }
  }

  lemma AllocationExists(trades: seq<Trade>, account: Account, recycle: real, bank: real)
    requires AllValid(trades)
    ensures AllocationOf(trades, account, recycle, bank).Some? <==>
            && account.position != "" && account.base != "" && account.quote != "" && account.base != account.quote
            && 0.0 <= recycle && 0.0 <= bank && recycle + bank <= 1.0
            && (forall t :: t in trades ==> t.account == account) && NeverOversold(0, trades)
  {
    BooksExist(OPENING, trades);
  }

  // ---------------------------------------------------------------------------------
  // Average cost
  // ---------------------------------------------------------------------------------

  /** Every purchase cost at least `least` and at most `most` per unit. */
  ghost predicate UnitCostsWithin(trades: seq<Trade>, least: real, most: real) {
    forall t :: t in trades && t.side == Buy ==>
      least * t.base as real <= (t.quote + t.cost) as real <= most * t.base as real
  }

  ghost predicate AverageWithin(b: Book, least: real, most: real) {
    least * b.inventory as real <= b.basis <= most * b.inventory as real
  }

  lemma SaleKeepsAverage(basis: real, inventory: real, sold: real, bound: real)
    requires 0.0 < sold <= inventory
    ensures basis <= bound * inventory ==> basis - basis * (sold / inventory) <= bound * (inventory - sold)
    ensures bound * inventory <= basis ==> bound * (inventory - sold) <= basis - basis * (sold / inventory)
  {
  }

  /** A sale leaves the average cost of what remains as it was. */
  lemma SaleKeepsUnitCost(b: Book, t: Trade)
    requires b.Sane() && t.Valid() && t.side == Sell && Booked(b, t).Some? && t.base < b.inventory
    ensures var c := Booked(b, t).value;
            c.basis / c.inventory as real == b.basis / b.inventory as real
  {
    var c := Booked(b, t).value;
    var average := b.basis / b.inventory as real;
    assert b.basis == average * b.inventory as real;
    SaleKeepsAverage(b.basis, b.inventory as real, t.base as real, average);
    assert c.inventory as real == b.inventory as real - t.base as real;
    assert c.basis == average * c.inventory as real;
    QuotientIs(c.basis, average, c.inventory as real);
  }

  lemma QuotientIs(x: real, q: real, k: real)
    requires k != 0.0 && x == q * k
    ensures x / k == q
  {
  }

  lemma PurchaseKeepsAverage(inventory: int, base: int, bound: real)
    ensures bound * (inventory + base) as real == bound * inventory as real + bound * base as real
  {
  }

  lemma BookedKeepsAverage(b: Book, t: Trade, least: real, most: real)
    requires b.Sane() && t.Valid() && AverageWithin(b, least, most) && Booked(b, t).Some?
    requires t.side == Buy ==> least * t.base as real <= (t.quote + t.cost) as real <= most * t.base as real
    ensures AverageWithin(Booked(b, t).value, least, most)
  {
    if t.side == Buy {
      PurchaseKeepsAverage(b.inventory, t.base, least);
      PurchaseKeepsAverage(b.inventory, t.base, most);
    } else {
      SaleKeepsAverage(b.basis, b.inventory as real, t.base as real, least);
      SaleKeepsAverage(b.basis, b.inventory as real, t.base as real, most);
    }
  }

  lemma {:induction false} BooksKeepAverage(b: Book, trades: seq<Trade>, least: real, most: real)
    requires AllValid(trades) && b.Sane() && AverageWithin(b, least, most) && UnitCostsWithin(trades, least, most)
    requires Books(Some(b), trades).Some?
    ensures AverageWithin(Books(Some(b), trades).value, least, most)
    decreases |trades|
  {
    if trades != [] {
      assert trades[0] in trades;
      BookedKeepsAverage(b, trades[0], least, most);
      BookedIsSane(b, trades[0]);
      BooksKeepAverage(Booked(b, trades[0]).value, trades[1..], least, most);
    }
  }

  /** The average cost of the remaining inventory lies between the least and the greatest cost per
      unit that was ever paid. */
  lemma AverageCostIsBetween(trades: seq<Trade>, account: Account, recycle: real, bank: real, least: real, most: real)
    requires AllValid(trades) && AllocationOf(trades, account, recycle, bank).Some?
    requires UnitCostsWithin(trades, least, most)
    ensures var a := AllocationOf(trades, account, recycle, bank).value;
            least * a.inventory as real <= a.basis <= most * a.inventory as real
  {
    BooksKeepAverage(OPENING, trades, least, most);
  }

  // ---------------------------------------------------------------------------------
  // Merging
  // ---------------------------------------------------------------------------------

  function Merged(s: Trade, t: Trade): Trade {
    Trade(s.account, s.side, s.base + t.base, s.quote + t.quote, s.cost + t.cost)
  }

  lemma TwoSales(basis: real, inventory: real, first: real, second: real)
    requires 0.0 < first && 0.0 < second && first + second <= inventory
    ensures var x := basis * (first / inventory);
            x + (basis - x) * (second / (inventory - first)) == basis * ((first + second) / inventory)
  {
  }

  lemma Regroup(basis: real, p: real, q: real)
    ensures basis * p + (basis - basis * p) * q == basis * (p + (1.0 - p) * q)
  {
  }

  /** Two adjacent trades of one side book exactly like their sum, refusal included. */
  lemma TwoBookAsOne(b: Book, s: Trade, t: Trade)
    requires s.Valid() && t.Valid() && s.side == t.side && s.account == t.account && 0 <= b.inventory
    ensures Merged(s, t).Valid()
    ensures Booked(b, Merged(s, t)) == match Booked(b, s) case None => None case Some(c) => Booked(c, t)
  {
    if s.side == Sell && s.base + t.base <= b.inventory {
      TwoSales(b.basis, b.inventory as real, s.base as real, t.base as real);
      assert (b.inventory - s.base) as real == b.inventory as real - s.base as real;
      assert (s.base + t.base) as real == s.base as real + t.base as real;
      var first := ReleasedBy(b, s.base);
      var c := Booked(b, s).value;
      assert ReleasedBy(b, s.base + t.base) == first + ReleasedBy(c, t.base);
    }
  }

  lemma {:induction false} BooksAppend(b: Option<Book>, s: seq<Trade>, t: seq<Trade>)
    requires AllValid(s) && AllValid(t) && (b.Some? ==> b.value.Sane())
    ensures AllValid(s + t)
    ensures Books(b, s).Some? ==> Books(b, s).value.Sane()
    ensures Books(b, s + t) == Books(Books(b, s), t)
    decreases |s|
  {
    if s == [] {
      assert s + t == t;
    } else if b.Some? {
      assert (s + t)[0] == s[0] && (s + t)[1..] == s[1..] + t;
      assert s[0] in s;
      BookedIsSane(b.value, s[0]);
      BooksAppend(Booked(b.value, s[0]), s[1..], t);
    }
  }

  lemma {:induction false} CostAppend(s: seq<Trade>, t: seq<Trade>)
    ensures CostOf(s + t) == CostOf(s) + CostOf(t)
    decreases |s|
  {
    if s == [] {
      assert s + t == t;
    } else {
      assert (s + t)[0] == s[0] && (s + t)[1..] == s[1..] + t;
      CostAppend(s[1..], t);
    }
  }

  lemma PairBooksAsOne(b: Option<Book>, s: Trade, t: Trade)
    requires s.Valid() && t.Valid() && s.side == t.side && s.account == t.account
    requires b.Some? ==> b.value.Sane()
    ensures AllValid([s, t]) && AllValid([Merged(s, t)])
    ensures Books(b, [s, t]) == Books(b, [Merged(s, t)])
  {
    if b.Some? {
      TwoBookAsOne(b.value, s, t);
      var c := Booked(b.value, s);
      BookedIsSane(b.value, s);
      assert [s, t][1..] == [t] && [t][1..] == [] && [Merged(s, t)][1..] == [];
      assert Books(b, [s, t]) == Books(c, [t]);
      assert Books(b, [Merged(s, t)]) == Booked(b.value, Merged(s, t));
    }
  }

  /** Splitting a purchase or a sale into two, or merging two adjacent ones, changes neither whether
      the computation succeeds nor anything it yields. */
  lemma MergingChangesNothing(
      before: seq<Trade>, s: Trade, t: Trade, after: seq<Trade>, account: Account, recycle: real, bank: real)
    requires AllValid(before) && AllValid(after) && s.Valid() && t.Valid()
    requires s.side == t.side && s.account == t.account
    ensures AllValid(before + [s, t] + after) && AllValid(before + [Merged(s, t)] + after)
    ensures AllocationOf(before + [s, t] + after, account, recycle, bank)
         == AllocationOf(before + [Merged(s, t)] + after, account, recycle, bank)
  {
    var m := Merged(s, t);
    BooksAppend(Some(OPENING), before, [s, t]);
    BooksAppend(Some(OPENING), before, [m]);
    BooksAppend(Some(OPENING), before + [s, t], after);
    BooksAppend(Some(OPENING), before + [m], after);
    PairBooksAsOne(Books(Some(OPENING), before), s, t);
    CostAppend(before, [s, t]);
    CostAppend(before, [m]);
    CostAppend(before + [s, t], after);
    CostAppend(before + [m], after);
    assert [s, t][1..] == [t] && [t][1..] == [] && [m][1..] == [];
    assert CostOf([s, t]) == CostOf([m]);
    BelongTogether(before, s, t, after, account);
  }

  lemma BelongTogether(before: seq<Trade>, s: Trade, t: Trade, after: seq<Trade>, account: Account)
    requires s.account == t.account
    ensures Belong(before + [s, t] + after, account) <==> Belong(before + [Merged(s, t)] + after, account)
  {
  }
}
