/** What holds of every sequence of requests the store serves: the histories
    only grow, the balance is accounted for by the histories and the manual
    balance edits, the stock by the histories, and stored prices stick. */
module Properties {
  import opened Text
  import opened Domain

  /** Sum of the `total` fields of a history. */
  function TotalOf(rs: seq<Record>): real {
    if rs == [] then 0.0 else TotalOf(rs[..|rs| - 1]) + rs[|rs| - 1].total
  }

  /** Sum of the quantities that a history records for item `n`. */
  function MovedOf(rs: seq<Record>, n: string): int {
    if rs == [] then 0
    else MovedOf(rs[..|rs| - 1], n) + (if rs[|rs| - 1].item == n then rs[|rs| - 1].quantity else 0)
  }

  /** The stock on hand of `n`; an item the inventory does not hold has none. */
  function Stock(inv: map<string, Item>, n: string): int {
    if n in inv then inv[n].quantity else 0
  }

  /** The net change a request makes to the balance outside the histories. */
  function Adjustment(req: Request): real {
    match req
    case BalancePost(c, a) =>
      if Lower(c) == "add" then a as real else if Lower(c) == "subtract" then -(a as real) else 0.0
    case _ => 0.0
  }

  function NetAdjustment(reqs: seq<Request>): real
    decreases |reqs|
  {
    if reqs == [] then 0.0 else Adjustment(reqs[0]) + NetAdjustment(reqs[1..])
  }

  /** The balance less what was sold, plus what was bought. */
  function Capital(s: StoreState): real {
    s.balance - TotalOf(s.sales) + TotalOf(s.purchases)
  }

  /** Stock on hand of `n`, plus what was sold of it, less what was bought of it. */
  function StockBase(s: StoreState, n: string): int {
    Stock(s.inventory, n) + MovedOf(s.sales, n) - MovedOf(s.purchases, n)
  }

  /** One request keeps both histories as prefixes and appends at most one record
      to each; a refused request appends nothing. */
  lemma NextAppendsOnly(s: StoreState, req: Request)
    ensures var t := Next(s, req);
      && s.sales <= t.sales && |t.sales| <= |s.sales| + 1
      && s.purchases <= t.purchases && |t.purchases| <= |s.purchases| + 1
  {
  }

  /** The histories are append-only: across any run of requests every earlier
      entry of each history stays where it was. */
  lemma {:induction false} RunAppendsOnly(s: StoreState, reqs: seq<Request>)
    ensures s.sales <= Run(s, reqs).sales
    ensures s.purchases <= Run(s, reqs).purchases
    decreases |reqs|
  {
    if reqs != [] {
      NextAppendsOnly(s, reqs[0]);
      RunAppendsOnly(Next(s, reqs[0]), reqs[1..]);
    }
  }

  /** A sale credits what its record totals, a purchase debits what its record
      totals, and a balance edit changes nothing else. */
  lemma NextKeepsCapital(s: StoreState, req: Request)
    ensures Capital(Next(s, req)) == Capital(s) + Adjustment(req)
  {
  }

  /** The balance is accounted for: after any run of requests it equals the
      balance before, plus the totals of the new sales, less the totals of the
      new purchases, plus the net effect of the balance edits. */
  lemma {:induction false} RunKeepsCapital(s: StoreState, reqs: seq<Request>)
    ensures Capital(Run(s, reqs)) == Capital(s) + NetAdjustment(reqs)
    decreases |reqs|
  {
    if reqs != [] {
      NextKeepsCapital(s, reqs[0]);
      RunKeepsCapital(Next(s, reqs[0]), reqs[1..]);
    }
  }

  /** Each request moves stock only through a history record: a sale lowers the
      item's stock by what its record says, a purchase raises it likewise, and
      removing an emptied entry is the same as holding zero of it. */
  lemma NextKeepsStockBase(s: StoreState, req: Request, n: string)
    ensures StockBase(Next(s, req), n) == StockBase(s, n)
  {
    match req
    case BalancePost(c, a) =>
    case SalesPost(i, p, q, tm) =>
      var r := SaleOutcome(s, i, p, q, tm);
      if r.Accepted? && n != Lower(i) {
        assert n in r.next.inventory <==> n in r.next.inventory - {Lower(i)};
      }
    case PurchasePost(i, p, q, tm) =>
      var r := PurchaseOutcome(s, i, p, q, tm);
      if r.Accepted? && n != Lower(i) {
        assert n in r.next.inventory <==> n in r.next.inventory - {Lower(i)};
      }
  }

  /** The stock is accounted for: after any run of requests, the stock of every
      item equals its stock before, less what the new sales records took, plus
      what the new purchase records brought. */
  lemma {:induction false} RunKeepsStockBase(s: StoreState, reqs: seq<Request>, n: string)
    ensures StockBase(Run(s, reqs), n) == StockBase(s, n)
    decreases |reqs|
  {
    if reqs != [] {
      NextKeepsStockBase(s, reqs[0], n);
      RunKeepsStockBase(Next(s, reqs[0]), reqs[1..], n);
    }
  }

  /** From a store with no saved data, the balance is the initial one plus sales,
      less purchases, plus the balance edits, and every item's stock is what was
      bought of it less what was sold of it. */
  lemma FreshStoreAccounts(reqs: seq<Request>, n: string)
    ensures var t := Run(Load(None), reqs);
      && t.balance == InitialBalance + TotalOf(t.sales) - TotalOf(t.purchases) + NetAdjustment(reqs)
      && Stock(t.inventory, n) == MovedOf(t.purchases, n) - MovedOf(t.sales, n)
  {
    RunKeepsCapital(Load(None), reqs);
    RunKeepsStockBase(Load(None), reqs, n);
  }

  /** Every stored entry has stock on hand. */
  ghost predicate AllStocked(inv: map<string, Item>) {
    forall n :: n in inv ==> inv[n].quantity > 0
  }

  /** A purchase that actually brings stock in (the handler never checks this). */
  ghost predicate BringsStock(req: Request) {
    req.PurchasePost? ==> req.quantity > 0
  }

  lemma NextKeepsAllStocked(s: StoreState, req: Request)
    requires AllStocked(s.inventory) && BringsStock(req)
    ensures AllStocked(Next(s, req).inventory)
  {
  }

  /** Sales never leave an empty or negative entry behind, so as long as every
      purchase brings in a positive quantity, no stored stock is ever zero or
      negative. */
  lemma {:induction false} RunKeepsAllStocked(s: StoreState, reqs: seq<Request>)
    requires AllStocked(s.inventory)
    requires forall i :: 0 <= i < |reqs| ==> BringsStock(reqs[i])
    ensures AllStocked(Run(s, reqs).inventory)
    decreases |reqs|
  {
    if reqs != [] {
      NextKeepsAllStocked(s, reqs[0]);
      RunKeepsAllStocked(Next(s, reqs[0]), reqs[1..]);
    }
  }

  /** True when some request of `reqs` is a sale of item `n`. */
  ghost predicate SellsItem(reqs: seq<Request>, n: string) {
    exists i :: 0 <= i < |reqs| && reqs[i].SalesPost? && Lower(reqs[i].itemName) == n
  }

  /** Re-purchasing never changes a stored price: an item held at the start of
      a run that sells none of it is still held afterwards, at its old price,
      whatever prices it was bought again at. */
  lemma {:induction false} RunKeepsPrice(s: StoreState, reqs: seq<Request>, n: string)
    requires n in s.inventory
    requires !SellsItem(reqs, n)
    ensures n in Run(s, reqs).inventory
    ensures Run(s, reqs).inventory[n].price == s.inventory[n].price
    decreases |reqs|
  {
    if reqs != [] {
      var t := Next(s, reqs[0]);
      assert !SellsItem(reqs[1..], n) by {
        forall i | 0 <= i < |reqs[1..]| ensures !(reqs[1..][i].SalesPost? && Lower(reqs[1..][i].itemName) == n) {
          assert reqs[1..][i] == reqs[i + 1];
        }
      }
      match reqs[0] {
        case BalancePost(c, a) =>
        case SalesPost(i, p, q, tm) =>
          assert Lower(i) != n by { assert reqs[0].SalesPost? && Lower(reqs[0].itemName) == Lower(i); }
          if SaleOutcome(s, i, p, q, tm).Accepted? {
            assert n in t.inventory - {Lower(i)};
            assert t.inventory[n] == (t.inventory - {Lower(i)})[n];
          }
        case PurchasePost(i, p, q, tm) =>
          if PurchaseOutcome(s, i, p, q, tm).Accepted? && n != Lower(i) {
            assert n in t.inventory - {Lower(i)};
            assert t.inventory[n] == (t.inventory - {Lower(i)})[n];
          }
      }
      RunKeepsPrice(t, reqs[1..], n);
    }
  }

  /** No request changes the stored price of an item that is held both before
      and after it: a partial sale and a purchase at another price leave it. */
  lemma NextKeepsPrice(s: StoreState, req: Request, n: string)
    requires n in s.inventory && n in Next(s, req).inventory
    ensures Next(s, req).inventory[n].price == s.inventory[n].price
  {
  }

  /** True when `n` is held in the state before each request of the run and in
      the final state. */
  ghost predicate HeldThroughout(s: StoreState, reqs: seq<Request>, n: string)
    decreases |reqs|
  {
    n in s.inventory && (reqs == [] || HeldThroughout(Next(s, reqs[0]), reqs[1..], n))
  }

  /** The price of an item is the one it was first stored at for as long as
      it stays in the inventory, whatever sales and purchases happen meanwhile. */
  lemma {:induction false} RunKeepsPriceWhileHeld(s: StoreState, reqs: seq<Request>, n: string)
    requires HeldThroughout(s, reqs, n)
    ensures n in Run(s, reqs).inventory
    ensures Run(s, reqs).inventory[n].price == s.inventory[n].price
    decreases |reqs|
  {
    if reqs != [] {
      var t := Next(s, reqs[0]);
      assert n in t.inventory;
      NextKeepsPrice(s, reqs[0], n);
      RunKeepsPriceWhileHeld(t, reqs[1..], n);
    }
  }

  /** With a balance of 25000, buying 300 units at 100 costs 30000 and is
      refused; the balance stays at 25000. */
  lemma OverspendRefused(time: string)
    ensures PurchaseOutcome(Load(None), "widget", 100.0, 300, time) == Rejected(NotEnoughMoney("widget"))
    ensures Next(Load(None), PurchasePost("widget", 100.0, 300, time)).balance == 25000.0
  {
  }

  /** Buying 5 widgets at 10 and selling all 5 at 12 takes the balance from 25000
      to 24950 and then 25010, leaves no widget entry and one sales record of 60. */
  lemma BuyThenSellOut(t1: string, t2: string)
    ensures var s1 := Next(Load(None), PurchasePost("widget", 10.0, 5, t1));
      && s1.balance == 24950.0 && s1.inventory == map["widget" := Item(10.0, 5)]
      && var s2 := Next(s1, SalesPost("widget", 12.0, 5, t2));
      && s2.balance == 25010.0 && "widget" !in s2.inventory
      && s2.sales == [Record("widget", 12.0, 5, 60.0, t2)]
  {
  }
}
