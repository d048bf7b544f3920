/** The store's domain state and what each handler does to it, as values.
    Money (unit prices, totals and the account balance) is exact `real`;
    quantities are unbounded integers that nobody checks for sign. */
module Domain {
  import opened Text

  datatype Option<T> = None | Some(value: T)

  /** An inventory entry: the unit price and the stock on hand. */
  datatype Item = Item(price: real, quantity: int)

  /** One entry of the sales or the purchase history. */
  datatype Record = Record(item: string, price: real, quantity: int, total: real, time: string)

  /** Everything the store keeps and saves: the inventory keyed by lower-case
      item name, the account balance and the two histories, oldest first. */
  datatype StoreState = StoreState(
    inventory: map<string, Item>,
    balance: real,
    sales: seq<Record>,
    purchases: seq<Record>)

  /** Why a sale or a purchase is refused; each names the lower-cased item. */
  datatype StoreError =
    | NotAvailable(item: string)    // sale of an item the inventory does not hold
    | NotEnoughStock(item: string)  // sale of more than is on hand
    | NotEnoughMoney(item: string)  // purchase that costs more than the balance

  /** A sale or a purchase either yields the next state or is refused, in which
      case the state is left as it was. */
  datatype Outcome = Accepted(next: StoreState) | Rejected(error: StoreError)

  /** The account balance of a store that has no saved data. */
  const InitialBalance: real := 25000.0

  /** The contents of the data file: each of its four keys may be missing. */
  datatype DataFile = DataFile(
    inventory: Option<map<string, Item>>,
    accountBalance: Option<real>,
    salesHistory: Option<seq<Record>>,
    purchaseHistory: Option<seq<Record>>)

  function GetOr<T>(o: Option<T>, default: T): T {
    match o
    case Some(v) => v
    case None => default
  }

  /** Start-up: with no data file the store is empty with the initial balance;
      with one, each key that is present is taken and each missing key falls
      back to its own default, independently of the others. */
  function Load(file: Option<DataFile>): (s: StoreState)
    ensures file.None? ==> s == StoreState(map[], InitialBalance, [], [])
    ensures file.Some? ==>
      && (file.value.inventory.Some? ==> s.inventory == file.value.inventory.value)
      && (file.value.inventory.None? ==> s.inventory == map[])
      && (file.value.accountBalance.Some? ==> s.balance == file.value.accountBalance.value)
      && (file.value.accountBalance.None? ==> s.balance == InitialBalance)
      && (file.value.salesHistory.Some? ==> s.sales == file.value.salesHistory.value)
      && (file.value.salesHistory.None? ==> s.sales == [])
      && (file.value.purchaseHistory.Some? ==> s.purchases == file.value.purchaseHistory.value)
      && (file.value.purchaseHistory.None? ==> s.purchases == [])
  {
    match file
    case None => StoreState(map[], InitialBalance, [], [])
    case Some(f) =>
      StoreState(GetOr(f.inventory, map[]), GetOr(f.accountBalance, InitialBalance),
                 GetOr(f.salesHistory, []), GetOr(f.purchaseHistory, []))
  }

  /** What a save writes: all four keys. Loading what was saved gives back the
      state that was saved, whatever that state is. */
  function Save(s: StoreState): (f: DataFile)
    ensures f.inventory.Some? && f.accountBalance.Some?
    ensures f.salesHistory.Some? && f.purchaseHistory.Some?
    ensures Load(Some(f)) == s
  {
    DataFile(Some(s.inventory), Some(s.balance), Some(s.sales), Some(s.purchases))
  }

  /** A POST to the balance page. The command is lower-cased; "add" raises the
      balance by exactly `amount`, "subtract" lowers it by exactly `amount`
      (with no floor), and any other command leaves it as it is. Nothing but
      the balance ever changes. */
  function BalanceUpdate(s: StoreState, command: string, amount: int): (t: StoreState)
    ensures Lower(command) == "add" ==> t.balance == s.balance + amount as real
    ensures Lower(command) == "subtract" ==> t.balance == s.balance - amount as real
    ensures Lower(command) != "add" && Lower(command) != "subtract" ==> t == s
    ensures t.inventory == s.inventory && t.sales == s.sales && t.purchases == s.purchases
  {
    var c := Lower(command);
    if c == "add" then s.(balance := s.balance + amount as real)
    else if c == "subtract" then s.(balance := s.balance - amount as real)
    else s
  }

  /** The effects of a sale of `quantity` units of `n` at `price` that was let through. */
  ghost predicate SoldEffects(s: StoreState, t: StoreState, n: string, price: real, quantity: int, time: string)
    requires n in s.inventory
  {
    var left := s.inventory[n].quantity - quantity;
    && t.balance == s.balance + quantity as real * price
    && t.sales == s.sales + [Record(n, price, quantity, quantity as real * price, time)]
    && t.purchases == s.purchases
    && (n in t.inventory <==> left != 0)
    && (n in t.inventory ==> t.inventory[n] == Item(s.inventory[n].price, left))
    && t.inventory - {n} == s.inventory - {n}
  }

  /** A POST to the sales page. The item name is lower-cased. The sale is
      refused when the item is not in the inventory, or when more is asked for
      than is on hand; otherwise the stock drops by `quantity`, the balance
      rises by `quantity * price`, one record is appended to the sales history,
      and the item is dropped from the inventory exactly when its stock reaches
      zero. An entry that survives a sale has positive stock. */
  function SaleOutcome(s: StoreState, itemName: string, price: real, quantity: int, time: string): (r: Outcome)
    ensures var n := Lower(itemName);
      && (r.Accepted? <==> n in s.inventory && quantity <= s.inventory[n].quantity)
      && (n !in s.inventory ==> r == Rejected(NotAvailable(n)))
      && (n in s.inventory && quantity > s.inventory[n].quantity ==> r == Rejected(NotEnoughStock(n)))
      && (r.Accepted? ==> SoldEffects(s, r.next, n, price, quantity, time))
      && (r.Accepted? && n in r.next.inventory ==> r.next.inventory[n].quantity > 0)
  {
    var n := Lower(itemName);
    if n !in s.inventory then Rejected(NotAvailable(n))
    else if quantity > s.inventory[n].quantity then Rejected(NotEnoughStock(n))
    else
      var left := s.inventory[n].quantity - quantity;
      var inv := s.inventory[n := s.inventory[n].(quantity := left)];
      Accepted(StoreState(
        if left == 0 then inv - {n} else inv,
        s.balance + quantity as real * price,
        s.sales + [Record(n, price, quantity, quantity as real * price, time)],
        s.purchases))
  }

  /** The effects of a purchase of `quantity` units of `n` at `price` that was let through. */
  ghost predicate PurchasedEffects(s: StoreState, t: StoreState, n: string, price: real, quantity: int, time: string)
  {
    var cost := price * quantity as real;
    && t.balance == s.balance - cost
    && t.purchases == s.purchases + [Record(n, price, quantity, cost, time)]
    && t.sales == s.sales
    && n in t.inventory
    && (n in s.inventory ==> t.inventory[n] == Item(s.inventory[n].price, s.inventory[n].quantity + quantity))
    && (n !in s.inventory ==> t.inventory[n] == Item(price, quantity))
    && t.inventory - {n} == s.inventory - {n}
  }

  /** A POST to the purchase page. The item name is lower-cased. The purchase is
      refused exactly when `price * quantity` exceeds the balance; otherwise the
      balance falls by that cost (so it stays non-negative), one record is
      appended to the purchase history, an item already held keeps its stored
      price and gains `quantity`, and a new item is stored at `price`. */
  function PurchaseOutcome(s: StoreState, itemName: string, price: real, quantity: int, time: string): (r: Outcome)
    ensures var n := Lower(itemName);
      && (r.Rejected? <==> price * quantity as real > s.balance)
      && (r.Rejected? ==> r.error == NotEnoughMoney(n))
      && (r.Accepted? ==> PurchasedEffects(s, r.next, n, price, quantity, time))
      && (r.Accepted? ==> r.next.balance >= 0.0)
  {
    var n := Lower(itemName);
    var cost := price * quantity as real;
    if cost > s.balance then Rejected(NotEnoughMoney(n))
    else
      var item := if n in s.inventory then s.inventory[n].(quantity := s.inventory[n].quantity + quantity)
                  else Item(price, quantity);
      Accepted(StoreState(
        s.inventory[n := item],
        s.balance - cost,
        s.sales,
        s.purchases + [Record(n, price, quantity, cost, time)]))
  }

  /** One POST to one of the three pages that change state. */
  datatype Request =
    | BalancePost(command: string, amount: int)
    | SalesPost(itemName: string, price: real, quantity: int, time: string)
    | PurchasePost(itemName: string, price: real, quantity: int, time: string)

  /** The state after one request: a refused sale or purchase leaves it as it was. */
  function Next(s: StoreState, req: Request): StoreState {
    match req
    case BalancePost(c, a) => BalanceUpdate(s, c, a)
    case SalesPost(i, p, q, t) =>
      (match SaleOutcome(s, i, p, q, t) case Accepted(u) => u case Rejected(_) => s)
    case PurchasePost(i, p, q, t) =>
      (match PurchaseOutcome(s, i, p, q, t) case Accepted(u) => u case Rejected(_) => s)
  }

  /** The state after serving the requests one at a time, in order. */
  function Run(s: StoreState, reqs: seq<Request>): StoreState
    decreases |reqs|
  {
    if reqs == [] then s else Run(Next(s, reqs[0]), reqs[1..])
  }
}
