# Store accounting core

A model of the domain state of a small single-tenant store-management web
application. The store keeps:
- an inventory that maps a lower-case item name to a unit price and a quantity on hand;
- an account balance, 25000 at first;
- two append-only histories of timestamped records, one of sales and one of purchases.

Three POST handlers change that state:
- the balance page adds to or subtracts from the balance;
- the sales page sells stock from the inventory;
- the purchase page buys stock into it.

The balance page always writes the whole state to a JSON data file afterwards.
The sales and purchase pages write it only after a sale or purchase that is
accepted; a refused one writes nothing.

At start-up the state is loaded from that file, key by key, with a default for each
missing key.

Files:
- `text.dfy` (module `Text`) models ASCII lower-casing, which the handlers apply to
  item names and to balance commands.
- `domain.dfy` (module `Domain`) holds the state as values. It has one function per
  handler (`BalanceUpdate`, `SaleOutcome`, `PurchaseOutcome`), whose contracts state
  the accept and reject rules and the exact before/after relation. It also has the
  load and save of the data file, and `Run`, which serves a sequence of requests.
- `properties.dfy` (module `Properties`) proves what holds over any sequence of
  requests:
  - the histories only grow;
  - the balance equals the starting balance, plus the sales totals, less the
    purchase totals, plus the balance edits;
  - each item's stock equals what was bought of it less what was sold of it;
  - stock stays positive while every purchase brings stock in;
  - buying an item again never changes its stored price: the price stays the one it
    was first stored at for as long as the item stays in the inventory.

  It also proves the two worked scenarios.
- `service.dfy` (module `Service`) has the class `Store`. Its fields are the
  application's four globals, and its methods update those fields in place the way
  the handlers do. Each method is proved to reach the state that the matching
  `Domain` function gives. Saving the data file is modelled by two ghost fields:
  - `disk` is what the file holds;
  - `saves` is every snapshot written, oldest first.

  So the contracts say exactly when a save happens.

Money (prices, totals, balance) is an exact `real`. Quantities and amounts are
unbounded integers.

No handler checks its inputs, and the model keeps that:
- Purchases accept any quantity, including zero or negative ones (main.py:102-111).
- A purchase of quantity 0 of a new item stores an entry with zero stock (main.py:111).
  Only a sale removes a zero-stock entry (main.py:87-88).
- A sale record carries the price given with the sale, not the stored price (main.py:68, 78-84).

`Properties.RunKeepsAllStocked` therefore takes positive purchase quantities as a
hypothesis.

## Model

| member | source | states |
|---|---|---|
| Text.Lower | main.py:67 | ASCII `lower()`: same length, each character lower-cased, no upper-case letter left, a lower-case string is unchanged (so lower-casing is idempotent) |
| Domain.Load | main.py:29-37 | no data file gives an empty inventory, balance 25000 and empty histories; with a file each key present is taken and each missing key defaults independently |
| Domain.Save | main.py:18-26 | a save writes all four keys, and loading what was saved gives back exactly the saved state |
| Domain.BalanceUpdate | main.py:51-58 | the command is lower-cased; "add" raises the balance by exactly `amount`, "subtract" lowers it by exactly `amount`, any other command changes nothing; inventory and histories never change |
| Domain.SaleOutcome | main.py:66-88 | accepted iff the lower-cased item is held and `quantity` is at most its stock; an unknown item gives NotAvailable, an oversell NotEnoughStock; on acceptance the stock drops by `quantity`, the balance rises by `quantity * price`, exactly one record with total `quantity * price` is appended to sales, purchases and all other items are untouched, the item is absent afterwards iff its stock reached 0, and a surviving entry has positive stock |
| Domain.PurchaseOutcome | main.py:99-119 | refused (NotEnoughMoney) iff `price * quantity` exceeds the balance; on acceptance the balance falls by exactly that cost and is non-negative afterwards, an item already held keeps its stored price and gains `quantity`, a new item is stored with the given price and quantity, exactly one record is appended to purchases, sales and other items are untouched |
| Service.Store.constructor | main.py:12-40 | the object starts in the state `Load` gives for the data file found, and nothing is written |
| Service.Store.SaveData | main.py:18-26 | the data file is overwritten with the full current state, and the snapshot is logged |
| Service.Store.AdjustBalance | main.py:49-59 | the fields reach `BalanceUpdate` of the old state; the state is saved even when the command is not recognised; the returned balance is the new one |
| Service.Store.Sell | main.py:63-92 | a refused sale leaves every field and the data file unchanged and returns its error; an accepted one reaches `SaleOutcome`'s next state and saves it once |
| Service.Store.Purchase | main.py:96-122 | a refused purchase leaves every field and the data file unchanged and returns NotEnoughMoney; an accepted one reaches `PurchaseOutcome`'s next state and saves it once |
| Service.UnrecognisedCommandStillSaves | main.py:54-58 | for any store, a balance command that is neither "add" nor "subtract" after lower-casing leaves the whole state unchanged, yet one more snapshot is written to the data file |
| Properties.RunAppendsOnly | main.py:78-113 | across any sequence of requests both histories keep every earlier entry as a prefix |
| Properties.RunKeepsCapital | main.py:55-112 | across any sequence of requests, balance less sales totals plus purchase totals changes only by the net amount of the balance edits |
| Properties.RunKeepsStockBase | main.py:76-111 | across any sequence of requests, each item's stock changes only by what the new purchase records add and the new sales records take, deletion of an emptied entry counting as zero stock |
| Properties.FreshStoreAccounts | main.py:12-15 | from the defaults, the balance is 25000 plus sales totals, less purchase totals, plus balance edits, and each item's stock is what was bought less what was sold |
| Properties.RunKeepsAllStocked | main.py:73-111 | if every stored stock is positive and every purchase brings a positive quantity, every stored stock stays positive; a sale served on its own never leaves a zero or negative entry |
| Properties.RunKeepsPrice | main.py:108-111 | an item held at the start of a run that sells none of it stays held at its original price, however often it is bought again and at whatever price |
| Properties.RunKeepsPriceWhileHeld | main.py:76-111 | across any sequence of requests during which an item stays held, its stored price stays the one it had at the start, through partial sales and purchases at other prices |
| Properties.OverspendRefused | main.py:103-106 | with balance 25000, buying 300 at 100 is refused with NotEnoughMoney and the balance stays 25000 |
| Properties.BuyThenSellOut | main.py:76-112 | buying 5 widgets at 10 and then selling 5 at 12 takes the balance 25000 to 24950 to 25010, removes the widget entry and logs one sale of total 60 |

## Left out

- Concurrent requests are not modelled. The application starts Flask's development server (main.py:131-132), which serves each request on its own thread, and nothing locks the module-level state. Two sales of the same item can both pass the stock check (main.py:73) before either lowers the stock (main.py:76). The stock can then go negative, or the second sale fails on an entry the first already deleted (main.py:88). The `+=`/`-=` updates (main.py:55, 57, 77, 112) can also lose an update. `Domain.Run` serves requests one at a time. So the model, and Properties.RunKeepsCapital, Properties.RunKeepsStockBase, Properties.RunKeepsAllStocked and Properties.RunKeepsPriceWhileHeld, hold only when requests are served one at a time.
- The web layer is not modelled: routing, reading the form fields with their type coercion and the `amount` default of 0, and rendering templates. The operations take already-parsed arguments, so a price and a quantity are always numbers.
- Service.Store.Sell: does not model a sale whose price field is missing or not a number. In the program `price` is then None (main.py:68). If the item is held and in stock, main.py:76 lowers the stock in place, and then main.py:77 raises on `quantity * price`. The balance, the sales history and any emptied entry are left as they were, and nothing is saved; the lowered stock stays in memory and the next save writes it. Domain.SaleOutcome, Properties.RunKeepsStockBase and Properties.RunKeepsAllStocked likewise hold only for sales with a numeric price: in the program this partial update moves stock without a sales record and can leave a zero-stock entry. A missing quantity (main.py:73) and a missing purchase price or quantity (main.py:103) raise before anything changes.
- The GET pages for the inventory, the balance and the history only render fields of the state. They are not separate members; the class exposes those fields.
- JSON file I/O is not modelled (`open`, `json.dump`, `json.load`, `os.path.exists`). A save is the ghost `disk`/`saves` update, and a load is `Load` applied to an optional file with optional keys. A malformed file, which makes start-up raise, is not modelled.
- The clock is not modelled. The timestamp is passed in as an opaque string.
- Floating point is not modelled. Prices, totals and the balance are exact reals, so rounding drift and float comparison quirks are not captured.
- Text.Lower: models lower-casing of ASCII letters only. Python's `str.lower()` also maps non-ASCII letters.
- The error messages are not modelled. This includes the `capitalize()` in "is not available". Errors are a datatype that carries the lower-cased item name.
- In-place mutation of a shared item dictionary is not modelled. Items are values, and nothing aliases an inventory entry.
