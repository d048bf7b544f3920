/** The store as the running program holds it: one object whose fields the
    handlers update in place, and that writes its whole state to the data file
    after each change. */
module Service {
  import opened Text
  import opened Domain

  class Store {
    var inventory: map<string, Item>
    var accountBalance: real
    var salesHistory: seq<Record>
    var purchaseHistory: seq<Record>

    /** What the data file holds: the file found at start-up, then the last save. */
    ghost var disk: Option<DataFile>
    /** Every snapshot written by a save, oldest first. */
    ghost var saves: seq<DataFile>

    /** The current state as a value. */
    function State(): StoreState
      reads this
    {
      StoreState(inventory, accountBalance, salesHistory, purchaseHistory)
    }

    /** Start-up: the defaults, each overridden by the data file's key when the
        file exists and has it. Nothing is written. */
    constructor (file: Option<DataFile>)
      ensures State() == Load(file)
      ensures disk == file && saves == []
    {
      inventory := map[];
      accountBalance := InitialBalance;
      salesHistory := [];
      purchaseHistory := [];
      disk := file;
      saves := [];
      new;
      if file.Some? {
        inventory := GetOr(file.value.inventory, map[]);
        accountBalance := GetOr(file.value.accountBalance, InitialBalance);
        salesHistory := GetOr(file.value.salesHistory, []);
        purchaseHistory := GetOr(file.value.purchaseHistory, []);
      }
    }

    /** Overwrites the data file with the whole current state. */
    method SaveData()
      modifies this`disk, this`saves
      ensures disk == Some(Save(State()))
      ensures saves == old(saves) + [Save(State())]
    {
      disk := Some(Save(State()));
      saves := saves + [Save(State())];
    }

    /** The balance page's POST: applies the command and saves, even when the
        command is not recognised and nothing changed. Returns the balance shown. */
    method AdjustBalance(command: string, amount: int) returns (balance: real)
      modifies this
      ensures State() == BalanceUpdate(old(State()), command, amount)
      ensures balance == accountBalance
      ensures disk == Some(Save(State()))
      ensures saves == old(saves) + [Save(State())]
    {
      var c := Lower(command);
      if c == "add" {
        accountBalance := accountBalance + amount as real;
      } else if c == "subtract" {
        accountBalance := accountBalance - amount as real;
      }
      SaveData();
      balance := accountBalance;
    }

    /** The sales page's POST. A refused sale changes nothing and saves nothing;
        an accepted one moves to the state `SaleOutcome` gives and saves it. */
    method Sell(itemName: string, price: real, quantity: int, time: string) returns (error: Option<StoreError>)
      modifies this
      ensures var r := SaleOutcome(old(State()), itemName, price, quantity, time);
        && (r.Rejected? ==> error == Some(r.error) && State() == old(State()))
        && (r.Rejected? ==> disk == old(disk) && saves == old(saves))
        && (r.Accepted? ==> error == None && State() == r.next)
        && (r.Accepted? ==> disk == Some(Save(State())) && saves == old(saves) + [Save(State())])
    {
      var name := Lower(itemName);
      if name !in inventory {
        error := Some(NotAvailable(name));
      } else if quantity > inventory[name].quantity {
        error := Some(NotEnoughStock(name));
      } else {
        inventory := inventory[name := inventory[name].(quantity := inventory[name].quantity - quantity)];
        accountBalance := accountBalance + quantity as real * price;
        salesHistory := salesHistory + [Record(name, price, quantity, quantity as real * price, time)];
        if inventory[name].quantity == 0 {
          inventory := inventory - {name};
        }
        SaveData();
        error := None;
      }
    }

    /** The purchase page's POST. A refused purchase changes nothing and saves
        nothing; an accepted one moves to the state `PurchaseOutcome` gives and
        saves it. */
    method Purchase(itemName: string, price: real, quantity: int, time: string) returns (error: Option<StoreError>)
      modifies this
      ensures var r := PurchaseOutcome(old(State()), itemName, price, quantity, time);
        && (r.Rejected? ==> error == Some(r.error) && State() == old(State()))
        && (r.Rejected? ==> disk == old(disk) && saves == old(saves))
        && (r.Accepted? ==> error == None && State() == r.next)
        && (r.Accepted? ==> disk == Some(Save(State())) && saves == old(saves) + [Save(State())])
    {
      var name := Lower(itemName);
      var totalCost := price * quantity as real;
      if totalCost > accountBalance {
        error := Some(NotEnoughMoney(name));
      } else {
        if name in inventory {
          inventory := inventory[name := inventory[name].(quantity := inventory[name].quantity + quantity)];
        } else {
          inventory := inventory[name := Item(price, quantity)];
        }
        accountBalance := accountBalance - totalCost;
        purchaseHistory := purchaseHistory + [Record(name, price, quantity, totalCost, time)];
        SaveData();
        error := None;
      }
    }
  }

  /** A balance command that is neither "add" nor "subtract" (in any case)
      leaves the whole state as it was, and the state is still written to the
      data file once more. */
  method UnrecognisedCommandStillSaves(store: Store, command: string, amount: int) returns (balance: real)
    requires Lower(command) != "add" && Lower(command) != "subtract"
    modifies store
    ensures store.State() == old(store.State()) && balance == store.accountBalance
    ensures store.saves == old(store.saves) + [Save(store.State())]
    ensures store.disk == Some(Save(store.State()))
  {
    balance := store.AdjustBalance(command, amount);
  }
}
