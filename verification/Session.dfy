/** The database session the services work on: one field per table, updated in place. */
module Session {
  import L = LedgerModel
  import S = StockModel
  import D = DocumentJournals
  import B = BooksModel
  import R = ReceivablesModel
  import T = BankTables
  import BankReconciliation

  class Session {
    var accounts: seq<L.Account>
    var periods: seq<L.Period>
    var journals: seq<L.Journal>
    var balances: map<nat, L.Balance>
    var periodBalances: map<nat, map<nat, L.Balance>>

    const items: seq<S.Item>
    const locations: set<nat>
    var stock: map<S.Key, S.Stock>
    var movements: seq<S.Movement>

    const settings: D.Settings
    var bills: seq<B.Bill>
    var invoices: seq<R.Invoice>
    var notes: seq<R.Note>
    var payments: seq<R.Payment>
    var allocations: seq<R.Allocation>
    var applications: seq<R.Application>

    var bankAccounts: seq<nat>
    var bankTransactions: seq<T.BankTransaction>

    constructor (items: seq<S.Item>, locations: set<nat>, settings: D.Settings)
      ensures this.settings == settings
      ensures Receivables() == R.State(B.Books(L.EMPTY, S.Inventory(items, locations, map[], []), []), [], [], [], [], [])
      ensures Bank() == BankReconciliation.Bank(L.EMPTY, [], [])
    {
      this.items, this.locations, this.settings := items, locations, settings;
      accounts, periods, journals, balances, periodBalances := [], [], [], map[], map[];
      stock, movements := map[], [];
      bills := [];
      invoices, notes, payments, allocations, applications := [], [], [], [], [];
      bankAccounts, bankTransactions := [], [];
    }

    ghost function Ledger(): L.State
      reads this
    {
      L.State(accounts, periods, journals, balances, periodBalances)
    }

    ghost function Inventory(): S.Inventory
      reads this
    {
      S.Inventory(items, locations, stock, movements)
    }

    ghost function Books(): B.Books
      reads this
    {
      B.Books(Ledger(), Inventory(), bills)
    }

    ghost function Receivables(): R.State
      reads this
    {
      R.State(Books(), invoices, notes, payments, allocations, applications)
    }

    ghost function Bank(): BankReconciliation.Bank
      reads this
    {
      BankReconciliation.Bank(Ledger(), bankAccounts, bankTransactions)
    }
  }
}
