/** The bank transaction table, shared by statement import and reconciliation. */
module BankTables {
  import opened Wrappers

  datatype TransactionType = Deposit | Withdrawal
  datatype TransactionStatus = Unreconciled | Reconciled

  /** A reference column's text: either "dup:" and a digest, or anything else. */
  datatype Reference = Dup(digest: string) | Plain(text: string)

  /** Taxable, tax and gross amount of a transaction coded for tax. */
  datatype TaxFigures = TaxFigures(taxable: int, tax: int, gross: int)

  datatype BankTransaction = BankTransaction(
    bankAccount: nat, date: string, postedDate: Option<string>, kind: TransactionType, amount: int, description: string,
    reference: Option<Reference>, memo: Option<string>, target: Option<nat>, taxCode: Option<nat>, figures: Option<TaxFigures>,
    status: TransactionStatus, matched: Option<nat>, sourceModule: string, sourceType: string)
}
