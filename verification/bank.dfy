/**
 A bank's processing step around the account primitives.

 A bank is handed the account directly and never consults its own table
 of accounts, so which bank processes a request makes no difference; the
 model names the account by id in the ledger.
 */
module Bank {
  import opened Ledger
  import Account

  /** What a bank reports, and the ledger it leaves behind. */
  datatype Reply = Reply(ok: bool, ledger: Ledger)

  /**
   How the payee's bank behaves on a credit request. `AlwaysCredits` is
   `Bank::processCredit`, which applies the credit and reports success;
   `RefusesCredit` reports failure without touching any balance;
   `CreditsThenFails` applies the credit and then reports failure.
   */
  datatype CreditMode = AlwaysCredits | RefusesCredit | CreditsThenFails

  /** Debits account `acc` through the bank, forwarding the account's verdict. */
  function ProcessDebit(ledger: Ledger, acc: AccountId, amount: real): (r: Reply)
    requires acc in ledger
    ensures r.ok <==> amount <= ledger[acc]
    ensures r.ok ==> SameExcept(ledger, r.ledger, acc) && r.ledger[acc] == ledger[acc] - amount
    ensures !r.ok ==> r.ledger == ledger
  {
    var d := Account.Debit(ledger[acc], amount);
    if d.ok then Reply(true, ledger[acc := d.balance])
    else Reply(false, ledger)
  }

  /** Credits account `acc` through the bank; it always reports success. */
  function ProcessCredit(ledger: Ledger, acc: AccountId, amount: real): (r: Reply)
    requires acc in ledger
    ensures r.ok
    ensures Raised(ledger, r.ledger, acc, amount)
  {
    Reply(true, ledger[acc := Account.Credit(ledger[acc], amount)])
  }

  /** A credit request to a payee's bank that behaves as `mode` says. */
  function ProcessCreditAs(mode: CreditMode, ledger: Ledger, acc: AccountId, amount: real): (r: Reply)
    requires acc in ledger
    ensures r.ok <==> mode == AlwaysCredits
    ensures mode != RefusesCredit ==> Raised(ledger, r.ledger, acc, amount)
    ensures mode == RefusesCredit ==> r.ledger == ledger
  {
    match mode
    case AlwaysCredits => ProcessCredit(ledger, acc, amount)
    case RefusesCredit => Reply(false, ledger)
    case CreditsThenFails => Reply(false, ProcessCredit(ledger, acc, amount).ledger)
  }
}
