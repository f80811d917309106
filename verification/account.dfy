/**
 A single bank account's two primitives, on its balance alone.

 Debit checks for sufficient funds before subtracting; credit adds
 unconditionally. Neither rejects a non-positive amount: that check
 happens only in the gateway's validation.
 */
module Account {

  /** What a debit reports, and the balance it leaves behind. */
  datatype Debited = Debited(ok: bool, balance: real)

  /** Takes `amount` from `balance` when the funds suffice; otherwise changes nothing. */
  function Debit(balance: real, amount: real): (r: Debited)
    ensures r.ok <==> amount <= balance
    ensures r.ok ==> r.balance == balance - amount
    ensures !r.ok ==> r.balance == balance
    ensures balance >= 0.0 ==> r.balance >= 0.0
    ensures r.ok ==> Credit(r.balance, amount) == balance
  {
    if balance < amount then Debited(false, balance)
    else Debited(true, balance - amount)
  }

  /** Adds `amount` to `balance`, with no check of any kind. */
  function Credit(balance: real, amount: real): (r: real)
    ensures r - balance == amount
    ensures amount >= 0.0 ==> r >= balance
  {
    balance + amount
  }

  /**
   On a non-negative balance, a credit is undone by a debit of the same
   amount, which cannot be refused. (On a negative balance it can be.)
   */
  lemma DebitUndoesCredit(balance: real, amount: real)
    requires balance >= 0.0
    ensures Debit(Credit(balance, amount), amount) == Debited(true, balance)
  {
  }
}
