/**
 The two front doors that forward a payment request to the gateway: the
 payment manager and a user initiating a payment. Both discard the
 gateway's verdict, so only the resulting ledger is observable.
 */
module Manager {
  import opened Ledger
  import opened Users
  import Gateway

  /** The payment manager's request: forwards to the gateway and drops the verdict. */
  function InitiatePayment(ledger: Ledger, payer: UserRef, payee: UserRef, amount: real): (r: Ledger)
    requires Gateway.Resolvable(ledger, payer, payee, amount)
    ensures Gateway.ValidateUsers(payer, payee, amount) && amount <= ledger[payer.user.account] ==>
              Moved(ledger, r, payer.user.account, payee.user.account, amount)
    ensures !Gateway.ValidateUsers(payer, payee, amount) || ledger[payer.user.account] < amount ==>
              r == ledger
  {
    Gateway.ProcessPayment(ledger, payer, payee, amount).ledger
  }

  /**
   A user paying another user. The payer is the user itself and the payee
   is dereferenced for the log line before the gateway is called, so
   neither can be null here.
   */
  function UserInitiatePayment(ledger: Ledger, payer: User, payee: User, amount: real): (r: Ledger)
    requires amount > 0.0 ==> payer.account in ledger && payee.account in ledger
    ensures amount > 0.0 && amount <= ledger[payer.account] ==>
              Moved(ledger, r, payer.account, payee.account, amount)
    ensures amount <= 0.0 || ledger[payer.account] < amount ==> r == ledger
  {
    Gateway.ProcessPayment(ledger, Ref(payer), Ref(payee), amount).ledger
  }
}
