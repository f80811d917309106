/**
 The payment gateway: validate the request, debit the payer, credit the
 payee, and refund the payer when the credit reports failure.
 */
module Gateway {
  import opened Ledger
  import opened Users
  import Account
  import Bank

  /** Which way a payment attempt ended. */
  datatype Outcome =
    | Rejected       // validation failed; no bank was asked anything
    | DebitDeclined  // the payer's bank refused the debit
    | Paid           // both legs went through
    | Refunded       // the credit leg failed and the payer was credited back

  /** An ended attempt and the ledger it leaves behind. */
  datatype Attempt = Attempt(outcome: Outcome, ledger: Ledger)

  /** Rejects a null payer or payee and a non-positive amount; nothing else. */
  function ValidateUsers(payer: UserRef, payee: UserRef, amount: real): (ok: bool)
    ensures ok ==> payer.Ref? && payee.Ref? && amount > 0.0
    ensures payer.Null? || payee.Null? || amount <= 0.0 ==> !ok
  {
    if payer.Null? || payee.Null? then false
    else if amount <= 0.0 then false
    else true
  }

  /**
   What the gateway needs of its caller: once a request passes validation
   both users' accounts are dereferenced, so they must exist.
   */
  predicate Resolvable(ledger: Ledger, payer: UserRef, payee: UserRef, amount: real)
  {
    ValidateUsers(payer, payee, amount) ==>
      payer.user.account in ledger && payee.user.account in ledger
  }

  /**
   The payment protocol with the payee's bank behaving as `mode` says.
   The payer and payee may share an account: nothing here rejects that.
   */
  function Run(mode: Bank.CreditMode, ledger: Ledger, payer: UserRef, payee: UserRef, amount: real): (r: Attempt)
    requires Resolvable(ledger, payer, payee, amount)
    ensures r.outcome == Rejected <==> !ValidateUsers(payer, payee, amount)
    ensures r.outcome == DebitDeclined <==>
              ValidateUsers(payer, payee, amount) && ledger[payer.user.account] < amount
    ensures r.outcome == Rejected || r.outcome == DebitDeclined ==> r.ledger == ledger
    ensures r.outcome == Paid ==>
              Moved(ledger, r.ledger, payer.user.account, payee.user.account, amount)
    ensures r.outcome == Refunded && mode == Bank.RefusesCredit ==> r.ledger == ledger
    ensures r.outcome == Refunded && mode == Bank.CreditsThenFails ==>
              Raised(ledger, r.ledger, payee.user.account, amount)
    ensures mode == Bank.AlwaysCredits ==> r.outcome != Refunded
    ensures mode != Bank.AlwaysCredits ==> r.outcome != Paid
  {
    if !ValidateUsers(payer, payee, amount) then Attempt(Rejected, ledger)
    else
      var from := payer.user.account;
      var to := payee.user.account;
      var debit := Bank.ProcessDebit(ledger, from, amount);
      if !debit.ok then Attempt(DebitDeclined, debit.ledger)
      else
        var credit := Bank.ProcessCreditAs(mode, debit.ledger, to, amount);
        if !credit.ok then
          // The refund goes to the payer's account directly, not through a bank.
          var refunded := credit.ledger[from := Account.Credit(credit.ledger[from], amount)];
          assert mode == Bank.RefusesCredit ==> refunded == ledger;
          Attempt(Refunded, refunded)
        else
          Attempt(Paid, credit.ledger)
  }

  /**
   `PaymentGateway::processPayment`, with `Bank::processCredit` as the
   credit leg, which always applies the credit and reports success.
   Reports success exactly when the request is valid and the payer can
   afford it; on success the amount has moved from payer to payee and on
   failure nothing has changed.
   */
  function ProcessPayment(ledger: Ledger, payer: UserRef, payee: UserRef, amount: real): (r: Bank.Reply)
    requires Resolvable(ledger, payer, payee, amount)
    ensures r.ok <==>
              ValidateUsers(payer, payee, amount) && amount <= ledger[payer.user.account]
    ensures r.ok ==> Moved(ledger, r.ledger, payer.user.account, payee.user.account, amount)
    ensures !r.ok ==> r.ledger == ledger
    ensures NonNegative(ledger) ==> NonNegative(r.ledger)
  {
    var a := Run(Bank.AlwaysCredits, ledger, payer, payee, amount);
    Bank.Reply(a.outcome == Paid, a.ledger)
  }

  /** Since `Bank::processCredit` always reports success, the refund branch is never taken. */
  lemma RefundUnreachable(ledger: Ledger, payer: UserRef, payee: UserRef, amount: real)
    requires Resolvable(ledger, payer, payee, amount)
    ensures Run(Bank.AlwaysCredits, ledger, payer, payee, amount).outcome != Refunded
  {
  }

  /**
   When the payee's bank refuses the credit, without touching any balance,
   after the debit went through, the payer is credited back to its balance
   before the call, the payee is untouched, and the payment reports failure.
   */
  lemma RefundRestores(ledger: Ledger, payer: UserRef, payee: UserRef, amount: real)
    requires Resolvable(ledger, payer, payee, amount)
    requires ValidateUsers(payer, payee, amount)
    requires amount <= ledger[payer.user.account]
    ensures Run(Bank.RefusesCredit, ledger, payer, payee, amount).outcome == Refunded
    ensures Run(Bank.RefusesCredit, ledger, payer, payee, amount).ledger == ledger
  {
  }

  /**
   When the payee's bank applies the credit and then reports failure, the
   refund still credits the payer: between distinct accounts the payer is
   back at its balance before the call, but the payee keeps the credit,
   and the ledger's total has risen by the amount.
   */
  lemma RefundAfterAppliedCredit(ledger: Ledger, payer: UserRef, payee: UserRef, amount: real)
    requires Resolvable(ledger, payer, payee, amount)
    requires ValidateUsers(payer, payee, amount)
    requires amount <= ledger[payer.user.account]
    requires payer.user.account != payee.user.account
    ensures var r := Run(Bank.CreditsThenFails, ledger, payer, payee, amount);
            && r.outcome == Refunded
            && r.ledger[payer.user.account] == ledger[payer.user.account]
            && r.ledger[payee.user.account] == ledger[payee.user.account] + amount
            && Total(r.ledger) == Total(ledger) + amount
  {
    var r := Run(Bank.CreditsThenFails, ledger, payer, payee, amount);
    RaisedAddsToTotal(ledger, r.ledger, payee.user.account, amount);
  }

  /**
   With the same credit leg and a payer and payee that share an account,
   the refund leaves that account above its balance before the call.
   */
  lemma SharedAccountRefundOvercredits(ledger: Ledger, payer: UserRef, payee: UserRef, amount: real)
    requires Resolvable(ledger, payer, payee, amount)
    requires ValidateUsers(payer, payee, amount)
    requires amount <= ledger[payer.user.account]
    requires payer.user.account == payee.user.account
    ensures var r := Run(Bank.CreditsThenFails, ledger, payer, payee, amount);
            && r.outcome == Refunded
            && r.ledger[payer.user.account] == ledger[payer.user.account] + amount
  {
  }

  /**
   Every ending of a payment keeps the ledger's total, except a refund
   after a credit leg that applied the credit and then reported failure,
   which adds the amount to the total.
   */
  lemma RunTotal(mode: Bank.CreditMode, ledger: Ledger, payer: UserRef, payee: UserRef, amount: real)
    requires Resolvable(ledger, payer, payee, amount)
    ensures var r := Run(mode, ledger, payer, payee, amount);
            Total(r.ledger) == Total(ledger) +
              (if r.outcome == Refunded && mode == Bank.CreditsThenFails then amount else 0.0)
  {
    var r := Run(mode, ledger, payer, payee, amount);
    if r.outcome == Paid {
      MovedKeepsTotal(ledger, r.ledger, payer.user.account, payee.user.account, amount);
    } else if r.outcome == Refunded && mode == Bank.CreditsThenFails {
      RaisedAddsToTotal(ledger, r.ledger, payee.user.account, amount);
    }
  }

  /** A successful payment keeps the sum of the payer's and payee's balances. */
  lemma PaymentKeepsPair(ledger: Ledger, payer: UserRef, payee: UserRef, amount: real)
    requires Resolvable(ledger, payer, payee, amount)
    requires ProcessPayment(ledger, payer, payee, amount).ok
    ensures var after := ProcessPayment(ledger, payer, payee, amount).ledger;
            var from := payer.user.account;
            var to := payee.user.account;
            after[from] + after[to] == ledger[from] + ledger[to]
  {
  }

  /** Paying oneself (payer and payee share an account) succeeds and changes nothing. */
  lemma SelfPaymentChangesNothing(ledger: Ledger, payer: UserRef, payee: UserRef, amount: real)
    requires Resolvable(ledger, payer, payee, amount)
    requires ValidateUsers(payer, payee, amount)
    requires payer.user.account == payee.user.account
    requires amount <= ledger[payer.user.account]
    ensures ProcessPayment(ledger, payer, payee, amount) == Bank.Reply(true, ledger)
  {
  }
}
