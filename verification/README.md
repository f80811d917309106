# Payment gateway: a Dafny model

This project models the core of a small C++ payment gateway. A payer pays
a payee in three steps. The gateway first validates the request. It then asks
the payer's bank to debit the payer's account and the payee's bank to credit
the payee's account. If the credit reports failure, the gateway credits the
payer back. The model keeps every account balance in one immutable map from
account id to an exact `real`. Each operation is a pure function that returns
its verdict together with the new map.

Modules:

- `Ledger` (`ledger.dfy`): the balance map, its total, and the `Moved` relation. `Moved` states "amount taken from one account and given to another, nothing else changed".
- `Account` (`account.dfy`): `BankAccount::debit` and `BankAccount::credit`, on a single balance.
- `Bank` (`bank.dfy`): `Bank::processDebit` and `Bank::processCredit`. `ProcessCreditAs` generalises the credit leg to a `CreditMode`. `AlwaysCredits` is `Bank::processCredit` itself. `RefusesCredit` reports failure and touches no balance. `CreditsThenFails` applies the credit and then reports failure. The last two make the refund branch reachable, so it can be studied.
- `Users` (`users.dfy`): `User`, and `UserRef`, a user pointer that may be null.
- `Gateway` (`gateway.dfy`): `PaymentGateway::validateUsers` and `PaymentGateway::processPayment`.
- `Manager` (`manager.dfy`): `PaymentManager::initiatePayment`, and `User::initiatePayment`, which also forwards to the gateway.
- `Demo` (`demo.dfy`): the scenario in `main`, as a lemma.

Decisions:

- Pointers become ids. A user names its account by id, and an account is an entry of the ledger.
- The account's back-reference to its bank is dropped. `Bank::processDebit` and `Bank::processCredit` act on the account they are handed and never read the bank's own table, so which bank processes a leg does not matter.
- `PaymentGateway::validateUsers` (lines 118-128) accepts a payer and a payee that share an account. `Gateway.SelfPaymentChangesNothing` shows that such a payment succeeds and changes nothing when the shared account covers the amount; otherwise the debit refuses it and nothing changes.
- Every result is a boolean: success or failure.
- `BankAccount::debit` and `BankAccount::credit` accept any amount. Only `validateUsers` rejects amounts that are not positive.
- The refund at line 150 calls `BankAccount::credit` on the payer's account directly, not through a bank, so it cannot fail.
- `Gateway.Run` records which branch ended the attempt (`Rejected`, `DebitDeclined`, `Paid`, `Refunded`). `Gateway.ProcessPayment` is `Run` with `Bank::processCredit` as the credit leg, reduced to the boolean `processPayment` returns.
- `processPayment` dereferences both users' accounts once validation passes (lines 133-145). `Gateway.Resolvable` therefore requires both accounts to be in the ledger in that case, and only then.

## Model

| member | source | states |
|---|---|---|
| Account.Debit | Requirements_and_code.cpp:73-77 | the debit succeeds exactly when amount <= balance; on success the balance drops by the amount, and a credit of the same amount restores it; on failure the balance is unchanged; a non-negative balance stays non-negative |
| Account.Credit | Requirements_and_code.cpp:79-81 | the balance rises by exactly the amount, with no check of any kind |
| Account.DebitUndoesCredit | Requirements_and_code.cpp:73-81 | on a non-negative balance, a debit of the amount just credited is always accepted and restores the balance |
| Bank.ProcessDebit | Requirements_and_code.cpp:89-92 | forwards the account's verdict; on success only the debited account changes, and it drops by the amount; on failure the ledger is unchanged |
| Bank.ProcessCredit | Requirements_and_code.cpp:94-98 | always reports success; only the credited account changes, and it rises by the amount |
| Bank.ProcessCreditAs | Requirements_and_code.cpp:94-98 | reports success exactly in the AlwaysCredits mode, which is processCredit; RefusesCredit changes nothing; AlwaysCredits and CreditsThenFails raise only the payee's account, by the amount |
| Gateway.ValidateUsers | Requirements_and_code.cpp:118-128 | true exactly when both users are non-null and the amount is positive |
| Gateway.Run | Requirements_and_code.cpp:130-156 | rejected exactly when validation fails; the debit is declined exactly when the request is valid and the payer's balance is below the amount; neither case changes the ledger; a paid attempt moves the amount from payer to payee and changes nothing else; a refund after a refused credit leaves the ledger as before; a refund after a credit that was applied and then reported as failed leaves the payee raised by the amount and nothing else changed; with processCredit the refund is never reached, and with a failing credit leg the payment is never paid |
| Gateway.ProcessPayment | Requirements_and_code.cpp:130-156 | true exactly when the request is valid and the payer can afford it; then the amount has moved from payer to payee and no other account changed; when false, no balance changed; non-negative balances stay non-negative |
| Gateway.RefundUnreachable | Requirements_and_code.cpp:145-152 | because processCredit always reports success, the refund branch is never taken |
| Gateway.RefundRestores | Requirements_and_code.cpp:147-151 | if the credit leg refuses the credit, touching no balance, after the debit went through, the payer is credited back to its balance before the call, the payee is untouched, and the attempt ends refunded, which reports false |
| Gateway.RefundAfterAppliedCredit | Requirements_and_code.cpp:145-151 | if the credit leg applies the credit and then reports failure, between distinct accounts the refund puts the payer back at its balance before the call, the payee keeps the credit, and the ledger's total rises by the amount |
| Gateway.SharedAccountRefundOvercredits | Requirements_and_code.cpp:145-151 | with that credit leg and a payer and payee sharing an account, the refund leaves the account the amount above its balance before the call |
| Gateway.RunTotal | Requirements_and_code.cpp:130-156 | every ending of a payment keeps the sum of all balances in the ledger, except a refund after an applied-then-failed credit, which raises it by the amount |
| Gateway.PaymentKeepsPair | Requirements_and_code.cpp:137-155 | a successful payment keeps the sum of the payer's and the payee's balances |
| Gateway.SelfPaymentChangesNothing | Requirements_and_code.cpp:118-155 | a valid, affordable payment between users that share an account reports success and leaves every balance as it was |
| Manager.InitiatePayment | Requirements_and_code.cpp:165-168 | forwarding to the gateway: a valid, affordable request moves the amount from payer to payee; any other request changes nothing |
| Manager.UserInitiatePayment | Requirements_and_code.cpp:110-113 | a user paying another user: a positive, affordable amount moves from payer to payee; any other request changes nothing |
| Demo.DemoScenario | Requirements_and_code.cpp:172-188 | with balances 500 and 200, paying 150 succeeds and leaves 350 and 350; paying 400 next fails and leaves 350 and 350 |

## Left out

- Console logging (`cout`) throughout: it is narration with no effect on any balance.
- Floating-point `double`: balances and amounts are exact reals. Rounding, NaN and infinities are not modelled.
- The raw pointer graph, the account's `Bank*` back-reference and `Bank::accounts`: they are replaced by account ids. No operation reads the bank's table of accounts.
- Account ids are assumed unique. The demo uses distinct ids.
- `PaymentIntent` and its status strings: they appear only in the entity diagram and have no code.
- Payment-type selection (UPI, card) and the prose requirements at the top of the file: they are narrative, not code.
- Concurrency and atomicity: the C++ code is sequential.
- Credit legs that fail after applying some amount other than the one requested are not modelled. Only the three `CreditMode` legs are.
