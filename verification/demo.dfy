/**
 The demonstration scenario: two accounts in two banks holding 500 and
 200, a payment of 150 that goes through and a payment of 400 that the
 payer can no longer afford.
 */
module Demo {
  import opened Ledger
  import opened Users
  import Gateway
  import Manager
  import Bank

  const Alice := User("U1", "Alice", "A1")
  const Bob := User("U2", "Bob", "A2")
  const Opening: Ledger := map["A1" := 500.0, "A2" := 200.0]

  /** Paying 150 succeeds and leaves 350/350; paying 400 next fails and leaves 350/350. */
  lemma DemoScenario()
    ensures Gateway.ProcessPayment(Opening, Ref(Alice), Ref(Bob), 150.0)
            == Bank.Reply(true, map["A1" := 350.0, "A2" := 350.0])
    ensures Gateway.ProcessPayment(map["A1" := 350.0, "A2" := 350.0], Ref(Alice), Ref(Bob), 400.0)
            == Bank.Reply(false, map["A1" := 350.0, "A2" := 350.0])
    ensures Manager.InitiatePayment(Manager.InitiatePayment(Opening, Ref(Alice), Ref(Bob), 150.0),
                                    Ref(Alice), Ref(Bob), 400.0)
            == map["A1" := 350.0, "A2" := 350.0]
  {
  }
}
