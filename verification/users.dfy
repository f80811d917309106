/** Users, and the possibly-null user pointers the gateway receives. */
module Users {
  import opened Ledger

  /** A user holds (but does not own) exactly one bank account, named by its id. */
  datatype User = User(id: string, name: string, account: AccountId)

  /** A `User*` that may be null. */
  datatype UserRef = Null | Ref(user: User)
}
