/**
 The two records the ledger works with. Java references may be null, so every
 field of a transfer request is optional; balances and amounts are BigDecimal,
 modelled by Dafny's exact `real`.
 */
module Domain {
  import opened Wrappers

  /** An account as the ledger hands it out: its id and current balance. */
  datatype Account = Account(accountId: string, balance: real)

  /** A transfer request as deserialised from the request body. */
  datatype MoneyTransfer = MoneyTransfer(
    accountFromId: Option<string>,
    accountToId: Option<string>,
    amount: Option<real>)
  {
    /** Every field is present (no null), the least the ledger needs to run. */
    predicate Complete() {
      accountFromId.Some? && accountToId.Some? && amount.Some?
    }

    /** The request passes its bean-validation constraints: both ids are
        `@NotNull @NotEmpty` and the amount is `@NotNull @Min(1)`. */
    predicate Valid() {
      && NotEmptyId(accountFromId)
      && NotEmptyId(accountToId)
      && MinAmount(amount, 1.0)
    }

    function FromId(): string requires Complete() { accountFromId.value }
    function ToId(): string requires Complete() { accountToId.value }
    function Amount(): real requires Complete() { amount.value }
  }

  /** `@NotNull @NotEmpty` on a string field. */
  predicate NotEmptyId(s: Option<string>) {
    s.Some? && |s.value| > 0
  }

  /** `@NotNull @Min(bound)` on a decimal field. */
  predicate MinAmount(v: Option<real>, bound: real) {
    v.Some? && v.value >= bound
  }

  /** The two-argument constructor: the amount defaults to zero, so the
      request it builds can never pass validation. */
  function TransferWithoutAmount(accountFromId: Option<string>, accountToId: Option<string>): (t: MoneyTransfer)
    ensures t.accountFromId == accountFromId && t.accountToId == accountToId
    ensures t.amount == Some(0.0)
    ensures !t.Valid()
  {
    MoneyTransfer(accountFromId, accountToId, Some(0.0))
  }

  /** The three-argument (JSON) constructor stores its arguments unchanged; the
      request it builds is valid exactly when the three constraints hold. */
  function NewTransfer(accountFromId: Option<string>, accountToId: Option<string>, amount: Option<real>): (t: MoneyTransfer)
    ensures t.accountFromId == accountFromId && t.accountToId == accountToId && t.amount == amount
    ensures t.Valid() <==>
      && accountFromId.Some? && accountFromId.value != ""
      && accountToId.Some? && accountToId.value != ""
      && amount.Some? && amount.value >= 1.0
  {
    MoneyTransfer(accountFromId, accountToId, amount)
  }

  /** Validation is stricter than the ledger's own needs: a valid request has
      no null field and moves a strictly positive amount. */
  lemma ValidIsCompleteAndPositive(t: MoneyTransfer)
    requires t.Valid()
    ensures t.Complete()
    ensures t.amount.value > 0.0
    ensures t.accountFromId.value != "" && t.accountToId.value != ""
  {
  }
}
