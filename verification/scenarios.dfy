/**
 The controller test suite's scenarios, stated over the model: each starts from
 a cleared ledger, as the suite does before every test.
 */
module Scenarios {
  import opened Wrappers
  import opened Exceptions
  import opened Domain
  import opened AccountsRepository
  import AccountsController

  /** The ledger every scenario starts from. */
  function Fresh(): (m: Accounts)
    ensures forall id :: AccountsRepository.GetAccount(m, id) == None
  {
    ClearAccounts(map["Id-999" := 5.0])
  }

  /** Two fresh ids are both CREATED and read back with their balances. */
  lemma CreateTwoAccounts()
    ensures var h1 := AccountsController.CreateAccount(Fresh(), Account("Id-123", 1000.0));
            var h2 := AccountsController.CreateAccount(h1.accounts, Account("Id-223", 2000.0));
            && h1.response.status == AccountsController.Created
            && h2.response.status == AccountsController.Created
            && AccountsRepository.GetAccount(h2.accounts, "Id-123") == Some(Account("Id-123", 1000.0))
            && AccountsRepository.GetAccount(h2.accounts, "Id-223") == Some(Account("Id-223", 2000.0))
  {
  }

  /** Creating the same id twice: CREATED, then BAD_REQUEST. */
  lemma CreateDuplicateAccount()
    ensures var h1 := AccountsController.CreateAccount(Fresh(), Account("Id-123", 1000.0));
            var h2 := AccountsController.CreateAccount(h1.accounts, Account("Id-123", 1000.0));
            && h1.response.status == AccountsController.Created
            && h2.response.status == AccountsController.BadRequest
            && h2.response.body == AccountsController.Text("Account id Id-123 already exists!")
  {
  }

  /** An unknown source id is a BAD_REQUEST naming it. */
  lemma TransferFromUnknownAccount()
    ensures AccountsController.MoneyTransfer(Fresh(), NewTransfer(Some("Id-023"), Some("Id-223"), Some(101.0))).response
            == AccountsController.Response(AccountsController.BadRequest, AccountsController.Text("AccountId Id-023 does not exists"))
  {
    assert "Id-023" !in Fresh();
    assert Message(AccountNotExists("Id-023")) == "AccountId Id-023 does not exists";
  }

  /** Equal ids are a BAD_REQUEST whatever the ledger holds. */
  lemma TransferToSameAccount(m: Accounts)
    ensures AccountsController.MoneyTransfer(m, NewTransfer(Some("Id-123"), Some("Id-123"), Some(101.0))).response
            == AccountsController.Response(AccountsController.BadRequest, AccountsController.Text(" From Account and To account can not be same."))
  {
    assert Message(SameAccount) == " From Account and To account can not be same.";
  }

  /** With the ledger cleared, an unknown destination is not what is reported:
      the unknown source is looked up first and named. */
  lemma TransferToUnknownAccount()
    ensures AccountsController.MoneyTransfer(Fresh(), NewTransfer(Some("Id-123"), Some("Id-023"), Some(101.0))).response
            == AccountsController.Response(AccountsController.BadRequest, AccountsController.Text("AccountId Id-123 does not exists"))
  {
    assert "Id-123" !in Fresh();
    assert Message(AccountNotExists("Id-123")) == "AccountId Id-123 does not exists";
  }

  /** An empty id on either side, or on both (equal ids too), fails
      validation before the same-account guard is reached. */
  lemma TransferWithEmptyId(m: Accounts)
    ensures AccountsController.MoneyTransfer(m, NewTransfer(Some(""), Some("Id-023"), Some(101.0))).response
            == AccountsController.Response(AccountsController.BadRequest, AccountsController.ConstraintViolations)
    ensures AccountsController.MoneyTransfer(m, NewTransfer(Some(""), Some(""), Some(101.0))).response
            == AccountsController.Response(AccountsController.BadRequest, AccountsController.ConstraintViolations)
    ensures AccountsController.MoneyTransfer(m, NewTransfer(Some("Id-023"), Some(""), Some(101.0))).response
            == AccountsController.Response(AccountsController.BadRequest, AccountsController.ConstraintViolations)
  {
  }

  /** 1000.45 and 2000.45, transfer 100: OK, leaving 900.45 and 2100.45. */
  lemma TransferBetweenTwoAccounts()
    ensures var m := map["Id-123" := 1000.45, "Id-223" := 2000.45];
            var h := AccountsController.MoneyTransfer(m, NewTransfer(Some("Id-123"), Some("Id-223"), Some(100.0)));
            && h.response == AccountsController.Response(AccountsController.Ok, AccountsController.Text("Money transferred successfully"))
            && h.accounts == map["Id-123" := 900.45, "Id-223" := 2100.45]
            && h.notices == [Notification("Id-123", Debit, 100.0, "Id-223"), Notification("Id-223", Credit, 100.0, "Id-123")]
  {
  }

  /** 100 and 200, transfer 101: BAD_REQUEST naming the source, nothing moves. */
  lemma TransferWithInsufficientBalance()
    ensures var m := map["Id-123" := 100.0, "Id-223" := 200.0];
            var h := AccountsController.MoneyTransfer(m, NewTransfer(Some("Id-123"), Some("Id-223"), Some(101.0)));
            && h.response == AccountsController.Response(AccountsController.BadRequest,
                               AccountsController.Text("AccountId Id-123 doesnt have sufficient balance."))
            && h.accounts == m
            && h.notices == []
  {
    assert Message(InsufficientBalance("Id-123")) == "AccountId Id-123 doesnt have sufficient balance.";
  }
}
