/**
 The decision logic of the REST controller: which ledger call a request leads
 to, and how the outcome becomes a response status and body. Routing, JSON and
 logging are not modelled; the account service the controller calls is taken
 to pass each call straight to the repository.
 */
module AccountsController {
  import opened Wrappers
  import opened Exceptions
  import opened Domain
  import opened AccountsRepository

  datatype Status = Created | Ok | BadRequest

  /** A response body: none, a plain text message, an account as JSON (empty
      when the id is unknown), or the framework's report of failed
      bean-validation constraints. */
  datatype Body = NoBody | Text(text: string) | Json(account: Option<Account>) | ConstraintViolations

  datatype Response = Response(status: Status, body: Body)

  /** One handled request: the ledger afterwards, the notifications sent, and
      the response. */
  datatype Handled = Handled(accounts: Accounts, notices: seq<Notification>, response: Response)

  const TransferSucceeded: string := "Money transferred successfully"

  /** POST /v1/accounts: a fresh id is CREATED with no body and can then be
      looked up with its opening balance; a duplicate id is a BAD_REQUEST
      carrying the duplicate message, and the ledger keeps the first account. */
  function CreateAccount(m: Accounts, account: Account): (h: Handled)
    ensures h.notices == []
    ensures h.response.status == Created <==> account.accountId !in m
    ensures h.response.status == Created ==>
      && h.response.body == NoBody
      && h.accounts == m[account.accountId := account.balance]
      && AccountsRepository.GetAccount(h.accounts, account.accountId) == Some(account)
    ensures h.response.status != Created ==>
      && h.response == Response(BadRequest, Text(Message(DuplicateAccountId(account.accountId))))
      && h.accounts == m
  {
    var e := AccountsRepository.CreateAccount(m, account);
    match e.error
    case Some(err) => Handled(e.accounts, [], Response(BadRequest, Text(Message(err))))
    case None => Handled(e.accounts, [], Response(Created, NoBody))
  }

  /** GET /v1/accounts/{accountId}: a read that answers with the stored
      account, or with an empty body when the id is unknown. */
  function GetAccount(m: Accounts, accountId: string): (r: Response)
    ensures r.status == Ok && r.body.Json?
    ensures r.body.account.Some? <==> accountId in m
    ensures r.body.account.Some? ==> r.body.account.value == Account(accountId, m[accountId])
  {
    Response(Ok, Json(AccountsRepository.GetAccount(m, accountId)))
  }

  /** POST /v1/accounts/moneytransfer. A request failing its constraints is
      refused by the framework before the handler runs; equal ids are refused
      before the ledger is touched; the ledger's own errors become a
      BAD_REQUEST carrying the exception's message; success is OK with a fixed
      text. Only an OK changes the ledger: exactly as the repository's
      transfer does, debiting the source and crediting the destination by the
      amount, without creating or destroying money and without driving any
      balance negative. */
  function MoneyTransfer(m: Accounts, t: Domain.MoneyTransfer): (h: Handled)
    ensures h.response.status == Ok <==>
      && t.Valid() && t.FromId() != t.ToId()
      && t.FromId() in m && t.ToId() in m && m[t.FromId()] - t.Amount() >= 0.0
    ensures h.response.status == Ok ==>
      && h.response.body == Text(TransferSucceeded)
      && h.accounts == TransferMoney(m, t).accounts
      && h.notices == TransferMoney(m, t).notices
      && h.accounts[t.FromId()] == m[t.FromId()] - t.Amount()
      && h.accounts[t.ToId()] == m[t.ToId()] + t.Amount()
      && Total(h.accounts) == Total(m)
    ensures h.response.status != Ok ==>
      h.response.status == BadRequest && h.accounts == m && h.notices == []
    ensures !t.Valid() ==> h.response.body == ConstraintViolations
    ensures t.Valid() && t.FromId() == t.ToId() ==>
      h.response == Response(BadRequest, Text(Message(SameAccount)))
    ensures t.Valid() && t.FromId() != t.ToId() && TransferMoney(m, t).error.Some? ==>
      h.response == Response(BadRequest, Text(Message(TransferMoney(m, t).error.value)))
    ensures NonNegative(m) ==> NonNegative(h.accounts)
  {
    if !t.Valid() then
      Handled(m, [], Response(BadRequest, ConstraintViolations))
    else if t.FromId() == t.ToId() then
      Handled(m, [], Response(BadRequest, Text(Message(SameAccount))))
    else
      var e := TransferMoney(m, t);
      TransferConservesTotal(m, t);
      TransferPreservesNonNegative(m, t);
      match e.error
      case Some(err) => Handled(e.accounts, e.notices, Response(BadRequest, Text(Message(err))))
      case None => Handled(e.accounts, e.notices, Response(Ok, Text(TransferSucceeded)))
  }

  /** The text of a refused transfer tells the client which check failed and
      for which account: equal ids, an unknown source, then an unknown
      destination, then a short balance. */
  lemma {:induction false} TransferRefusalExplained(m: Accounts, t: Domain.MoneyTransfer, e: Error)
    requires t.Valid()
    requires MoneyTransfer(m, t).response.body == Text(Message(e))
    ensures e == SameAccount <==> t.FromId() == t.ToId()
    ensures e == AccountNotExists(t.FromId()) <==> t.FromId() != t.ToId() && t.FromId() !in m
    ensures e == AccountNotExists(t.ToId()) <==> t.FromId() != t.ToId() && t.FromId() in m && t.ToId() !in m
    ensures e == InsufficientBalance(t.FromId()) <==>
      t.FromId() != t.ToId() && t.FromId() in m && t.ToId() in m && m[t.FromId()] < t.Amount()
  {
    var from, to := t.FromId(), t.ToId();
    var h := MoneyTransfer(m, t);
    if from == to {
      MessageIdentifiesError(e, SameAccount);
    } else {
      var r := TransferMoney(m, t);
      assert r.error.Some?;
      MessageIdentifiesError(e, r.error.value);
    }
  }
}
