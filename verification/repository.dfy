/**
 The in-memory account repository: a map from account id to balance with
 create-if-absent, point lookup, clear, and the money transfer. Each operation
 is a pure function from the ledger before the call to an `Effect`: the ledger
 after the call, the notifications sent, and the exception thrown, if any.
 */
module AccountsRepository {
  import opened Wrappers
  import opened Exceptions
  import opened Domain

  /** The ledger: account id to balance. */
  type Accounts = map<string, real>

  datatype Direction = Debit | Credit

  /** One call to the notification service: the account notified, whether it
      was debited or credited, by how much, and the other account involved. */
  datatype Notification = Notification(accountId: string, direction: Direction, amount: real, counterpartyId: string)

  /** What one repository call did: the ledger afterwards, the notifications
      it sent in order, and the exception it threw, if any. */
  datatype Effect = Effect(accounts: Accounts, notices: seq<Notification>, error: Option<Error>)

  /** Every balance is non-negative. */
  ghost predicate NonNegative(m: Accounts) {
    forall id :: id in m ==> m[id] >= 0.0
  }

  /** `putIfAbsent`: a new id is inserted with exactly the supplied balance; an
      existing id is a DuplicateAccountId and the stored balance is kept. */
  function CreateAccount(m: Accounts, account: Account): (r: Effect)
    ensures r.notices == []
    ensures r.error.None? <==> account.accountId !in m
    ensures r.error.Some? ==> r.error.value == DuplicateAccountId(account.accountId) && r.accounts == m
    ensures r.error.None? ==>
      && r.accounts.Keys == m.Keys + {account.accountId}
      && r.accounts[account.accountId] == account.balance
      && forall id :: id in m ==> r.accounts[id] == m[id]
  {
    if account.accountId in m then
      Effect(m, [], Some(DuplicateAccountId(account.accountId)))
    else
      Effect(m[account.accountId := account.balance], [], None)
  }

  /** Point lookup: present exactly for stored ids, with the stored balance. */
  function GetAccount(m: Accounts, accountId: string): (r: Option<Account>)
    ensures r.Some? <==> accountId in m
    ensures r.Some? ==> r.value.accountId == accountId && r.value.balance == m[accountId]
  {
    if accountId in m then Some(Account(accountId, m[accountId])) else None
  }

  /** `clearAccounts`: afterwards no id can be found. */
  function ClearAccounts(m: Accounts): (r: Accounts)
    ensures forall id :: GetAccount(r, id) == None
  {
    map[]
  }

  /** `transferMoney`. The source is looked up first, then the destination,
      then the source's balance minus the amount is compared with zero; only
      when all three checks pass is the source debited, then the destination
      credited (reading the destination after the debit, as the source does
      when both ids name the same account object), and two notifications
      sent: source first, destination second. A failed call changes nothing. */
  function TransferMoney(m: Accounts, t: MoneyTransfer): (r: Effect)
    requires t.Complete()
    ensures t.FromId() !in m ==> r.error == Some(AccountNotExists(t.FromId()))
    ensures t.FromId() in m && t.ToId() !in m ==> r.error == Some(AccountNotExists(t.ToId()))
    ensures t.FromId() in m && t.ToId() in m && m[t.FromId()] - t.Amount() < 0.0 ==>
      r.error == Some(InsufficientBalance(t.FromId()))
    ensures r.error.None? <==>
      t.FromId() in m && t.ToId() in m && m[t.FromId()] - t.Amount() >= 0.0
    ensures r.error.Some? ==> r.accounts == m && r.notices == []
    ensures r.error.None? ==>
      && r.accounts.Keys == m.Keys
      && (t.FromId() != t.ToId() ==>
            r.accounts[t.FromId()] == m[t.FromId()] - t.Amount()
            && r.accounts[t.ToId()] == m[t.ToId()] + t.Amount())
      && (forall id :: id in m && id != t.FromId() && id != t.ToId() ==> r.accounts[id] == m[id])
      && r.notices == [Notification(t.FromId(), Debit, t.Amount(), t.ToId()),
                       Notification(t.ToId(), Credit, t.Amount(), t.FromId())]
  {
    var from, to, amount := t.FromId(), t.ToId(), t.Amount();
    if from !in m then
      Effect(m, [], Some(AccountNotExists(from)))
    else if to !in m then
      Effect(m, [], Some(AccountNotExists(to)))
    else
      var fromBalance := m[from] - amount;
      if fromBalance >= 0.0 then
        var debited := m[from := fromBalance];
        var credited := debited[to := debited[to] + amount];
        Effect(credited,
               [Notification(from, Debit, amount, to), Notification(to, Credit, amount, from)],
               None)
      else
        Effect(m, [], Some(InsufficientBalance(from)))
  }

  // ---------------------------------------------------------------------
  // The total balance of the ledger

  /** Some id of a non-empty ledger. */
  ghost function PickId(m: Accounts): (id: string)
    requires m != map[]
    ensures id in m
  {
    assert m.Keys != {};
    var id :| id in m; id
  }

  /** The sum of all balances. */
  ghost function Total(m: Accounts): real
    decreases |m|
  {
    if m == map[] then 0.0
    else
      var id := PickId(m);
      m[id] + Total(m - {id})
  }

  /** The sum does not depend on which account is taken out first. */
  lemma {:induction false} TotalRemove(m: Accounts, id: string)
    requires id in m
    ensures Total(m) == m[id] + Total(m - {id})
    decreases |m|
  {
    var first := PickId(m);
    if first != id {
      var rest := m - {first};
      TotalRemove(rest, id);
      TotalRemove(m - {id}, first);
      assert rest - {id} == (m - {id}) - {first};
    }
  }

  /** Overwriting one balance changes the sum by the difference. */
  lemma TotalUpdate(m: Accounts, id: string, v: real)
    requires id in m
    ensures Total(m[id := v]) == Total(m) - m[id] + v
  {
    TotalRemove(m, id);
    TotalRemove(m[id := v], id);
    assert m[id := v] - {id} == m - {id};
  }

  // ---------------------------------------------------------------------
  // Properties of single calls

  /** A transfer neither creates nor destroys money, whatever its outcome. */
  lemma TransferConservesTotal(m: Accounts, t: MoneyTransfer)
    requires t.Complete()
    ensures Total(TransferMoney(m, t).accounts) == Total(m)
  {
    var from, to, amount := t.FromId(), t.ToId(), t.Amount();
    if from in m && to in m && m[from] - amount >= 0.0 {
      var debited := m[from := m[from] - amount];
      TotalUpdate(m, from, m[from] - amount);
      TotalUpdate(debited, to, debited[to] + amount);
    }
  }

  /** A validated transfer (amount at least one) keeps every balance
      non-negative; a refused one leaves them untouched. */
  lemma TransferPreservesNonNegative(m: Accounts, t: MoneyTransfer)
    requires t.Valid()
    ensures NonNegative(m) ==> NonNegative(TransferMoney(m, t).accounts)
  {
  }

  /** Creating an account with a non-negative opening balance keeps every
      balance non-negative. */
  lemma CreatePreservesNonNegative(m: Accounts, account: Account)
    requires account.balance >= 0.0
    requires NonNegative(m)
    ensures NonNegative(CreateAccount(m, account).accounts)
  {
  }

  /** When both ids name one account, the source mutates that one object
      twice (debit, then credit) and the two writes cancel: the call succeeds
      exactly when the balance covers the amount, and the ledger comes back
      unchanged, though both notifications are still sent. */
  lemma SelfTransferChangesNothing(m: Accounts, t: MoneyTransfer)
    requires t.Complete() && t.FromId() == t.ToId()
    ensures TransferMoney(m, t).accounts == m
    ensures TransferMoney(m, t).error.None? <==> t.FromId() in m && m[t.FromId()] >= t.Amount()
    ensures TransferMoney(m, t).error.None? ==> |TransferMoney(m, t).notices| == 2
  {
  }

  /** The repository never checks the amount itself: an unvalidated negative
      amount passes the balance check and drives the destination negative. */
  lemma UnvalidatedNegativeAmountOverdraws()
    ensures var m := map["A" := 0.0, "B" := 0.0];
            var r := TransferMoney(m, NewTransfer(Some("A"), Some("B"), Some(-5.0)));
            NonNegative(m) && r.error.None? && r.accounts["B"] == -5.0
  {
  }

  /** Creation never removes an id and a transfer keeps the id set; creating
      an id that is already stored fails. */
  lemma IdsAreNeverRemoved(m: Accounts, account: Account, t: MoneyTransfer)
    requires t.Complete()
    ensures m.Keys <= CreateAccount(m, account).accounts.Keys
    ensures m.Keys == TransferMoney(m, t).accounts.Keys
    ensures account.accountId in m ==> CreateAccount(m, account).error == Some(DuplicateAccountId(account.accountId))
  {
  }

  // ---------------------------------------------------------------------
  // Sequences of transfers

  /** The outcome of running transfers one after another: the final ledger,
      every notification in order, and how many of the transfers succeeded. */
  datatype Run = Run(accounts: Accounts, notices: seq<Notification>, succeeded: nat)

  /** Applies `ts` in order, each to the ledger the previous one left. */
  function Replay(m: Accounts, ts: seq<MoneyTransfer>): (r: Run)
    requires forall i :: 0 <= i < |ts| ==> ts[i].Complete()
    ensures r.succeeded <= |ts|
    ensures |r.notices| == 2 * r.succeeded
    ensures r.accounts.Keys == m.Keys
    decreases |ts|
  {
    if ts == [] then Run(m, [], 0)
    else
      var e := TransferMoney(m, ts[0]);
      var rest := Replay(e.accounts, ts[1..]);
      Run(rest.accounts, e.notices + rest.notices, rest.succeeded + (if e.error.None? then 1 else 0))
  }

  /** Conservation over any sequence of transfers. */
  lemma {:induction false} ReplayConservesTotal(m: Accounts, ts: seq<MoneyTransfer>)
    requires forall i :: 0 <= i < |ts| ==> ts[i].Complete()
    ensures Total(Replay(m, ts).accounts) == Total(m)
    decreases |ts|
  {
    if ts != [] {
      TransferConservesTotal(m, ts[0]);
      ReplayConservesTotal(TransferMoney(m, ts[0]).accounts, ts[1..]);
    }
  }

  /** `n` debits of `a`, summed one at a time. */
  ghost function Debits(n: nat, a: real): real
  {
    if n == 0 then 0.0 else Debits(n - 1, a) + a
  }

  /** `n` debits of `a` add up to `n * a`. */
  lemma {:induction false} DebitsIsProduct(n: nat, a: real)
    ensures Debits(n, a) == (n as real) * a
  {
    if n > 0 {
      DebitsIsProduct(n - 1, a);
      assert (n as real) * a == ((n - 1) as real) * a + a;
    }
  }

  /** One or more debits of a positive amount add up to at least that amount. */
  lemma {:induction false} DebitsAtLeastOne(n: nat, a: real)
    requires a > 0.0 && n > 0
    ensures Debits(n, a) >= a
  {
    if n > 1 {
      DebitsAtLeastOne(n - 1, a);
    }
  }

  /** `RepeatedTransferDrainsSource` with the debits kept as a sum. */
  lemma {:induction false} RepeatedTransferDrainsByDebits(m: Accounts, t: MoneyTransfer, ts: seq<MoneyTransfer>)
    requires t.Valid() && t.FromId() != t.ToId()
    requires t.FromId() in m && t.ToId() in m && m[t.FromId()] >= 0.0
    requires forall i :: 0 <= i < |ts| ==> ts[i] == t
    ensures var r := Replay(m, ts);
            && Debits(r.succeeded, t.Amount()) <= m[t.FromId()]
            && r.accounts[t.FromId()] == m[t.FromId()] - Debits(r.succeeded, t.Amount())
            && (r.succeeded < |ts| ==> r.accounts[t.FromId()] < t.Amount())
    decreases |ts|
  {
    if ts != [] {
      var from, amount := t.FromId(), t.Amount();
      var e := TransferMoney(m, t);
      var tail := ts[1..];
      assert forall i :: 0 <= i < |tail| ==> tail[i] == t;
      var rest := Replay(e.accounts, tail);
      assert Replay(m, ts) == Run(rest.accounts, e.notices + rest.notices,
                                  rest.succeeded + (if e.error.None? then 1 else 0));
      RepeatedTransferDrainsByDebits(e.accounts, t, tail);
      if e.error.Some? && rest.succeeded > 0 {
        DebitsAtLeastOne(rest.succeeded, amount);
      }
    }
  }

  /** A product with a positive factor has the sign of the other factor. */
  lemma SignOfProduct(x: real, a: real)
    requires a > 0.0
    ensures x * a >= 0.0 ==> x >= 0.0
    ensures x * a > 0.0 ==> x > 0.0
  {
  }

  /** From `n` debits of `a` (a > 0) that fit in `b` with less than `a` left,
      `n` is the floor of `b / a`. */
  lemma FloorOfQuotient(b: real, a: real, n: nat)
    requires a > 0.0
    requires (n as real) * a <= b < (n as real) * a + a
    ensures n == (b / a).Floor
  {
    var q, k := b / a, n as real;
    assert q * a == b;
    assert (q - k) * a == b - k * a;
    assert (k + 1.0 - q) * a == k * a + a - b;
    SignOfProduct(q - k, a);
    SignOfProduct(k + 1.0 - q, a);
  }

  /** A source that held `b` and saw `n` debits of `a` now holds `left`:
      the debits, `n` times `a`, fit in `b` and account for the whole
      difference, and if the run `stopped` short (a request was refused),
      `n` is floor(b / a). */
  ghost predicate Drained(b: real, a: real, n: nat, left: real, stopped: bool)
    requires a > 0.0
  {
    && (n as real) * a <= b
    && left == b - (n as real) * a
    && (stopped ==> n == (b / a).Floor)
  }

  /** The arithmetic that turns the summed debits into a product and a count. */
  lemma DrainArithmetic(b: real, a: real, n: nat, left: real, stopped: bool)
    requires a > 0.0
    requires Debits(n, a) <= b && left == b - Debits(n, a)
    requires stopped ==> left < a
    ensures Drained(b, a, n, left, stopped)
  {
    DebitsIsProduct(n, a);
    if stopped {
      FloorOfQuotient(b, a, n);
    }
  }

  /** `k` copies of one validated request from `from` to a different `to`,
      starting from balance `b` at the source, succeed min(k, floor(b / amount))
      times: the successes times the amount never exceed `b`, the source ends
      at `b` minus that, and if any request failed the number of successes is
      exactly floor(b / amount) (`Drained`). */
  lemma RepeatedTransferDrainsSource(m: Accounts, t: MoneyTransfer, ts: seq<MoneyTransfer>)
    requires t.Valid() && t.FromId() != t.ToId()
    requires t.FromId() in m && t.ToId() in m && m[t.FromId()] >= 0.0
    requires forall i :: 0 <= i < |ts| ==> ts[i] == t
    ensures var r := Replay(m, ts);
            && r.succeeded <= |ts|
            && Drained(m[t.FromId()], t.Amount(), r.succeeded, r.accounts[t.FromId()], r.succeeded < |ts|)
  {
    var r := Replay(m, ts);
    RepeatedTransferDrainsByDebits(m, t, ts);
    DrainArithmetic(m[t.FromId()], t.Amount(), r.succeeded, r.accounts[t.FromId()], r.succeeded < |ts|);
  }
}
