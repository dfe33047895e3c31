/**
 The three exception classes the ledger and the controller throw, and the
 message each carries. The controller copies a message verbatim into the body
 of a BAD_REQUEST response, so the messages are modelled character for
 character.
 */
module Exceptions {

  /** What went wrong. `SameAccount` is thrown by the controller as a
      DuplicateAccountIdException carrying its own fixed message. */
  datatype Error =
    | DuplicateAccountId(id: string)
    | SameAccount
    | AccountNotExists(id: string)
    | InsufficientBalance(id: string)

  const DuplicatePrefix: string := "Account id "
  const DuplicateSuffix: string := " already exists!"
  const SameAccountMessage: string := " From Account" + " and To account can not be same."
  const AccountPrefix: string := "AccountId "
  const NotExistsSuffix: string := " does not exists"
  const InsufficientSuffix: string := " doesnt have sufficient balance."

  /** The exception's getMessage(). */
  function Message(e: Error): (msg: string)
    ensures |msg| > 0
    ensures e.SameAccount? <==> msg[0] == ' '
    ensures e.DuplicateAccountId? <==> msg[|msg| - 1] == '!'
    ensures e.AccountNotExists? <==> msg[|msg| - 1] == 's'
  {
    match e
    case DuplicateAccountId(id) => DuplicatePrefix + id + DuplicateSuffix
    case SameAccount =>
      assert SameAccountMessage[|SameAccountMessage| - 1] == '.';
      SameAccountMessage
    case AccountNotExists(id) => AccountPrefix + id + NotExistsSuffix
    case InsufficientBalance(id) => AccountPrefix + id + InsufficientSuffix
  }

  /** If `p + x + s == p + y + s` then `x == y`: a fixed frame around an id
      cannot hide which id it frames. */
  lemma {:induction false} FramedIdInjective(p: string, x: string, y: string, s: string)
    requires p + x + s == p + y + s
    ensures x == y
  {
    var w := p + x + s;
    assert |x| == |y|;
    forall i | 0 <= i < |x|
      ensures x[i] == y[i]
    {
      assert x[i] == w[|p| + i] == y[i];
    }
  }

  /** A BAD_REQUEST body names the error that produced it: distinct errors
      never share a message. */
  lemma {:induction false} MessageIdentifiesError(e1: Error, e2: Error)
    requires Message(e1) == Message(e2)
    ensures e1 == e2
  {
    match e1
    case DuplicateAccountId(id1) =>
      assert e2.DuplicateAccountId?;
      FramedIdInjective(DuplicatePrefix, id1, e2.id, DuplicateSuffix);
    case SameAccount =>
    case AccountNotExists(id1) =>
      assert e2.AccountNotExists?;
      FramedIdInjective(AccountPrefix, id1, e2.id, NotExistsSuffix);
    case InsufficientBalance(id1) =>
      assert e2.InsufficientBalance?;
      FramedIdInjective(AccountPrefix, id1, e2.id, InsufficientSuffix);
  }
}
