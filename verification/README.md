# Money-transfer ledger: a Dafny model

This project models the core of a small account service written in Java with
Spring. The core is an in-memory ledger that maps account ids to balances. It
supports creating an account if its id is absent, point lookup, clearing, and
moving money between two accounts. Two thin pieces around it are modelled too:

- the bean-validation constraints on a transfer request;
- the controller's decision logic: the same-account guard and how each outcome
  becomes an HTTP status and body.

Every operation is a pure function. The ledger is a `map<string, real>`.
Dafny's `real` is exact, so it matches `BigDecimal` addition, subtraction and
comparison. A repository call returns an `Effect`, which holds the ledger
after the call, the notifications sent in order, and the exception thrown, if
any. A controller call returns a `Handled`, which holds the ledger, the
notifications and the response.

Modules, one per source concern:

- `Wrappers`: `Option`, which stands in for a nullable Java reference.
- `Exceptions`: the error kinds and their exact message texts.
- `Domain`: `Account`, and `MoneyTransfer` with its two constructors and its
  validity predicate.
- `AccountsRepository`: the ledger operations, the ledger total (`Total`),
  and the properties of single transfers and of sequences of transfers.
- `AccountsController`: the request handlers as pure decisions.
- `Scenarios`: the controller test suite's scenarios, stated as lemmas.

Facts about the code that the model keeps:

- The repository never checks the amount. Only `@Min(1)` on
  `MoneyTransfer.amount` does (MoneyTransfer.java:23-25), and the framework
  applies it before the controller's handler runs.
  `UnvalidatedNegativeAmountOverdraws` shows what a negative amount would do
  if it reached the repository.
- The same-account check is in the controller (AccountsController.java:61-62),
  not in the repository. It is thrown as a `DuplicateAccountIdException` with
  its own message. The repository itself accepts equal ids. Its two in-place
  writes to the one account object cancel out. The model reproduces this by
  reading the destination's balance after the source's write
  (`SelfTransferChangesNothing`).
- The code takes no locks. `@Transactional` has no effect on the map.

## Model

| member | source | states |
|---|---|---|
| Exceptions.Message | src/main/java/com/dws/challenge/repository/AccountsRepositoryInMemory.java:33-64 | each exception's message is non-empty, and its first and last characters already tell the kind apart; the texts are those built at lines 33-34, 55, 58 and 64, plus the same-account text at AccountsController.java:62 |
| Exceptions.MessageIdentifiesError | src/main/java/com/dws/challenge/web/AccountsController.java:64-65 | two errors with the same message are the same error, so a BAD_REQUEST body determines the error, including the account it names |
| Domain.TransferWithoutAmount | src/main/java/com/dws/challenge/domain/MoneyTransfer.java:27-31 | the two-argument constructor keeps both ids, sets the amount to zero, and so never builds a valid request |
| Domain.NewTransfer | src/main/java/com/dws/challenge/domain/MoneyTransfer.java:15-40 | the three-argument constructor stores all fields as given; the request is valid exactly when both ids are non-null and non-empty and the amount is non-null and at least 1 |
| Domain.ValidIsCompleteAndPositive | src/main/java/com/dws/challenge/domain/MoneyTransfer.java:15-25 | a valid request has no null field, non-empty ids and a strictly positive amount |
| AccountsRepository.CreateAccount | src/main/java/com/dws/challenge/repository/AccountsRepositoryInMemory.java:30-36 | an absent id is inserted with exactly the supplied balance and nothing else changes; a present id fails with DuplicateAccountId(id) and the ledger, including the old balance, is unchanged |
| AccountsRepository.GetAccount | src/main/java/com/dws/challenge/repository/AccountsRepositoryInMemory.java:39-41 | lookup finds an account exactly when the id is stored, and returns that id with its stored balance |
| AccountsRepository.ClearAccounts | src/main/java/com/dws/challenge/repository/AccountsRepositoryInMemory.java:44-46 | after clearing, every lookup finds nothing |
| AccountsRepository.TransferMoney | src/main/java/com/dws/challenge/repository/AccountsRepositoryInMemory.java:51-71 | an unknown source fails first, then an unknown destination, then a source balance minus amount below zero; it succeeds exactly when none applies (a zero result is allowed); a failure changes nothing and sends nothing; a success debits the source and credits the destination by the amount, keeps every other balance and the id set, and sends exactly two notifications, source then destination |
| AccountsRepository.TransferConservesTotal | src/main/java/com/dws/challenge/repository/AccountsRepositoryInMemory.java:60-68 | the sum of all balances after any transfer equals the sum before |
| AccountsRepository.TransferPreservesNonNegative | src/main/java/com/dws/challenge/repository/AccountsRepositoryInMemory.java:60-66 | a validated transfer on a ledger with no negative balance leaves none negative |
| AccountsRepository.CreatePreservesNonNegative | src/main/java/com/dws/challenge/repository/AccountsRepositoryInMemory.java:30-36 | creating an account with a non-negative opening balance leaves no balance negative |
| AccountsRepository.SelfTransferChangesNothing | src/main/java/com/dws/challenge/repository/AccountsRepositoryInMemory.java:53-70 | when both ids are equal, the debit and the credit of the one account cancel: the ledger is unchanged; the call succeeds exactly when the balance covers the amount, and then still sends two notifications |
| AccountsRepository.UnvalidatedNegativeAmountOverdraws | src/main/java/com/dws/challenge/repository/AccountsRepositoryInMemory.java:60-66 | the repository does not check the amount: a negative amount passes the balance check and makes the destination negative |
| AccountsRepository.IdsAreNeverRemoved | src/main/java/com/dws/challenge/repository/AccountsRepositoryInMemory.java:30-68 | creation only adds ids and a transfer keeps the id set, so once an id is stored every later creation of it fails with DuplicateAccountId |
| AccountsRepository.Replay | src/main/java/com/dws/challenge/repository/AccountsRepositoryInMemory.java:51-71 | running transfers one after another keeps the id set; at most all of them succeed, and each success sends two notifications |
| AccountsRepository.ReplayConservesTotal | src/main/java/com/dws/challenge/repository/AccountsRepositoryInMemory.java:60-68 | any sequence of transfers leaves the sum of all balances unchanged |
| AccountsRepository.RepeatedTransferDrainsSource | src/main/java/com/dws/challenge/repository/AccountsRepositoryInMemory.java:60-64 | repeating one valid request from a source holding b succeeds at most count times; successes times amount never exceed b; the source ends at b minus successes times amount; and if any request was refused, the number of successes is exactly floor(b / amount) (all stated by `Drained`) |
| AccountsController.CreateAccount | src/main/java/com/dws/challenge/web/AccountsController.java:38-48 | CREATED with no body exactly when the id is new, and then the ledger is the old one plus that account, which can be read back; otherwise BAD_REQUEST with the duplicate message and an unchanged ledger |
| AccountsController.GetAccount | src/main/java/com/dws/challenge/web/AccountsController.java:50-54 | the lookup answers OK with the stored account, or with an empty body for an unknown id |
| AccountsController.MoneyTransfer | src/main/java/com/dws/challenge/web/AccountsController.java:56-68 | OK exactly for a valid request with different ids that the ledger accepts, with body "Money transferred successfully", and then the ledger and notifications are exactly the repository transfer's: source debited, destination credited, total conserved; an invalid request, equal ids, or a ledger error gives BAD_REQUEST with the matching body and changes nothing; no balance ever becomes negative |
| AccountsController.TransferRefusalExplained | src/main/java/com/dws/challenge/web/AccountsController.java:60-66 | the body of a refused valid request says which check failed: equal ids, unknown source, unknown destination (known source), or insufficient source balance, each exactly when it is the first to fail |
| Scenarios.CreateTwoAccounts | src/test/java/com/dws/challenge/AccountsControllerTest.java:47-60 | two new ids are both CREATED and read back with balances 1000 and 2000 |
| Scenarios.CreateDuplicateAccount | src/test/java/com/dws/challenge/AccountsControllerTest.java:64-69 | creating one id twice gives CREATED, then BAD_REQUEST |
| Scenarios.TransferFromUnknownAccount | src/test/java/com/dws/challenge/AccountsControllerTest.java:114-117 | a transfer from an unknown id is a BAD_REQUEST naming that id |
| Scenarios.TransferToUnknownAccount | src/test/java/com/dws/challenge/AccountsControllerTest.java:119-123 | on the cleared ledger, a transfer to an unknown id from an unknown id is refused naming the source, which is checked first |
| Scenarios.TransferToSameAccount | src/test/java/com/dws/challenge/AccountsControllerTest.java:126-129 | a transfer between equal ids is a BAD_REQUEST on any ledger |
| Scenarios.TransferWithEmptyId | src/test/java/com/dws/challenge/AccountsControllerTest.java:138-145 | an empty id on either side, or on both (where the ids are also equal), fails validation before the same-account guard |
| Scenarios.TransferBetweenTwoAccounts | src/test/java/com/dws/challenge/AccountsControllerTest.java:149-168 | 1000.45 and 2000.45 with amount 100 give OK and leave 900.45 and 2100.45 |
| Scenarios.TransferWithInsufficientBalance | src/test/java/com/dws/challenge/AccountsControllerTest.java:172-184 | 100 and 200 with amount 101 give BAD_REQUEST "AccountId Id-123 doesnt have sufficient balance." and leave both balances as they were |

## Left out

- Concurrency is not modelled. This covers `ConcurrentHashMap` atomicity,
  `@Transactional` and any locking. The model is a sequential state machine,
  and each call is one atomic step.
- Notification text is left out because it depends on how `BigDecimal`
  prints. A notification is modelled as the notified account, the direction
  (debit or credit), the amount and the other account. The notification
  service itself is not part of this model.
- The redundant `accounts.put` calls after the update are not modelled. Nor
  is the fact that `getAccount` hands out the live stored object. The model
  updates the map directly and returns a copy.
- The `Account` class and `AccountsService` are not part of this model. The
  service is taken to pass each call straight to the repository.
- Account-creation validation is not modelled as checked logic, because its
  annotations are on the unseen `Account` class. The tests show a non-empty
  id and a present, non-negative balance. `CreatePreservesNonNegative` takes
  the non-negative balance as a hypothesis.
- AccountsRepository.TransferMoney requires every request field to be
  non-null. The only visible caller is the controller, whose `@Valid` and the
  `@NotNull` constraints guarantee this. Null fields reaching the repository
  directly are not modelled. Any non-null amount is accepted, as in the code.
- Spring routing, JSON (de)serialization and logging are left out. So are
  requests whose body is missing or cannot be parsed. The framework's body
  for failed constraints is the marker `ConstraintViolations`, not its real
  JSON.
