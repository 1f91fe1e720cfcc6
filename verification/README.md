# Bank chaincode balance ledger, modelled in Dafny

This project models the balance-ledger chaincode of `tutorial1/bank/bank.go`:
a Hyperledger Fabric chaincode that keeps account balances as text in the
ledger's key-value world state and offers four operations through `Invoke`:

- `sendAmount(from, to, amount)`: parse the amount, read and parse both
  balances, refuse if the sender has less than the amount, then write the
  sender's new balance and after it the recipient's;
- `getBalance(id)`: return the stored text of `id` unparsed;
- `createAccount(id, text)`: store `text` under `id` verbatim;
- `createAccounts()`: store `"100"` under `accounta1..accounta99` and
  `accountb1..accountb99`, ignoring write errors.

Every operation is a pure function from (store, arguments, fault oracle) to
(outcome, new store):

- `LedgerStore` (`ledger_store.dfy`): the store as `map<string, string>`,
  `GetState`/`PutState`, and `Faults`, the oracle saying whether the k-th
  `GetState` or the k-th `PutState` of an invocation fails.
- `Decimal` (`decimal.dfy`): the `%d` rendering of the loop counter used to
  build the seeded keys, with its inverse.
- `Bank` (`bank.dfy`): the operations. `sendAmount` is split into `Prepare`
  (every check, before any write) and `Commit` (the two writes in order).
  Balance text is parsed and formatted by an abstract `Codec`
  (`parse: string -> Option<real>`, `format: real -> string`), and the
  arithmetic between them is exact.
- `BankProperties` (`bank_properties.dfy`): lemmas relating several facts or
  calls: conservation, write order and partial failure, self-transfer,
  negative amounts, create/read round trips, concrete scenarios, and the
  keys the seeding loop writes.

Behaviour of the code that the lemmas make explicit:

- A self-transfer (`from == to`) reads the balance `b` twice and then writes
  the same key twice, `b - amount` followed by `b + amount` (bank.go:97-101).
  The second write wins, so the account ends at `b + amount`
  (`SelfTransferEndsAtBalancePlusAmount`, `SelfTransferChangesBalance`).
- The amount may be negative. A negative amount passes the funds check
  whenever the sender's balance is not below it (bank.go:86), and then raises
  the sender and lowers the recipient, who can go negative
  (`NegativeAmountDebitsRecipient`, `NegativeAmountScenario`). A negative
  self-transfer can leave the account itself negative
  (`SelfTransferGoesNegativeScenario`).
- A failed second write leaves the sender's new balance written and the
  recipient unchanged, with no rollback (`WriteOrderAndPartialFailure`).
- `getBalance` fails only when the read itself fails (bank.go:111-115). An
  absent key reads as the empty text and is returned as a success.
- `createAccount` reports a failed write with the same error kind as a failed
  read, `NoSuchAccount(id)`, because that is the message the code raises.

## Model

| member | source | states |
|---|---|---|
| LedgerStore.GetState | tutorial1/bank/bank.go:66-69 | a read fails exactly when the oracle says so; otherwise it yields the stored text, or the empty text for an absent key |
| LedgerStore.PutState | tutorial1/bank/bank.go:97-100 | a write fails exactly when the oracle says so and then changes nothing; otherwise it binds the key to the value, keeps every other key's binding and removes no key |
| LedgerStore.PutThenGet | tutorial1/bank/bank.go:111-124 | reading a key just written gives back the written text; reading any other key is unaffected by the write |
| Decimal.DecimalText | tutorial1/bank/bank.go:130-132 | the `%d` text of a counter is non-empty, all digits, without a leading zero, and a single digit exactly for numbers below ten |
| Decimal.DecimalRoundTrip | tutorial1/bank/bank.go:130-132 | reading the decimal text back gives the number again |
| Decimal.DecimalTextInjective | tutorial1/bank/bank.go:130-132 | different counters give different texts |
| Bank.Transfer.NewFrom | tutorial1/bank/bank.go:91 | the sender's new balance is the old one less the amount: adding the amount back restores it, and it is not above the old balance iff the amount is not negative |
| Bank.Transfer.NewTo | tutorial1/bank/bank.go:92 | the recipient's new balance is the old one plus the amount: taking the amount away restores it, and the two new balances sum to the two old ones |
| Bank.ReadBalance | tutorial1/bank/bank.go:66-70 | the read-then-parse step of bank.go:66-70 and 76-80, used by `Admissible` and the lemmas; its contract only unfolds the body, and `ReadBalanceAfterWrite` is its partner |
| Bank.Prepare | tutorial1/bank/bank.go:55-88 | the checks pass iff there are three arguments, the amount and both stored balances parse, both reads succeed and the sender's balance is not below the amount; the passed transfer carries exactly those values; a wrong count is reported iff the count is not three; a bad amount iff the amount does not parse; not-enough-funds carries the sender's balance and the amount, with balance below amount |
| Bank.Commit | tutorial1/bank/bank.go:90-106 | success iff both writes succeed; a failed first write leaves the store as it was; a failed second write leaves only the sender's new balance written; success leaves sender at format(balance - amount) and then recipient at format(balance + amount) |
| Bank.SendAmount | tutorial1/bank/bank.go:53-107 | unless every check passes nothing is written and an error is returned; success iff the checks pass and both writes succeed, with payload "success"; the only error that leaves a changed store behind is the recipient's failed write; keys other than the two named ones never change and no key disappears |
| Bank.GetBalance | tutorial1/bank/bank.go:109-116 | never writes; succeeds iff the read succeeds, then returns the stored text verbatim (empty for an absent key); a failed read is reported as no such account |
| Bank.CreateAccount | tutorial1/bank/bank.go:118-125 | succeeds iff the write succeeds, then the key holds the given text verbatim and every other key is unchanged; a failed write reports no such account and changes nothing |
| Bank.SeedKeyA | tutorial1/bank/bank.go:130 | no contract; the first key of iteration i, taken apart by `SeedKeyParts` |
| Bank.SeedKeyB | tutorial1/bank/bank.go:132 | no contract; the second key of iteration i, taken apart by `SeedKeyParts` |
| Bank.SeedStore | tutorial1/bank/bank.go:129-134 | the store after the first n iterations of the loop removes no key; `SeedStoreAt` says what each key holds |
| Bank.PutSeed | tutorial1/bank/bank.go:131-133 | a seeding write whose error is dropped: a failure leaves the store as it was, a success binds the key to "100" |
| Bank.SeedStoreAt | tutorial1/bank/bank.go:129-134 | after n iterations of the seeding loop a key is rebound to "100" iff a successful seeding write of those iterations hit it; every other key keeps its earlier binding or stays absent |
| Bank.SeedStoreContents | tutorial1/bank/bank.go:129-134 | the same statement for every key at once |
| Bank.CreateAccounts | tutorial1/bank/bank.go:127-136 | always reports "success"; afterwards a key is rebound to "100" iff one of the 198 seeding writes hit it and succeeded; every other key keeps its earlier binding or stays absent |
| Bank.RunCreateAccounts | tutorial1/bank/bank.go:129-135 | the loop over i = 1..99 writing accounta<i> then accountb<i> and dropping each write's outcome ends in the store `CreateAccounts` describes and reports "success" |
| Bank.Invoke | tutorial1/bank/bank.go:22-51 | each of the four names routes to its operation; any other name is an error that leaves the store alone; no dispatched call removes a key |
| BankProperties.EarlyFailuresWriteNothing | tutorial1/bank/bank.go:55-83 | wrong argument count, unparsable amount, failed read of either account and unparsable stored balance each return their own error and leave the store exactly as it was |
| BankProperties.InsufficientFundsWriteNothing | tutorial1/bank/bank.go:85-88 | a sender balance below the amount gives not-enough-funds with both numbers and no write |
| BankProperties.TransferWritesBothBalances | tutorial1/bank/bank.go:90-106 | a successful transfer between distinct accounts leaves the sender at format(balance - amount) and the recipient at format(balance + amount), the sender's new balance is not negative, no other key changes |
| BankProperties.TransferConservesBalances | tutorial1/bank/bank.go:91-92 | when format is read back exactly, the two balances read after a successful distinct transfer sum to the two read before, and the sender's is not negative |
| BankProperties.NegativeAmountDebitsRecipient | tutorial1/bank/bank.go:85-101 | a negative amount passes the funds check whenever the sender's balance is not below it, and the transfer succeeds; the sender is stored at format(balance - amount) and the recipient at format(balance + amount) |
| BankProperties.WriteOrderAndPartialFailure | tutorial1/bank/bank.go:96-104 | after the checks pass: a failed sender write leaves the store unchanged; a failed recipient write leaves the sender's new balance written and the recipient untouched, with no rollback |
| BankProperties.SelfTransferEndsAtBalancePlusAmount | tutorial1/bank/bank.go:65-104 | with from equal to to and both writes succeeding the key ends at format(balance + amount); if only the second write fails it ends at format(balance - amount) |
| BankProperties.SelfTransferChangesBalance | tutorial1/bank/bank.go:65-104 | a successful self-transfer of a non-zero amount changes the balance read back, raising it by the amount |
| BankProperties.CreateThenGetBalance | tutorial1/bank/bank.go:109-124 | createAccount(id, text) followed by getBalance(id) returns text; getBalance of any other key answers as before |
| BankProperties.ReadBalanceAfterWrite | tutorial1/bank/bank.go:66-80 | a balance read right after a write of text to a key, or after createAccount(key, text), is the parse of that text; a balance read of any other key is unaffected by the write |
| BankProperties.CreateAccountOverwrites | tutorial1/bank/bank.go:118-124 | a second createAccount on the same id replaces the first text |
| BankProperties.GetBalanceUnaffectedByOtherWrites | tutorial1/bank/bank.go:53-124 | getBalance(id) answers the same before and after a sendAmount between two other accounts, whatever its outcome, and after a failed createAccount(id, text) |
| BankProperties.TransferScenario | tutorial1/bank/bank.go:53-124 | A=100, B=50, send 30 from A to B succeeds, then A reads "70" and B reads "80" |
| BankProperties.InsufficientFundsScenario | tutorial1/bank/bank.go:53-124 | A=10, B=0, send 30 gives not-enough-funds(10, 30) and both texts stay "10" and "0" |
| BankProperties.MalformedAmountScenario | tutorial1/bank/bank.go:59-63 | an amount "notanumber" that does not parse gives a bad-amount error and the store is unchanged |
| BankProperties.SelfTransferGoesNegativeScenario | tutorial1/bank/bank.go:85-104 | balance 5 sent to itself with amount -10 succeeds and leaves "-5" |
| BankProperties.NegativeAmountScenario | tutorial1/bank/bank.go:85-104 | A=5, B=0, send -3 from A to B succeeds and leaves A at "8", B at "-3" |
| BankProperties.SeedKeyParts | tutorial1/bank/bank.go:130-132 | the keys of iteration i are "accounta" and "accountb" followed by canonical decimal text that reads back as i |
| BankProperties.SeedKeysAAndBDiffer | tutorial1/bank/bank.go:130-132 | an accounta key never equals an accountb key |
| BankProperties.SeedKeysInjective | tutorial1/bank/bank.go:130-132 | two iterations that write the same key are the same iteration |
| BankProperties.SeedKeyExamples | tutorial1/bank/bank.go:129-133 | the first iteration writes "accounta1" and "accountb1", the last "accounta99" and "accountb99" |
| BankProperties.SeedKeysAreSeeded | tutorial1/bank/bank.go:129-134 | with no failed write, the keys the seeding loop hits are exactly accounta1..99 and accountb1..99 |
| BankProperties.FaultFreeSeeding | tutorial1/bank/bank.go:127-136 | with no failed write every one of accounta1..99 and accountb1..99 holds "100" and every other key is as before |
| BankProperties.SeedKeysDistinct | tutorial1/bank/bank.go:129-134 | for iterations i and j in 1..99, accounta<i> never equals accountb<j> (also for i = j), and different iterations give different accounta and different accountb keys: 198 distinct keys |

## Left out

- Floating point: `strconv.ParseFloat` and `strconv.FormatFloat` (bank.go:60, 70, 80, 93-94) are the abstract `Codec`; rounding, NaN and infinity acceptance, negative zero and the behaviour of `<` on NaN are not modelled, and the arithmetic is exact.
- TransferConservesBalances: holds for exact arithmetic and only when `format` is read back exactly at the two new balances; float64 addition and subtraction need not conserve.
- Fabric shim and protos: `shim.ChaincodeStubInterface`, `peer.Response`, `shim.Success`/`shim.Error`, `Init` (bank.go:17-19) and `main`/`shim.Start` (bank.go:139-143) are library calls; a response is an outcome plus the store.
- `GetState` on an absent key: the library is not part of this model; a successful read of an absent key is taken to yield empty text, and the code's branch on the read error is modelled through the oracle.
- Argument counts of `getBalance` and `createAccount`: the code indexes `args` unchecked (bank.go:111, 120) and would panic; the model requires enough arguments instead of inventing an error.
- Concurrency and transaction isolation between invocations, and what the ledger does with the writes of an invocation that returns an error, belong to the external ledger.
- Error message text: errors are kinds with the values the messages mention.
- The store-call failures are an oracle per invocation; why a call fails (I/O, validation) is not modelled.
