/**
 Properties of the balance ledger that relate several facts or several calls:
 what a transfer writes and when it writes nothing, conservation, the order
 of the two writes, self-transfer, negative amounts, create/read round trips,
 and the keys `createAccounts` seeds.
 */
module BankProperties {
  import opened Results
  import opened LedgerStore
  import opened Bank
  import Decimal

  // ---------------------------------------------------------------------------
  // sendAmount: failures before any write
  // ---------------------------------------------------------------------------

  /**
   Every failure that happens before the first write returns its own error
   kind and leaves the store exactly as it was.
   */
  lemma EarlyFailuresWriteNothing(st: Store, args: seq<string>, faults: Faults, codec: Codec)
    ensures |args| != 3 ==>
              SendAmount(st, args, faults, codec) == Response(Err(WrongArgCount), st)
    ensures |args| == 3 && codec.parse(args[2]).None? ==>
              SendAmount(st, args, faults, codec) == Response(Err(BadAmount(args[2])), st)
    ensures |args| == 3 && codec.parse(args[2]).Some? && faults.getFails(0) ==>
              SendAmount(st, args, faults, codec) == Response(Err(NoSuchAccount(args[0])), st)
    ensures |args| == 3 && codec.parse(args[2]).Some? && !faults.getFails(0)
            && ReadBalance(st, args[0], codec).None? ==>
              SendAmount(st, args, faults, codec) == Response(Err(BadBalance(Stored(st, args[0]))), st)
    ensures |args| == 3 && codec.parse(args[2]).Some? && !faults.getFails(0)
            && ReadBalance(st, args[0], codec).Some? && faults.getFails(1) ==>
              SendAmount(st, args, faults, codec) == Response(Err(NoSuchAccount(args[1])), st)
    ensures |args| == 3 && codec.parse(args[2]).Some? && !faults.getFails(0)
            && ReadBalance(st, args[0], codec).Some? && !faults.getFails(1)
            && ReadBalance(st, args[1], codec).None? ==>
              SendAmount(st, args, faults, codec) == Response(Err(BadBalance(Stored(st, args[1]))), st)
  {
  }

  /**
   A sender whose balance is below the amount gets `NotEnoughFunds`
   carrying both numbers, and nothing is written.
   */
  lemma InsufficientFundsWriteNothing(st: Store, args: seq<string>, faults: Faults, codec: Codec,
                                      bal1: real, amount: real)
    requires |args| == 3
    requires codec.parse(args[2]) == Some(amount)
    requires !faults.getFails(0) && !faults.getFails(1)
    requires ReadBalance(st, args[0], codec) == Some(bal1)
    requires ReadBalance(st, args[1], codec).Some?
    requires bal1 < amount
    ensures SendAmount(st, args, faults, codec) == Response(Err(NotEnoughFunds(bal1, amount)), st)
  {
  }

  // ---------------------------------------------------------------------------
  // sendAmount: what is written
  // ---------------------------------------------------------------------------

  /**
   A successful transfer between two distinct accounts writes the sender's
   balance minus the amount and the recipient's balance plus the amount,
   each formatted; the sender's new balance is not negative; nothing else
   changes.
   */
  lemma TransferWritesBothBalances(st: Store, args: seq<string>, faults: Faults, codec: Codec,
                                   bal1: real, bal2: real, amount: real)
    requires |args| == 3 && args[0] != args[1]
    requires SendAmount(st, args, faults, codec).out.Ok?
    requires codec.parse(args[2]) == Some(amount)
    requires ReadBalance(st, args[0], codec) == Some(bal1)
    requires ReadBalance(st, args[1], codec) == Some(bal2)
    ensures var r := SendAmount(st, args, faults, codec);
            && args[0] in r.store && r.store[args[0]] == codec.format(bal1 - amount)
            && args[1] in r.store && r.store[args[1]] == codec.format(bal2 + amount)
            && (forall k :: k != args[0] && k != args[1] ==> SameAt(st, r.store, k))
    ensures bal1 - amount >= 0.0
  {
  }

  /**
   Conservation: when `format` writes the two new balances so that `parse`
   reads them back exactly, the two balances read after a successful
   transfer between distinct accounts add up to what they added up to before,
   and the sender's balance read back is not negative.
   */
  lemma TransferConservesBalances(st: Store, args: seq<string>, faults: Faults, codec: Codec,
                                  bal1: real, bal2: real, amount: real)
    requires |args| == 3 && args[0] != args[1]
    requires SendAmount(st, args, faults, codec).out.Ok?
    requires codec.parse(args[2]) == Some(amount)
    requires ReadBalance(st, args[0], codec) == Some(bal1)
    requires ReadBalance(st, args[1], codec) == Some(bal2)
    requires codec.parse(codec.format(bal1 - amount)) == Some(bal1 - amount)
    requires codec.parse(codec.format(bal2 + amount)) == Some(bal2 + amount)
    ensures var after := SendAmount(st, args, faults, codec).store;
            && ReadBalance(after, args[0], codec).Some?
            && ReadBalance(after, args[1], codec).Some?
            && ReadBalance(after, args[0], codec).value + ReadBalance(after, args[1], codec).value
               == bal1 + bal2
            && ReadBalance(after, args[0], codec).value >= 0.0
  {
  }

  /**
   The amount is not required to be positive: a negative amount passes the
   funds check whenever the sender's balance is not below it, and then raises
   the sender's balance and lowers the recipient's.
   */
  lemma NegativeAmountDebitsRecipient(st: Store, args: seq<string>, faults: Faults, codec: Codec,
                                      bal1: real, bal2: real, amount: real)
    requires |args| == 3 && args[0] != args[1]
    requires codec.parse(args[2]) == Some(amount) && amount < 0.0
    requires !faults.getFails(0) && !faults.getFails(1)
    requires !faults.putFails(0) && !faults.putFails(1)
    requires ReadBalance(st, args[0], codec) == Some(bal1) && bal1 >= amount
    requires ReadBalance(st, args[1], codec) == Some(bal2)
    ensures SendAmount(st, args, faults, codec).out == Ok("success")
    ensures SendAmount(st, args, faults, codec).store[args[0]] == codec.format(bal1 - amount)
    ensures SendAmount(st, args, faults, codec).store[args[1]] == codec.format(bal2 + amount)
    // with amount < 0, bal1 - amount is above bal1 and bal2 + amount below bal2
  {
  }

  // ---------------------------------------------------------------------------
  // sendAmount: order of the two writes
  // ---------------------------------------------------------------------------

  /**
   The sender is written first. If that write fails the store is unchanged;
   if the recipient's write fails the sender's new balance stays written, the
   recipient keeps its old binding, and nothing is rolled back.
   */
  lemma WriteOrderAndPartialFailure(st: Store, args: seq<string>, faults: Faults, codec: Codec,
                                    bal1: real, amount: real)
    requires |args| == 3
    requires Admissible(st, args, faults, codec)
    requires codec.parse(args[2]) == Some(amount)
    requires ReadBalance(st, args[0], codec) == Some(bal1)
    ensures faults.putFails(0) ==>
              SendAmount(st, args, faults, codec) == Response(Err(SetFailed(args[0])), st)
    ensures !faults.putFails(0) && faults.putFails(1) ==>
              SendAmount(st, args, faults, codec)
              == Response(Err(SetFailed(args[1])), st[args[0] := codec.format(bal1 - amount)])
    ensures !faults.putFails(0) && faults.putFails(1) && args[0] != args[1] ==>
              SameAt(st, SendAmount(st, args, faults, codec).store, args[1])
  {
  }

  // ---------------------------------------------------------------------------
  // sendAmount: self-transfer
  // ---------------------------------------------------------------------------

  /**
   Sending to oneself reads the same balance twice before writing, so the
   second write (balance plus amount) overwrites the first (balance minus
   amount): the account ends at its balance plus the amount. If the second
   write fails it is left at its balance minus the amount.
   */
  lemma SelfTransferEndsAtBalancePlusAmount(st: Store, args: seq<string>, faults: Faults, codec: Codec,
                                            bal: real, amount: real)
    requires |args| == 3 && args[0] == args[1]
    requires codec.parse(args[2]) == Some(amount)
    requires !faults.getFails(0) && !faults.getFails(1)
    requires ReadBalance(st, args[0], codec) == Some(bal) && amount <= bal
    ensures !faults.putFails(0) && !faults.putFails(1) ==>
              SendAmount(st, args, faults, codec)
              == Response(Ok("success"), st[args[0] := codec.format(bal + amount)])
    ensures !faults.putFails(0) && faults.putFails(1) ==>
              SendAmount(st, args, faults, codec).store == st[args[0] := codec.format(bal - amount)]
  {
  }

  /**
   With an exact codec a successful self-transfer of a non-zero amount does
   not leave the balance as it was: it grows by the amount.
   */
  lemma SelfTransferChangesBalance(st: Store, args: seq<string>, faults: Faults, codec: Codec,
                                   bal: real, amount: real)
    requires |args| == 3 && args[0] == args[1]
    requires codec.parse(args[2]) == Some(amount) && amount != 0.0
    requires ReadBalance(st, args[0], codec) == Some(bal)
    requires SendAmount(st, args, faults, codec).out.Ok?
    requires codec.parse(codec.format(bal + amount)) == Some(bal + amount)
    ensures ReadBalance(SendAmount(st, args, faults, codec).store, args[0], codec) == Some(bal + amount)
    ensures ReadBalance(SendAmount(st, args, faults, codec).store, args[0], codec) != Some(bal)
  {
  }

  // ---------------------------------------------------------------------------
  // getBalance and createAccount
  // ---------------------------------------------------------------------------

  /** `createAccount(id, text)` then `getBalance(id)` returns `text` verbatim. */
  lemma CreateThenGetBalance(st: Store, id: string, text: string, other: string)
    ensures var created := CreateAccount(st, [id, text], NoFaults());
            GetBalance(created.store, [id], NoFaults()).out == Ok(text)
    ensures var created := CreateAccount(st, [id, text], NoFaults());
            other != id ==>
              GetBalance(created.store, [other], NoFaults()).out == GetBalance(st, [other], NoFaults()).out
  {
  }

  /**
   A balance read right after a write of `text` to `key` is the parse of
   `text`; a balance read of any other key is unaffected by the write.
   */
  lemma ReadBalanceAfterWrite(st: Store, key: string, other: string, text: string, codec: Codec)
    ensures ReadBalance(PutState(st, key, text, false).store, key, codec) == codec.parse(text)
    ensures other != key ==>
              ReadBalance(PutState(st, key, text, false).store, other, codec) == ReadBalance(st, other, codec)
    ensures ReadBalance(CreateAccount(st, [key, text], NoFaults()).store, key, codec) == codec.parse(text)
  {
  }

  /** A later `createAccount` on the same id overwrites an earlier one. */
  lemma CreateAccountOverwrites(st: Store, id: string, first: string, second: string)
    ensures var s1 := CreateAccount(st, [id, first], NoFaults()).store;
            var s2 := CreateAccount(s1, [id, second], NoFaults()).store;
            GetBalance(s2, [id], NoFaults()).out == Ok(second)
  {
  }

  /**
   Reading `id` gives the same answer before and after a `sendAmount` between
   two other accounts (whatever its outcome) and after a failed
   `createAccount(id, …)`: neither touches `id`.
   */
  lemma GetBalanceUnaffectedByOtherWrites(st: Store, id: string, readFaults: Faults,
                                          transfer: seq<string>, text: string, faults: Faults, codec: Codec)
    requires |transfer| == 3 && transfer[0] != id && transfer[1] != id
    ensures var between := SendAmount(st, transfer, faults, codec).store;
            GetBalance(between, [id], readFaults) == Response(GetBalance(st, [id], readFaults).out, between)
    ensures faults.putFails(0) ==>
              var between := CreateAccount(st, [id, text], faults).store;
              GetBalance(between, [id], readFaults) == GetBalance(st, [id], readFaults)
  {
  }

  // ---------------------------------------------------------------------------
  // Concrete scenarios
  // ---------------------------------------------------------------------------

  /** A=100, B=50, send 30 from A to B: A reads "70", B reads "80". */
  lemma TransferScenario(st: Store, codec: Codec)
    requires codec.parse("100") == Some(100.0) && codec.parse("50") == Some(50.0)
    requires codec.parse("30") == Some(30.0)
    requires codec.format(70.0) == "70" && codec.format(80.0) == "80"
    ensures var s1 := CreateAccount(st, ["A", "100"], NoFaults()).store;
            var s2 := CreateAccount(s1, ["B", "50"], NoFaults()).store;
            var r := SendAmount(s2, ["A", "B", "30"], NoFaults(), codec);
            && r.out == Ok("success")
            && GetBalance(r.store, ["A"], NoFaults()).out == Ok("70")
            && GetBalance(r.store, ["B"], NoFaults()).out == Ok("80")
  {
  }

  /** A=10, B=0, send 30 from A to B: refused, both texts unchanged. */
  lemma InsufficientFundsScenario(st: Store, codec: Codec)
    requires codec.parse("10") == Some(10.0) && codec.parse("0") == Some(0.0)
    requires codec.parse("30") == Some(30.0)
    ensures var s1 := CreateAccount(st, ["A", "10"], NoFaults()).store;
            var s2 := CreateAccount(s1, ["B", "0"], NoFaults()).store;
            var r := SendAmount(s2, ["A", "B", "30"], NoFaults(), codec);
            && r.out == Err(NotEnoughFunds(10.0, 30.0))
            && GetBalance(r.store, ["A"], NoFaults()).out == Ok("10")
            && GetBalance(r.store, ["B"], NoFaults()).out == Ok("0")
  {
  }

  /** An amount that does not parse is refused before anything is read. */
  lemma MalformedAmountScenario(st: Store, faults: Faults, codec: Codec)
    requires codec.parse("notanumber") == None
    ensures SendAmount(st, ["A", "B", "notanumber"], faults, codec)
            == Response(Err(BadAmount("notanumber")), st)
  {
  }

  /**
   A self-transfer of a negative amount succeeds and can leave the account
   negative: balance 5, amount -10, the account ends at -5.
   */
  lemma SelfTransferGoesNegativeScenario(st: Store, codec: Codec)
    requires codec.parse("5") == Some(5.0) && codec.parse("-10") == Some(-10.0)
    requires codec.format(-5.0) == "-5"
    ensures var r := SendAmount(st["A" := "5"], ["A", "A", "-10"], NoFaults(), codec);
            r.out == Ok("success") && r.store["A"] == "-5"
  {
  }

  /** A=5, B=0, send -3 from A to B: A rises to 8, B falls to -3. */
  lemma NegativeAmountScenario(st: Store, codec: Codec)
    requires codec.parse("5") == Some(5.0) && codec.parse("0") == Some(0.0)
    requires codec.parse("-3") == Some(-3.0)
    requires codec.format(8.0) == "8" && codec.format(-3.0) == "-3"
    ensures var r := SendAmount(st["A" := "5"]["B" := "0"], ["A", "B", "-3"], NoFaults(), codec);
            r.out == Ok("success") && r.store["A"] == "8" && r.store["B"] == "-3"
  {
  }

  // ---------------------------------------------------------------------------
  // createAccounts
  // ---------------------------------------------------------------------------

  /**
   A seeded key is its family's prefix followed by canonical decimal text
   that reads back as the iteration number.
   */
  lemma SeedKeyParts(i: nat)
    ensures |SeedKeyA(i)| > 8 && SeedKeyA(i)[..8] == "accounta"
    ensures |SeedKeyB(i)| > 8 && SeedKeyB(i)[..8] == "accountb"
    ensures Decimal.IsCanonical(SeedKeyA(i)[8..]) && Decimal.DecimalValue(SeedKeyA(i)[8..]) == i
    ensures Decimal.IsCanonical(SeedKeyB(i)[8..]) && Decimal.DecimalValue(SeedKeyB(i)[8..]) == i
  {
    assert SeedKeyA(i)[8..] == Decimal.DecimalText(i);
    assert SeedKeyB(i)[8..] == Decimal.DecimalText(i);
    Decimal.DecimalRoundTrip(i);
  }

  /** The "accounta" keys and the "accountb" keys never collide. */
  lemma SeedKeysAAndBDiffer(i: nat, j: nat)
    ensures SeedKeyA(i) != SeedKeyB(j)
  {
    assert SeedKeyA(i)[7] == 'a' && SeedKeyB(j)[7] == 'b';
  }

  /** Different iterations write different keys. */
  lemma SeedKeysInjective(i: nat, j: nat)
    ensures SeedKeyA(i) == SeedKeyA(j) ==> i == j
    ensures SeedKeyB(i) == SeedKeyB(j) ==> i == j
  {
    var a, b := Decimal.DecimalText(i), Decimal.DecimalText(j);
    if SeedKeyA(i) == SeedKeyA(j) {
      assert a == SeedKeyA(i)[8..] && b == SeedKeyA(j)[8..];
      Decimal.DecimalTextInjective(i, j);
    }
    if SeedKeyB(i) == SeedKeyB(j) {
      assert a == SeedKeyB(i)[8..] && b == SeedKeyB(j)[8..];
      Decimal.DecimalTextInjective(i, j);
    }
  }

  /** The first and last keys of each family, spelt out. */
  lemma SeedKeyExamples()
    ensures SeedKeyA(1) == "accounta1" && SeedKeyB(1) == "accountb1"
    ensures SeedKeyA(99) == "accounta99" && SeedKeyB(99) == "accountb99"
  {
  }

  /**
   True iff `key` is one of accounta1..accounta99, accountb1..accountb99,
   listed without reference to the fault oracle.
   */
  ghost predicate IsSeedKey(key: string)
  {
    exists i :: 1 <= i <= SeedIterations && (SeedKeyA(i) == key || SeedKeyB(i) == key)
  }

  /** With no failed write, the keys the seeding loop hits are exactly the seed keys. */
  lemma SeedKeysAreSeeded(key: string)
    ensures IsSeedKey(key) <==> SeededBefore(key, NoFaults(), SeedIterations)
  {
    if IsSeedKey(key) {
      var i :| 1 <= i <= SeedIterations && (SeedKeyA(i) == key || SeedKeyB(i) == key);
      assert SeedHit(key, NoFaults(), i);
    }
    if SeededBefore(key, NoFaults(), SeedIterations) {
      var i :| 1 <= i <= SeedIterations && SeedHit(key, NoFaults(), i);
      assert SeedKeyA(i) == key || SeedKeyB(i) == key;
    }
  }

  /**
   With no failed write, `createAccounts` leaves every one of the keys
   accounta1..accounta99 and accountb1..accountb99 holding "100", and every
   other key as it was.
   */
  lemma FaultFreeSeeding(st: Store, key: string)
    ensures CreateAccounts(st, NoFaults()).out == Ok("success")
    ensures IsSeedKey(key) ==>
              key in CreateAccounts(st, NoFaults()).store
              && CreateAccounts(st, NoFaults()).store[key] == SeedBalance
    ensures !IsSeedKey(key) ==> SameAt(st, CreateAccounts(st, NoFaults()).store, key)
  {
    SeedKeysAreSeeded(key);
  }

  /** The 198 seeding writes target 198 distinct keys. */
  lemma SeedKeysDistinct(i: nat, j: nat)
    requires 1 <= i <= SeedIterations && 1 <= j <= SeedIterations
    ensures i != j ==> SeedKeyA(i) != SeedKeyA(j) && SeedKeyB(i) != SeedKeyB(j)
    ensures SeedKeyA(i) != SeedKeyB(j)
  {
    SeedKeysInjective(i, j);
    SeedKeysAAndBDiffer(i, j);
  }
}
