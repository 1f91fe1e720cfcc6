/**
 The balance-ledger chaincode: `sendAmount`, `getBalance`, `createAccount`,
 `createAccounts` and the name dispatch of `Invoke`. Every operation is a pure
 function from (store, arguments, fault oracle) to (outcome, new store).

 Balances are stored as text. Turning text into a number and back is left
 abstract: a `Codec` supplies `parse` and `format`, and the arithmetic in
 between is exact (`real`).
 */
module Bank {
  import opened Results
  import opened LedgerStore
  import Decimal

  /** Error kinds the operations report; the message text is not modelled. */
  datatype BankError =
    | WrongArgCount                            // sendAmount without exactly three arguments
    | BadAmount(amountText: string)            // amount text does not parse
    | NoSuchAccount(key: string)               // a store call on `key` failed
    | BadBalance(stored: string)               // stored balance text does not parse
    | NotEnoughFunds(balance: real, amount: real)
    | SetFailed(key: string)                   // a transfer's write to `key` failed
    | NoSuchMethod                             // unknown operation name

  /** What an operation hands back: a payload text, or an error. */
  datatype Outcome = Ok(payload: string) | Err(error: BankError)

  /** The outcome together with the store the operation leaves behind. */
  datatype Response = Response(out: Outcome, store: Store)

  /** Number text reading and writing, left abstract. */
  datatype Codec = Codec(parse: string -> Option<real>, format: real -> string)

  /** A transfer that has passed every check, with the balances it read. */
  datatype Transfer = Transfer(from: string, to: string, amount: real, acc1: real, acc2: real)
  {
    /** The sender's balance after the transfer: adding the amount back restores it. */
    function NewFrom(): (b: real)
      ensures b + amount == acc1
      ensures b <= acc1 <==> amount >= 0.0
    { acc1 - amount }

    /**
     The recipient's balance after the transfer: taking the amount away
     restores it, and together with the sender's the total is unchanged.
     */
    function NewTo(): (b: real)
      ensures b - amount == acc2
      ensures NewFrom() + b == acc1 + acc2
    { acc2 + amount }
  }

  // ---------------------------------------------------------------------------
  // sendAmount
  // ---------------------------------------------------------------------------

  /** The balance a successful read of `key` would parse to. */
  function ReadBalance(st: Store, key: string, codec: Codec): (r: Option<real>)
    ensures r == codec.parse(GetState(st, key, false).text)
    ensures key in st ==> r == codec.parse(st[key])
    ensures key !in st ==> r == codec.parse("")
  {
    codec.parse(Stored(st, key))
  }

  /**
   Declarative statement of when a transfer passes every check: three
   arguments, an amount that parses, both reads succeed, both stored balances
   parse, and the sender's balance is not below the amount.
   */
  ghost predicate Admissible(st: Store, args: seq<string>, faults: Faults, codec: Codec)
  {
    && |args| == 3
    && codec.parse(args[2]).Some?
    && !faults.getFails(0)
    && !faults.getFails(1)
    && ReadBalance(st, args[0], codec).Some?
    && ReadBalance(st, args[1], codec).Some?
    && !(ReadBalance(st, args[0], codec).value < codec.parse(args[2]).value)
  }

  /**
   Everything `sendAmount` does before its first write: check the argument
   count, parse the amount, read and parse both balances (sender first), and
   check that the sender has enough funds. Store call 0 reads `args[0]`,
   store call 1 reads `args[1]`.
   */
  function Prepare(st: Store, args: seq<string>, faults: Faults, codec: Codec): (r: Result<Transfer, BankError>)
    ensures r.Success? <==> Admissible(st, args, faults, codec)
    ensures r.Success? ==>
              && r.value.from == args[0] && r.value.to == args[1]
              && codec.parse(args[2]) == Some(r.value.amount)
              && ReadBalance(st, args[0], codec) == Some(r.value.acc1)
              && ReadBalance(st, args[1], codec) == Some(r.value.acc2)
              && r.value.amount <= r.value.acc1
    ensures r == Failure(WrongArgCount) <==> |args| != 3
    ensures r.Failure? && r.error.BadAmount? <==> |args| == 3 && codec.parse(args[2]).None?
    ensures r.Failure? && r.error.NotEnoughFunds? ==>
              && |args| == 3 && !faults.getFails(0) && !faults.getFails(1)
              && ReadBalance(st, args[0], codec) == Some(r.error.balance)
              && codec.parse(args[2]) == Some(r.error.amount)
              && r.error.balance < r.error.amount
  {
    if |args| != 3 then Failure(WrongArgCount)
    else
      match codec.parse(args[2])
      case None => Failure(BadAmount(args[2]))
      case Some(amount) =>
        match GetState(st, args[0], faults.getFails(0))
        case ReadErr => Failure(NoSuchAccount(args[0]))
        case ReadOk(data1) =>
          match codec.parse(data1)
          case None => Failure(BadBalance(data1))
          case Some(acc1) =>
            match GetState(st, args[1], faults.getFails(1))
            case ReadErr => Failure(NoSuchAccount(args[1]))
            case ReadOk(data2) =>
              match codec.parse(data2)
              case None => Failure(BadBalance(data2))
              case Some(acc2) =>
                if acc1 < amount then Failure(NotEnoughFunds(acc1, amount))
                else Success(Transfer(args[0], args[1], amount, acc1, acc2))
  }

  /**
   The write phase of `sendAmount`: the sender's new balance is written
   first (store call 0 of the writes), then the recipient's (call 1). A
   failed write stops the operation; an earlier write is not undone.
   */
  function Commit(st: Store, t: Transfer, faults: Faults, codec: Codec): (r: Response)
    ensures r.out.Ok? <==> !faults.putFails(0) && !faults.putFails(1)
    ensures r.out.Ok? ==> r.out.payload == "success"
    ensures faults.putFails(0) ==> r == Response(Err(SetFailed(t.from)), st)
    ensures !faults.putFails(0) && faults.putFails(1) ==>
              r == Response(Err(SetFailed(t.to)), st[t.from := codec.format(t.NewFrom())])
    ensures r.out.Ok? ==>
              r.store == st[t.from := codec.format(t.NewFrom())][t.to := codec.format(t.NewTo())]
  {
    var str1 := codec.format(t.NewFrom());
    var str2 := codec.format(t.NewTo());
    match PutState(st, t.from, str1, faults.putFails(0))
    case WriteErr => Response(Err(SetFailed(t.from)), st)
    case Written(s1) =>
      match PutState(s1, t.to, str2, faults.putFails(1))
      case WriteErr => Response(Err(SetFailed(t.to)), s1)
      case Written(s2) => Response(Ok("success"), s2)
  }

  /** `sendAmount(from, to, amount)`: move `amount` from one balance to another. */
  function SendAmount(st: Store, args: seq<string>, faults: Faults, codec: Codec): (r: Response)
    // nothing is written unless every check passes
    ensures !Admissible(st, args, faults, codec) ==> r.out.Err? && r.store == st
    // success needs the checks and both writes
    ensures r.out.Ok? <==>
              Admissible(st, args, faults, codec) && !faults.putFails(0) && !faults.putFails(1)
    ensures r.out.Ok? ==> r.out.payload == "success"
    // only a failed write of the recipient leaves a changed store behind an error
    ensures r.out.Err? && r.store != st ==> |args| == 3 && r.out.error == SetFailed(args[1])
    // only the two named accounts can change, and no key disappears
    ensures |args| == 3 ==> forall k :: k != args[0] && k != args[1] ==> SameAt(st, r.store, k)
    ensures st.Keys <= r.store.Keys
  {
    match Prepare(st, args, faults, codec)
    case Failure(e) => Response(Err(e), st)
    case Success(t) => Commit(st, t, faults, codec)
  }

  // ---------------------------------------------------------------------------
  // getBalance and createAccount
  // ---------------------------------------------------------------------------

  /**
   `getBalance(id)`: the stored text of `args[0]`, unparsed. The source does
   not check the argument count, so at least one argument is required.
   */
  function GetBalance(st: Store, args: seq<string>, faults: Faults): (r: Response)
    requires |args| >= 1
    ensures r.store == st
    ensures r.out.Ok? <==> !faults.getFails(0)
    ensures r.out.Ok? && args[0] in st ==> r.out.payload == st[args[0]]
    ensures r.out.Ok? && args[0] !in st ==> r.out.payload == ""
    ensures r.out.Err? ==> r.out.error == NoSuchAccount(args[0])
  {
    match GetState(st, args[0], faults.getFails(0))
    case ReadErr => Response(Err(NoSuchAccount(args[0])), st)
    case ReadOk(data) => Response(Ok(data), st)
  }

  /**
   `createAccount(id, text)`: store `text` under `id` verbatim, replacing any
   earlier value. A failed write is reported as `NoSuchAccount(id)`, the
   error the source raises there. At least two arguments are required.
   */
  function CreateAccount(st: Store, args: seq<string>, faults: Faults): (r: Response)
    requires |args| >= 2
    ensures r.out.Ok? <==> !faults.putFails(0)
    ensures r.out.Ok? ==> r.out.payload == "success"
    ensures r.out.Ok? ==> args[0] in r.store && r.store[args[0]] == args[1]
    ensures r.out.Ok? ==> forall k :: k != args[0] ==> SameAt(st, r.store, k)
    ensures r.out.Err? ==> r.out.error == NoSuchAccount(args[0]) && r.store == st
    ensures st.Keys <= r.store.Keys
  {
    match PutState(st, args[0], args[1], faults.putFails(0))
    case WriteErr => Response(Err(NoSuchAccount(args[0])), st)
    case Written(s) => Response(Ok("success"), s)
  }

  // ---------------------------------------------------------------------------
  // createAccounts
  // ---------------------------------------------------------------------------

  /** Iterations of the seeding loop: i runs from 1 to 99. */
  const SeedIterations: nat := 99

  /** The text every seeded account receives. */
  const SeedBalance: string := "100"

  /**
   The first key iteration i writes, "accounta<i>": the prefix followed by
   canonical decimal text that reads back as i.
   */
  function SeedKeyA(i: nat): string
  {
    "accounta" + Decimal.DecimalText(i)
  }

  /**
   The second key iteration i writes, "accountb<i>": the prefix followed by
   canonical decimal text that reads back as i.
   */
  function SeedKeyB(i: nat): string
  {
    "accountb" + Decimal.DecimalText(i)
  }

  /**
   True iff iteration i of the seeding loop wrote `key` successfully.
   Iteration i issues `PutState` calls 2(i-1) and 2(i-1)+1.
   */
  predicate SeedHit(key: string, faults: Faults, i: nat)
    requires i >= 1
  {
    || (SeedKeyA(i) == key && !faults.putFails(2 * (i - 1)))
    || (SeedKeyB(i) == key && !faults.putFails(2 * (i - 1) + 1))
  }

  /** True iff one of the first `n` iterations of the seeding loop wrote `key` successfully. */
  ghost predicate SeededBefore(key: string, faults: Faults, n: nat)
  {
    exists i :: 1 <= i <= n && SeedHit(key, faults, i)
  }

  /** One more iteration adds exactly the keys that iteration wrote successfully. */
  lemma SeededStep(key: string, faults: Faults, n: nat)
    ensures SeededBefore(key, faults, n + 1) <==> SeededBefore(key, faults, n) || SeedHit(key, faults, n + 1)
  {
  }

  /** A `PutState` of "100" whose outcome is dropped. */
  function PutSeed(st: Store, key: string, fails: bool): (r: Store)
    ensures fails ==> r == st
    ensures !fails ==> r == st[key := SeedBalance]
  {
    match PutState(st, key, SeedBalance, fails)
    case WriteErr => st
    case Written(s) => s
  }

  /** How one dropped-outcome write looks from `key`. */
  lemma PutSeedAt(st: Store, target: string, fails: bool, key: string)
    ensures key in PutSeed(st, target, fails) <==> key in st || (target == key && !fails)
    ensures key in PutSeed(st, target, fails) ==>
              PutSeed(st, target, fails)[key] == if target == key && !fails then SeedBalance else st[key]
  {
  }

  /**
   The store after the first `n` iterations of the seeding loop: no key is
   removed. `SeedStoreAt` says what each key holds.
   */
  function SeedStore(st: Store, faults: Faults, n: nat): (r: Store)
    ensures st.Keys <= r.Keys
    decreases n
  {
    if n == 0 then st
    else
      var prev := SeedStore(st, faults, n - 1);
      var afterA := PutSeed(prev, SeedKeyA(n), faults.putFails(2 * (n - 1)));
      PutSeed(afterA, SeedKeyB(n), faults.putFails(2 * (n - 1) + 1))
  }

  /**
   After `n` iterations `key` holds "100" iff some successful write targeted
   it, and otherwise keeps whatever it held (or stays absent).
   */
  lemma {:induction false} SeedStoreAt(st: Store, faults: Faults, n: nat, key: string)
    ensures key in SeedStore(st, faults, n) <==> key in st || SeededBefore(key, faults, n)
    ensures key in SeedStore(st, faults, n) ==>
              SeedStore(st, faults, n)[key] == if SeededBefore(key, faults, n) then SeedBalance else st[key]
    decreases n
  {
    if n > 0 {
      SeedStoreAt(st, faults, n - 1, key);
      SeededStep(key, faults, n - 1);
      var prev := SeedStore(st, faults, n - 1);
      var afterA := PutSeed(prev, SeedKeyA(n), faults.putFails(2 * (n - 1)));
      PutSeedAt(prev, SeedKeyA(n), faults.putFails(2 * (n - 1)), key);
      PutSeedAt(afterA, SeedKeyB(n), faults.putFails(2 * (n - 1) + 1), key);
    }
  }

  /** `SeedStoreAt` for every key at once. */
  lemma SeedStoreContents(st: Store, faults: Faults, n: nat)
    ensures forall k :: k in SeedStore(st, faults, n) <==> k in st || SeededBefore(k, faults, n)
    ensures forall k :: k in SeedStore(st, faults, n) ==>
              SeedStore(st, faults, n)[k] == if SeededBefore(k, faults, n) then SeedBalance else st[k]
  {
    forall k
      ensures k in SeedStore(st, faults, n) <==> k in st || SeededBefore(k, faults, n)
      ensures k in SeedStore(st, faults, n) ==>
                SeedStore(st, faults, n)[k] == if SeededBefore(k, faults, n) then SeedBalance else st[k]
    {
      SeedStoreAt(st, faults, n, k);
    }
  }

  /**
   `createAccounts()`: seed accounta1..accounta99 and accountb1..accountb99
   with "100", ignoring every write error, and report success.
   */
  function CreateAccounts(st: Store, faults: Faults): (r: Response)
    ensures r.out == Ok("success")
    ensures forall k :: k in r.store <==> k in st || SeededBefore(k, faults, SeedIterations)
    ensures forall k :: k in r.store ==>
              r.store[k] == if SeededBefore(k, faults, SeedIterations) then SeedBalance else st[k]
  {
    SeedStoreContents(st, faults, SeedIterations);
    Response(Ok("success"), SeedStore(st, faults, SeedIterations))
  }

  /**
   The seeding loop as written: for i from 1 to 99, write "accounta<i>" and
   then "accountb<i>", dropping the outcome of each write.
   */
  method RunCreateAccounts(st: Store, faults: Faults) returns (r: Response)
    ensures r.out == Ok("success")
    ensures forall k :: k in r.store <==> k in st || SeededBefore(k, faults, SeedIterations)
    ensures forall k :: k in r.store ==>
              r.store[k] == if SeededBefore(k, faults, SeedIterations) then SeedBalance else st[k]
  {
    var cur := st;
    var i := 1;
    while i < 100
      invariant 1 <= i <= 100
      invariant cur == SeedStore(st, faults, i - 1)
    {
      var w := PutState(cur, "accounta" + Decimal.DecimalText(i), SeedBalance, faults.putFails(2 * (i - 1)));
      if w.Written? {
        cur := w.store;
      }
      w := PutState(cur, "accountb" + Decimal.DecimalText(i), SeedBalance, faults.putFails(2 * (i - 1) + 1));
      if w.Written? {
        cur := w.store;
      }
      i := i + 1;
    }
    SeedStoreContents(st, faults, i - 1);
    r := Response(Ok("success"), cur);
  }

  // ---------------------------------------------------------------------------
  // Invoke
  // ---------------------------------------------------------------------------

  /** True iff `fn` names one of the four operations. */
  predicate IsOperation(fn: string)
  {
    fn in {"sendAmount", "getBalance", "createAccount", "createAccounts"}
  }

  /**
   `Invoke`: route a call by name. An unknown name is an error that leaves
   the store alone. `getBalance` and `createAccount` index their arguments
   without checking, so they must be given enough of them.
   */
  function Invoke(st: Store, fn: string, args: seq<string>, faults: Faults, codec: Codec): (r: Response)
    requires fn == "getBalance" ==> |args| >= 1
    requires fn == "createAccount" ==> |args| >= 2
    ensures !IsOperation(fn) ==> r == Response(Err(NoSuchMethod), st)
    ensures fn == "sendAmount" ==> r == SendAmount(st, args, faults, codec)
    ensures fn == "getBalance" ==> r == GetBalance(st, args, faults)
    ensures fn == "createAccount" ==> r == CreateAccount(st, args, faults)
    ensures fn == "createAccounts" ==> r == CreateAccounts(st, faults)
    ensures st.Keys <= r.store.Keys
  {
    if fn == "sendAmount" then SendAmount(st, args, faults, codec)
    else if fn == "getBalance" then GetBalance(st, args, faults)
    else if fn == "createAccount" then CreateAccount(st, args, faults)
    else if fn == "createAccounts" then CreateAccounts(st, faults)
    else Response(Err(NoSuchMethod), st)
  }
}
