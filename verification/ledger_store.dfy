/**
 The key-value world state the chaincode runs against. A store maps keys to
 the text stored under them. `GetState` and `PutState` are the only two calls
 the bank makes; whether a call fails is not visible to the bank's code, so it
 is supplied from outside by a fault oracle.
 */
module LedgerStore {

  /** The world state: key to stored text. */
  type Store = map<string, string>

  /** Outcome of one `GetState` call. */
  datatype ReadResult = ReadOk(text: string) | ReadErr

  /** Outcome of one `PutState` call: the updated store, or a failure. */
  datatype WriteResult = Written(store: Store) | WriteErr

  /**
   Which store calls fail during ONE invocation: `getFails(k)` says whether
   the k-th `GetState` of that invocation (counting from 0) returns an error,
   `putFails(k)` the same for the k-th `PutState`.
   */
  datatype Faults = Faults(getFails: nat -> bool, putFails: nat -> bool)

  /** An invocation during which every store call succeeds. */
  function NoFaults(): (f: Faults)
    ensures forall k: nat :: !f.getFails(k) && !f.putFails(k)
  {
    Faults(_ => false, _ => false)
  }

  /**
   The text a successful read of `key` yields: the stored text, or the empty
   text when nothing is stored (no bytes come back and no error is raised).
   */
  function Stored(st: Store, key: string): string
  {
    if key in st then st[key] else ""
  }

  /** True iff `key` is bound alike, or absent alike, in both stores. */
  predicate SameAt(st: Store, st': Store, key: string)
  {
    (key in st <==> key in st') && (key in st ==> st[key] == st'[key])
  }

  /** `GetState(key)`: a read that fails exactly when the oracle says so. */
  function GetState(st: Store, key: string, fails: bool): (r: ReadResult)
    ensures r.ReadErr? <==> fails
    ensures r.ReadOk? ==> r.text == Stored(st, key)
  {
    if fails then ReadErr else ReadOk(Stored(st, key))
  }

  /**
   `PutState(key, value)`: on success `key` is bound to `value` and every
   other key keeps its binding; on failure nothing is written.
   */
  function PutState(st: Store, key: string, value: string, fails: bool): (r: WriteResult)
    ensures r.WriteErr? <==> fails
    ensures r.Written? ==> key in r.store && r.store[key] == value
    ensures r.Written? ==> forall k :: k != key ==> SameAt(st, r.store, k)
    ensures r.Written? ==> r.store.Keys == st.Keys + {key}
  {
    if fails then WriteErr else Written(st[key := value])
  }

  /** A write followed by a read of the same key gives back the written text. */
  lemma PutThenGet(st: Store, key: string, value: string, other: string)
    ensures var w := PutState(st, key, value, false);
            GetState(w.store, key, false) == ReadOk(value)
    ensures var w := PutState(st, key, value, false);
            other != key ==> GetState(w.store, other, false) == GetState(st, other, false)
  {
  }
}
