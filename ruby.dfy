/** The slice of Ruby's semantics that the Authority core relies on: values and
    their truthiness, the exceptions the core raises or lets through, and Hash
    as an insertion-ordered table that can be frozen in place. */
module Ruby {

  datatype Option<+T> = None | Some(value: T)

  /** A call that either returns a value or raises an exception. */
  datatype Result<+T, +E> = Ok(value: T) | Err(error: E) {
    predicate IsFailure() { Err? }
    function PropagateFailure<U>(): Result<U, E> requires Err? { Err(error) }
    function Extract(): T requires Ok? { value }
  }

  /** The Ruby values that flow through enforcement: resources, users, predicate
      results and option hashes. A hash value keeps its entries in insertion order. */
  datatype Value =
    | Nil
    | Bool(b: bool)
    | Int(i: int)
    | Str(s: string)
    | Sym(name: string)
    | Obj(id: nat)
    | HashVal(entries: seq<(Value, Value)>)

  /** Ruby truthiness: only nil and false are falsey. */
  predicate Truthy(v: Value) {
    v != Nil && v != Bool(false)
  }

  /** The exceptions of the model. SecurityViolation is the library's own error
      class; only its three fields are modelled. */
  datatype Failure =
    | ArgumentError(message: string)
    | NoMethodError(name: string)
    | FrozenError
    | SecurityViolation(user: Value, action: string, resource: Value)

  const OddHashArguments := "odd number of arguments for Hash"

  // ---------------------------------------------------------------------------
  // Hash contents as an insertion-ordered association list
  // ---------------------------------------------------------------------------

  /** No key occurs twice: what every Ruby Hash guarantees. */
  ghost predicate UniqueKeys<K, V>(h: seq<(K, V)>) {
    forall i, j :: 0 <= i < j < |h| ==> h[i].0 != h[j].0
  }

  /** Hash#keys: the keys in insertion order. */
  function Keys<K, V>(h: seq<(K, V)>): seq<K> {
    if h == [] then [] else [h[0].0] + Keys(h[1..])
  }

  /** Hash#values: the values in insertion order. */
  function Values<K, V>(h: seq<(K, V)>): seq<V> {
    if h == [] then [] else [h[0].1] + Values(h[1..])
  }

  /** Hash#[] as an option: the value stored under k, if any. */
  function Lookup<K(==), V>(h: seq<(K, V)>, k: K): Option<V> {
    if h == [] then None
    else if h[0].0 == k then Some(h[0].1)
    else Lookup(h[1..], k)
  }

  /** Hash#[]=: overwrite the value of an existing key where it stands, or
      append a new key at the end. */
  function Put<K(==), V>(h: seq<(K, V)>, k: K, v: V): seq<(K, V)> {
    if h == [] then [(k, v)]
    else if h[0].0 == k then [(k, v)] + h[1..]
    else [h[0]] + Put(h[1..], k, v)
  }

  /** The hash built by storing the pairs one after another, left to right
      (a literal, or Hash[] over a list of pairs). */
  function HashOf<K(==), V>(pairs: seq<(K, V)>): seq<(K, V)> {
    if pairs == [] then []
    else
      var n := |pairs| - 1;
      Put(HashOf(pairs[..n]), pairs[n].0, pairs[n].1)
  }

  /** Reference meaning of a list of pairs read as bindings: the value of the
      LAST pair with key k. */
  function LastBinding<K(==), V>(pairs: seq<(K, V)>, k: K): Option<V> {
    if pairs == [] then None
    else
      var n := |pairs| - 1;
      if pairs[n].0 == k then Some(pairs[n].1) else LastBinding(pairs[..n], k)
  }

  /** A flat even-length list k1, v1, k2, v2, ... paired up. */
  function PairUp<T>(flat: seq<T>): seq<(T, T)>
    requires |flat| % 2 == 0
  {
    if flat == [] then [] else [(flat[0], flat[1])] + PairUp(flat[2..])
  }

  /** The inverse of PairUp: a list of pairs spread out flat. */
  function Flatten<T>(pairs: seq<(T, T)>): seq<T> {
    if pairs == [] then [] else [pairs[0].0, pairs[0].1] + Flatten(pairs[1..])
  }

  /** Hash[*args]: a single hash argument is copied; otherwise the arguments are
      read as alternating keys and values, and an odd number of them is an
      ArgumentError. */
  function HashFromArgs(args: seq<Value>): (r: Result<seq<(Value, Value)>, Failure>)
    ensures r.Err? <==> |args| % 2 == 1 && !(|args| == 1 && args[0].HashVal?)
    ensures r.Err? ==> r.error == ArgumentError(OddHashArguments)
    ensures r.Ok? ==> UniqueKeys(r.value)
    ensures r.Ok? && |args| == 1 ==>
      forall k :: Lookup(r.value, k) == LastBinding(args[0].entries, k)
    ensures r.Ok? && |args| % 2 == 0 ==>
      forall k :: Lookup(r.value, k) == LastBinding(PairUp(args), k)
  {
    if |args| == 1 && args[0].HashVal? then
      HashOfUnique(args[0].entries);
      HashOfLookup(args[0].entries);
      Ok(HashOf(args[0].entries))
    else if |args| % 2 == 1 then
      Err(ArgumentError(OddHashArguments))
    else
      HashOfUnique(PairUp(args));
      HashOfLookup(PairUp(args));
      Ok(HashOf(PairUp(args)))
  }

  // ---------------------------------------------------------------------------
  // Lemmas about the association lists
  // ---------------------------------------------------------------------------

  /** keys and values have one entry per pair, and the value at position i is
      the one bound to the key at position i. */
  lemma {:induction false} KeysValuesAligned<K, V>(h: seq<(K, V)>, i: nat)
    requires UniqueKeys(h) && i < |h|
    ensures |Keys(h)| == |h| && |Values(h)| == |h|
    ensures Keys(h)[i] == h[i].0 && Values(h)[i] == h[i].1
    ensures Lookup(h, Keys(h)[i]) == Some(Values(h)[i])
  {
    if i == 0 {
      KeysLength(h[1..]);
      ValuesLength(h[1..]);
    } else {
      assert UniqueKeys(h[1..]) by {
        forall a, b | 0 <= a < b < |h[1..]| ensures h[1..][a].0 != h[1..][b].0 {
          assert h[1..][a] == h[a + 1] && h[1..][b] == h[b + 1];
        }
      }
      KeysValuesAligned(h[1..], i - 1);
      assert h[0].0 != h[i].0;
    }
  }

  lemma {:induction false} KeysLength<K, V>(h: seq<(K, V)>)
    ensures |Keys(h)| == |h|
  {
    if h != [] { KeysLength(h[1..]); }
  }

  lemma {:induction false} ValuesLength<K, V>(h: seq<(K, V)>)
    ensures |Values(h)| == |h|
  {
    if h != [] { ValuesLength(h[1..]); }
  }

  /** A key is bound exactly when it is among the keys. */
  lemma {:induction false} LookupKeys<K, V>(h: seq<(K, V)>, k: K)
    ensures Lookup(h, k).Some? <==> k in Keys(h)
  {
    if h != [] { LookupKeys(h[1..], k); }
  }

  /** After storing v under k, k is bound to v and every other binding is as before. */
  lemma {:induction false} PutLookup<K, V>(h: seq<(K, V)>, k: K, v: V, k': K)
    ensures Lookup(Put(h, k, v), k') == if k' == k then Some(v) else Lookup(h, k')
  {
    if h != [] && h[0].0 != k { PutLookup(h[1..], k, v, k'); }
  }

  /** Storing keeps the insertion order: an existing key keeps its place, a new
      key goes last. */
  lemma {:induction false} PutKeys<K, V>(h: seq<(K, V)>, k: K, v: V)
    ensures Keys(Put(h, k, v)) == if k in Keys(h) then Keys(h) else Keys(h) + [k]
  {
    if h != [] && h[0].0 != k {
      PutKeys(h[1..], k, v);
    }
  }

  /** Storing never duplicates a key. */
  lemma {:induction false} PutUnique<K, V>(h: seq<(K, V)>, k: K, v: V)
    requires UniqueKeys(h)
    ensures UniqueKeys(Put(h, k, v))
  {
    if h != [] && h[0].0 != k {
      assert UniqueKeys(h[1..]) by {
        forall a, b | 0 <= a < b < |h[1..]| ensures h[1..][a].0 != h[1..][b].0 {
          assert h[1..][a] == h[a + 1] && h[1..][b] == h[b + 1];
        }
      }
      PutUnique(h[1..], k, v);
      var t := Put(h[1..], k, v);
      PutKeys(h[1..], k, v);
      forall j | 0 <= j < |t| ensures t[j].0 != h[0].0 {
        KeysAt(t, j);
        KeysAt(h, 0);
        if j < |h| - 1 {
          KeysAt(h[1..], j);
          assert h[1..][j] == h[j + 1];
        }
        KeysLength(h[1..]);
      }
      var r := [h[0]] + t;
      forall a, b | 0 <= a < b < |r| ensures r[a].0 != r[b].0 {
        if a > 0 { assert r[a] == t[a - 1] && r[b] == t[b - 1]; }
        else { assert r[b] == t[b - 1]; }
      }
    } else if h != [] {
      var r := Put(h, k, v);
      forall a, b | 0 <= a < b < |r| ensures r[a].0 != r[b].0 {
        assert r[b] == h[b];
        if a > 0 { assert r[a] == h[a]; }
      }
    }
  }

  lemma {:induction false} KeysAt<K, V>(h: seq<(K, V)>, j: nat)
    requires j < |h|
    ensures |Keys(h)| == |h| && Keys(h)[j] == h[j].0
  {
    KeysLength(h);
    if j > 0 { KeysAt(h[1..], j - 1); }
  }

  /** Storing a key that is not there appends it. */
  lemma {:induction false} PutAbsent<K, V>(h: seq<(K, V)>, k: K, v: V)
    requires Lookup(h, k).None?
    ensures Put(h, k, v) == h + [(k, v)]
  {
    if h != [] {
      PutAbsent(h[1..], k, v);
      assert [h[0]] + (h[1..] + [(k, v)]) == h + [(k, v)];
    }
  }

  /** A hash built from pairs binds each key to the value of its last pair. */
  lemma {:induction false} HashOfLookup<K, V>(pairs: seq<(K, V)>)
    ensures forall k :: Lookup(HashOf(pairs), k) == LastBinding(pairs, k)
  {
    if pairs != [] {
      var n := |pairs| - 1;
      HashOfLookup(pairs[..n]);
      forall k ensures Lookup(HashOf(pairs), k) == LastBinding(pairs, k) {
        PutLookup(HashOf(pairs[..n]), pairs[n].0, pairs[n].1, k);
      }
    }
  }

  /** A hash built from pairs has unique keys. */
  lemma {:induction false} HashOfUnique<K, V>(pairs: seq<(K, V)>)
    ensures UniqueKeys(HashOf(pairs))
  {
    if pairs != [] {
      var n := |pairs| - 1;
      HashOfUnique(pairs[..n]);
      PutUnique(HashOf(pairs[..n]), pairs[n].0, pairs[n].1);
    }
  }

  /** When no key repeats, building a hash keeps every pair, in order. */
  lemma {:induction false} HashOfDistinct<K, V>(pairs: seq<(K, V)>)
    requires UniqueKeys(pairs)
    ensures HashOf(pairs) == pairs
  {
    if pairs != [] {
      var n := |pairs| - 1;
      assert UniqueKeys(pairs[..n]);
      HashOfDistinct(pairs[..n]);
      HashOfLookup(pairs[..n]);
      LastBindingAbsent(pairs[..n], pairs[n].0);
      PutAbsent(pairs[..n], pairs[n].0, pairs[n].1);
      assert pairs[..n] + [pairs[n]] == pairs;
    }
  }

  /** What a hash built from pairs holds: the last binding of each key, and
      exactly the pairs when no key repeats. */
  lemma HashOfFacts<K, V>(pairs: seq<(K, V)>)
    ensures UniqueKeys(HashOf(pairs))
    ensures forall k :: Lookup(HashOf(pairs), k) == LastBinding(pairs, k)
    ensures UniqueKeys(pairs) ==> HashOf(pairs) == pairs
  {
    HashOfUnique(pairs);
    HashOfLookup(pairs);
    if UniqueKeys(pairs) { HashOfDistinct(pairs); }
  }

  lemma {:induction false} LastBindingAbsent<K, V>(pairs: seq<(K, V)>, k: K)
    requires forall i :: 0 <= i < |pairs| ==> pairs[i].0 != k
    ensures LastBinding(pairs, k).None?
  {
    if pairs != [] {
      var n := |pairs| - 1;
      LastBindingAbsent(pairs[..n], k);
    }
  }

  /** Pairing up a flat list and spreading it out again gives the list back. */
  lemma {:induction false} FlattenPairUp<T>(flat: seq<T>)
    requires |flat| % 2 == 0
    ensures Flatten(PairUp(flat)) == flat
  {
    if flat != [] {
      FlattenPairUp(flat[2..]);
      assert PairUp(flat)[1..] == PairUp(flat[2..]);
    }
  }

  /** ... and spreading pairs out and pairing them up gives the pairs back. */
  lemma {:induction false} PairUpFlatten<T>(pairs: seq<(T, T)>)
    ensures |Flatten(pairs)| == 2 * |pairs|
    ensures PairUp(Flatten(pairs)) == pairs
  {
    if pairs != [] {
      PairUpFlatten(pairs[1..]);
      assert Flatten(pairs)[2..] == Flatten(pairs[1..]);
    }
  }

  // ---------------------------------------------------------------------------
  // A Hash object: its entries can change in place unless it is frozen
  // ---------------------------------------------------------------------------

  class Hash<K(==), V> {
    var entries: seq<(K, V)>
    var frozen: bool

    ghost predicate Valid()
      reads this
    {
      UniqueKeys(entries)
    }

    /** A hash literal: the pairs stored left to right, not frozen. */
    constructor (pairs: seq<(K, V)>)
      ensures Valid() && !frozen && entries == HashOf(pairs)
      ensures forall k :: Lookup(entries, k) == LastBinding(pairs, k)
      ensures UniqueKeys(pairs) ==> entries == pairs
    {
      entries := HashOf(pairs);
      frozen := false;
      new;
      HashOfUnique(pairs);
      HashOfLookup(pairs);
      if UniqueKeys(pairs) { HashOfDistinct(pairs); }
    }

    /** Object#freeze: from now on the hash refuses in-place changes; freezing
        a frozen hash changes nothing. */
    method Freeze()
      modifies this
      ensures frozen && entries == old(entries)
    {
      frozen := true;
    }

    /** Hash#[]=: raises FrozenError on a frozen hash and changes nothing;
        otherwise stores v under k and returns v. */
    method Store(k: K, v: V) returns (r: Result<V, Failure>)
      requires Valid()
      modifies this
      ensures Valid() && frozen == old(frozen)
      ensures old(frozen) ==> r == Err(FrozenError) && entries == old(entries)
      ensures !old(frozen) ==> r == Ok(v) && entries == Put(old(entries), k, v)
    {
      if frozen {
        r := Err(FrozenError);
      } else {
        PutUnique(entries, k, v);
        entries := Put(entries, k, v);
        r := Ok(v);
      }
    }
  }
}
