/**
 * An ordered table from command patterns to handlers, as a PHP array with
 * string keys behaves: assigning to a key already present replaces its value
 * where it stands, assigning to a new key appends it at the end, and reading
 * a key finds its one entry.
 */
module HandlerTable {

  datatype Option<T> = None | Some(value: T)

  type Table<T> = seq<(string, T)>

  function Keys<T>(t: Table<T>): (ks: seq<string>)
    ensures |ks| == |t|
    ensures forall i :: 0 <= i < |t| ==> ks[i] == t[i].0
  {
    if t == [] then [] else [t[0].0] + Keys(t[1..])
  }

  ghost predicate Distinct(ks: seq<string>) {
    forall i, j :: 0 <= i < j < |ks| ==> ks[i] != ks[j]
  }

  /** `$table[$key]`: the value stored under `key`, if any. */
  function Lookup<T>(t: Table<T>, key: string): Option<T> {
    if t == [] then None
    else if t[0].0 == key then Some(t[0].1)
    else Lookup(t[1..], key)
  }

  /** `$table[$key] = $value`. */
  function Put<T>(t: Table<T>, key: string, value: T): Table<T> {
    if t == [] then [(key, value)]
    else if t[0].0 == key then [(key, value)] + t[1..]
    else [t[0]] + Put(t[1..], key, value)
  }

  /** A key is present exactly when a lookup finds something. */
  lemma {:induction false} LookupFindsKeys<T>(t: Table<T>, key: string)
    ensures Lookup(t, key).Some? <==> key in Keys(t)
  {
    if t != [] {
      LookupFindsKeys(t[1..], key);
      assert Keys(t) == [t[0].0] + Keys(t[1..]);
    }
  }

  /** After a put, the key reads back the new value and every other key reads as before. */
  lemma {:induction false} LookupPut<T>(t: Table<T>, key: string, value: T, other: string)
    ensures Lookup(Put(t, key, value), other) == if other == key then Some(value) else Lookup(t, other)
  {
    if t != [] && t[0].0 != key {
      LookupPut(t[1..], key, value, other);
    }
  }

  /** A put keeps every existing key at its position and appends a key not yet present. */
  lemma {:induction false} KeysPut<T>(t: Table<T>, key: string, value: T)
    ensures Keys(Put(t, key, value)) == if key in Keys(t) then Keys(t) else Keys(t) + [key]
  {
    if t == [] {
    } else if t[0].0 == key {
      assert Keys(t) == [key] + Keys(t[1..]);
      assert Keys(Put(t, key, value)) == [key] + Keys(t[1..]);
    } else {
      KeysPut(t[1..], key, value);
      assert Keys(t) == [t[0].0] + Keys(t[1..]);
      assert Keys(Put(t, key, value)) == [t[0].0] + Keys(Put(t[1..], key, value));
    }
  }

  /** A put never introduces a second entry for a key. */
  lemma PutKeepsDistinct<T>(t: Table<T>, key: string, value: T)
    requires Distinct(Keys(t))
    ensures Distinct(Keys(Put(t, key, value)))
  {
    KeysPut(t, key, value);
  }

  /** `$table[$k] = $v` for each (k, v) of `writes`, in order. */
  function PutAll<T>(t: Table<T>, writes: seq<(string, T)>): Table<T>
    decreases |writes|
  {
    if writes == [] then t
    else
      var last := writes[|writes| - 1];
      Put(PutAll(t, writes[..|writes| - 1]), last.0, last.1)
  }

  /** Assignments never leave two entries for one key. */
  lemma {:induction false} PutAllKeepsDistinct<T>(t: Table<T>, writes: seq<(string, T)>)
    requires Distinct(Keys(t))
    ensures Distinct(Keys(PutAll(t, writes)))
    decreases |writes|
  {
    if writes != [] {
      var last := writes[|writes| - 1];
      PutAllKeepsDistinct(t, writes[..|writes| - 1]);
      PutKeepsDistinct(PutAll(t, writes[..|writes| - 1]), last.0, last.1);
    }
  }

  /** Keys already present keep their place; new keys come after them. */
  lemma {:induction false} PutAllKeepsOrder<T>(t: Table<T>, writes: seq<(string, T)>)
    ensures Keys(t) <= Keys(PutAll(t, writes))
    decreases |writes|
  {
    if writes != [] {
      var last := writes[|writes| - 1];
      PutAllKeepsOrder(t, writes[..|writes| - 1]);
      KeysPut(PutAll(t, writes[..|writes| - 1]), last.0, last.1);
    }
  }

  /** A key that no assignment writes reads as before. */
  lemma {:induction false} PutAllUntouched<T>(t: Table<T>, writes: seq<(string, T)>, key: string)
    requires forall j :: 0 <= j < |writes| ==> writes[j].0 != key
    ensures Lookup(PutAll(t, writes), key) == Lookup(t, key)
    decreases |writes|
  {
    if writes != [] {
      var last := writes[|writes| - 1];
      PutAllUntouched(t, writes[..|writes| - 1], key);
      LookupPut(PutAll(t, writes[..|writes| - 1]), last.0, last.1, key);
    }
  }

  /** The last assignment to a key decides what it reads. */
  lemma {:induction false} PutAllLastWins<T>(t: Table<T>, writes: seq<(string, T)>, j: nat)
    requires j < |writes|
    requires forall k :: j < k < |writes| ==> writes[k].0 != writes[j].0
    ensures Lookup(PutAll(t, writes), writes[j].0) == Some(writes[j].1)
    decreases |writes|
  {
    var n := |writes| - 1;
    var before := writes[..n];
    LookupPut(PutAll(t, before), writes[n].0, writes[n].1, writes[j].0);
    if j < n {
      assert before[j] == writes[j];
      PutAllLastWins(t, before, j);
    }
  }
}
