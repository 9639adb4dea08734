/**
 * Plain JSON values as `json.loads` produces them, and the few operations of a
 * Python `dict` the encoder relies on. An object keeps its entries in insertion
 * order, as a Python dict does.
 */
module JsonValue {

  datatype Option<T> = None | Some(value: T)

  datatype Result<T> = Ok(value: T) | Err(error: string)

  datatype Json =
    | JNull
    | JBool(b: bool)
    | JNum(n: int)
    | JStr(s: string)
    | JArray(items: seq<Json>)
    | JObject(fields: seq<(string, Json)>)

  /** The entries of a dict, in insertion order. */
  type Fields = seq<(string, Json)>

  /** No key occurs twice: what every Python dict satisfies. */
  predicate UniqueKeys(fields: Fields) {
    forall i, j :: 0 <= i < j < |fields| ==> fields[i].0 != fields[j].0
  }

  /** Every object inside the value, at any depth, has unique keys. */
  predicate WellFormed(j: Json) {
    match j
    case JArray(items) => forall i :: 0 <= i < |items| ==> WellFormed(items[i])
    case JObject(fields) => UniqueKeys(fields) && forall i :: 0 <= i < |fields| ==> WellFormed(fields[i].1)
    case _ => true
  }

  /** `d.get(k)`: the value stored under `k`, if any. */
  function Lookup(fields: Fields, k: string): (r: Option<Json>)
    ensures r.Some? ==> (k, r.value) in fields
    ensures r.None? ==> forall i :: 0 <= i < |fields| ==> fields[i].0 != k
  {
    if fields == [] then None
    else if fields[0].0 == k then Some(fields[0].1)
    else Lookup(fields[1..], k)
  }

  /** In a dict every entry is found under its own key. */
  lemma {:induction false} LookupEntry(fields: Fields, i: nat)
    requires UniqueKeys(fields) && i < |fields|
    ensures Lookup(fields, fields[i].0) == Some(fields[i].1)
  {
    if i > 0 {
      LookupEntry(fields[1..], i - 1);
    }
  }

  /** Looking a key up in two lists joined end to end finds it in the first if it is there. */
  lemma {:induction false} LookupAppend(a: Fields, b: Fields, k: string)
    ensures Lookup(a + b, k) == if Lookup(a, k).Some? then Lookup(a, k) else Lookup(b, k)
  {
    if a == [] {
      assert a + b == b;
    } else {
      assert (a + b)[1..] == a[1..] + b;
      if a[0].0 != k {
        LookupAppend(a[1..], b, k);
      }
    }
  }

  /**
   * `d[k] = v`: an existing key keeps its position and takes the new value,
   * a new key is appended.
   */
  function Put(fields: Fields, k: string, v: Json): (r: Fields)
    ensures |r| == if Lookup(fields, k).Some? then |fields| else |fields| + 1
  {
    if fields == [] then [(k, v)]
    else if fields[0].0 == k then [(k, v)] + fields[1..]
    else [fields[0]] + Put(fields[1..], k, v)
  }

  /** After `d[k] = v`, `k` is found with `v` and every other key with its old value. */
  lemma {:induction false} PutLookup(fields: Fields, k: string, v: Json, k': string)
    ensures Lookup(Put(fields, k, v), k') == if k' == k then Some(v) else Lookup(fields, k')
  {
    if fields != [] && fields[0].0 != k {
      PutLookup(fields[1..], k, v, k');
    }
  }

  /** Every entry after `d[k] = v` is the new one or an old one. */
  lemma {:induction false} PutEntries(fields: Fields, k: string, v: Json)
    ensures forall i :: 0 <= i < |Put(fields, k, v)| ==> Put(fields, k, v)[i].0 == k || Put(fields, k, v)[i] in fields
  {
    if fields != [] && fields[0].0 != k {
      PutEntries(fields[1..], k, v);
    }
  }

  /** Assigning a key that is not there appends it. */
  lemma {:induction false} PutAbsent(fields: Fields, k: string, v: Json)
    requires forall i :: 0 <= i < |fields| ==> fields[i].0 != k
    ensures Put(fields, k, v) == fields + [(k, v)]
  {
    if fields != [] {
      PutAbsent(fields[1..], k, v);
    }
  }

  /** Assignment keeps the keys of a dict unique. */
  lemma {:induction false} PutUnique(fields: Fields, k: string, v: Json)
    requires UniqueKeys(fields)
    ensures UniqueKeys(Put(fields, k, v))
  {
    if fields != [] && fields[0].0 != k {
      PutUnique(fields[1..], k, v);
      PutEntries(fields[1..], k, v);
      var rest := Put(fields[1..], k, v);
      forall i | 0 <= i < |rest|
        ensures rest[i].0 != fields[0].0
      {
        if rest[i].0 != k {
          var j :| 0 <= j < |fields[1..]| && fields[1..][j] == rest[i];
          assert fields[j + 1] == rest[i];
        }
      }
    }
  }

  /** Assigning the entries one after another, in order: `for k, v in items: d[k] = v`. */
  function PutAll(fields: Fields, entries: Fields): (r: Fields)
    decreases |entries|
  {
    if entries == [] then fields
    else
      var last := entries[|entries| - 1];
      Put(PutAll(fields, entries[..|entries| - 1]), last.0, last.1)
  }

  /** Copying a dict entry by entry into an empty one reproduces it exactly. */
  lemma {:induction false} PutAllCopies(entries: Fields)
    requires UniqueKeys(entries)
    ensures PutAll([], entries) == entries
  {
    if entries != [] {
      var n := |entries| - 1;
      var front := entries[..n];
      assert UniqueKeys(front);
      PutAllCopies(front);
      PutAbsent(front, entries[n].0, entries[n].1);
      assert front + [entries[n]] == entries;
    }
  }
}
