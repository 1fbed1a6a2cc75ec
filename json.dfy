/**
 * The JSON-like Python values the scraper builds and stores: dictionaries with
 * string keys (kept in insertion order, as Python dicts are), lists, tuples,
 * scalars and datetime objects.
 */
module Json {

  import opened Wrappers

  datatype Value =
    | Null
    | Bool(b: bool)
    | Int(i: int)
    | Real(r: real)
    | Str(s: string)
    | DateTime(iso: string)   // a datetime object, known by what isoformat() gives
    | List(items: seq<Value>)
    | Tuple(items: seq<Value>)
    | Dict(entries: seq<(string, Value)>)

  /** The keys of a dictionary's entries, in order. */
  function Keys<V>(entries: seq<(string, V)>): (ks: seq<string>)
    ensures |ks| == |entries|
    ensures forall k :: 0 <= k < |entries| ==> ks[k] == entries[k].0
  {
    if entries == [] then [] else [entries[0].0] + Keys(entries[1..])
  }

  predicate UniqueKeys<V>(entries: seq<(string, V)>) {
    forall i, j :: 0 <= i < j < |entries| ==> entries[i].0 != entries[j].0
  }

  /** d[key], or None when the key is absent. */
  function Get<V>(entries: seq<(string, V)>, key: string): (r: Option<V>)
    ensures r.None? <==> key !in Keys(entries)
    ensures r.Some? ==> (key, r.value) in entries
  {
    if entries == [] then None
    else if entries[0].0 == key then Some(entries[0].1)
    else Get(entries[1..], key)
  }

  /** d.get(key, default). */
  function Lookup<V>(entries: seq<(string, V)>, key: string, default: V): (r: V)
    ensures key in Keys(entries) ==> Get(entries, key) == Some(r)
    ensures key !in Keys(entries) ==> r == default
  {
    match Get(entries, key)
    case None => default
    case Some(v) => v
  }

  /** d[key] = v: replaces the value in place when the key exists, else appends the entry. */
  function Put<V>(entries: seq<(string, V)>, key: string, v: V): (r: seq<(string, V)>)
    ensures |r| == if key in Keys(entries) then |entries| else |entries| + 1
  {
    if entries == [] then [(key, v)]
    else if entries[0].0 == key then [(key, v)] + entries[1..]
    else [entries[0]] + Put(entries[1..], key, v)
  }

  /** Writing a key keeps the order of the keys, appending the key when it is new. */
  lemma {:induction false} PutKeys<V>(entries: seq<(string, V)>, key: string, v: V)
    ensures key in Keys(entries) ==> Keys(Put(entries, key, v)) == Keys(entries)
    ensures key !in Keys(entries) ==> Keys(Put(entries, key, v)) == Keys(entries) + [key]
  {
    if entries != [] {
      KeysCons(entries[0], entries[1..]);
      assert entries == [entries[0]] + entries[1..];
      if entries[0].0 == key {
        KeysCons((key, v), entries[1..]);
      } else {
        var rest := Put(entries[1..], key, v);
        PutKeys(entries[1..], key, v);
        KeysCons(entries[0], rest);
      }
    }
  }

  /** After writing a key, the key reads the value written. */
  lemma {:induction false} PutGet<V>(entries: seq<(string, V)>, key: string, v: V)
    ensures Get(Put(entries, key, v), key) == Some(v)
  {
    if entries != [] && entries[0].0 != key {
      PutGet(entries[1..], key, v);
      GetCons(entries[0], Put(entries[1..], key, v), key);
    }
  }

  lemma KeysCons<V>(e: (string, V), rest: seq<(string, V)>)
    ensures Keys([e] + rest) == [e.0] + Keys(rest)
  {
    assert ([e] + rest)[1..] == rest;
  }

  lemma GetCons<V>(e: (string, V), rest: seq<(string, V)>, key: string)
    ensures Get([e] + rest, key) == if e.0 == key then Some(e.1) else Get(rest, key)
  {
    assert ([e] + rest)[1..] == rest;
  }

  /** Writing one key leaves every other key's value as it was. */
  lemma {:induction false} PutOthers<V>(entries: seq<(string, V)>, key: string, v: V, other: string)
    requires other != key
    ensures Get(Put(entries, key, v), other) == Get(entries, other)
  {
    if entries != [] && entries[0].0 != key {
      PutOthers(entries[1..], key, v, other);
    }
  }

  /** What a key reads after one write. */
  lemma GetPut<V>(entries: seq<(string, V)>, key: string, v: V, other: string)
    ensures Get(Put(entries, key, v), other) == if other == key then Some(v) else Get(entries, other)
  {
    if other == key { PutGet(entries, key, v); } else { PutOthers(entries, key, v, other); }
  }

  /** Writing a key keeps the keys of a dictionary unique. */
  lemma PutUnique<V>(entries: seq<(string, V)>, key: string, v: V)
    requires UniqueKeys(entries)
    ensures UniqueKeys(Put(entries, key, v))
  {
    var r := Put(entries, key, v);
    PutKeys(entries, key, v);
    forall i, j | 0 <= i < j < |r| ensures r[i].0 != r[j].0 {
      assert Keys(r)[i] == r[i].0 && Keys(r)[j] == r[j].0;
      assert Keys(entries)[i] == entries[i].0 || i == |entries|;
      if j < |entries| { assert Keys(entries)[j] == entries[j].0; }
      else {
        assert key !in Keys(entries);
        assert entries[i].0 in Keys(entries);
      }
    }
  }

  /** Python truthiness. */
  predicate Truthy(v: Value) {
    match v
    case Null => false
    case Bool(b) => b
    case Int(i) => i != 0
    case Real(r) => r != 0.0
    case Str(s) => s != []
    case DateTime(_) => true
    case List(items) => items != []
    case Tuple(items) => items != []
    case Dict(entries) => entries != []
  }
}
