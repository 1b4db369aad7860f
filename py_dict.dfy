/**
 * Python's `dict` as the pipeline uses it: string keys, lookups with a default,
 * `dict.update`, and iteration in insertion order.
 */
module PyDict {
  import opened Wrappers

  /** The Python values a record holds: strings from extraction, and whatever else callers put in. */
  datatype Value = Str(s: string) | Int(i: int) | Bool(b: bool) | Null

  /** Python truthiness: `""`, `0`, `False` and `None` are false, everything else true. */
  predicate Truthy(v: Value) {
    match v
    case Str(s) => s != ""
    case Int(i) => i != 0
    case Bool(b) => b
    case Null => false
  }

  /** No string occurs twice in `ks`. */
  predicate Distinct(ks: seq<string>) {
    forall i, j :: 0 <= i < j < |ks| ==> ks[i] != ks[j]
  }

  /** A Python dict: its keys in insertion order, next to the key/value mapping they order. */
  datatype Dict<V> = Dict(keys: seq<string>, items: map<string, V>) {

    /** No key is listed twice and the list names exactly the mapped keys. */
    predicate Valid() {
      Distinct(keys) && items.Keys == set k | k in keys
    }
  }

  /** A Python record: field name to value, in insertion order. */
  type Record = Dict<Value>

  /** `{}`. */
  function Empty<V>(): (r: Dict<V>)
    ensures r.Valid() && r.keys == [] && r.items.Keys == {}
  {
    Dict([], map[])
  }

  /** `d.get(k)`. */
  function Get<V>(d: Dict<V>, k: string): Option<V> {
    if k in d.items then Some(d.items[k]) else None
  }

  /** `d.get(k, default)`. */
  function GetOr<V>(d: Dict<V>, k: string, default: V): V {
    if k in d.items then d.items[k] else default
  }

  /** `record.get(field)` on a record: a missing field reads as `None`. */
  function Field(r: Record, k: string): Value {
    GetOr(r, k, Null)
  }

  /** `d[k] = v`: a new key goes to the end, an existing key keeps its place. */
  function Put<V>(d: Dict<V>, k: string, v: V): (r: Dict<V>)
    ensures d.Valid() ==> r.Valid()
  {
    var r := Dict(if k in d.items then d.keys else d.keys + [k], d.items[k := v]);
    assert d.Valid() ==> r.items.Keys == set x | x in r.keys;
    r
  }

  /** The keys of `ks`, in order, that are not in `present`. */
  function NewKeys(ks: seq<string>, present: set<string>): seq<string>
  {
    if ks == [] then []
    else if ks[0] in present then NewKeys(ks[1..], present)
    else [ks[0]] + NewKeys(ks[1..], present)
  }

  lemma {:induction false} NewKeysIgnores(ks: seq<string>, present: set<string>, x: string)
    requires x !in ks
    ensures NewKeys(ks, present + {x}) == NewKeys(ks, present)
  {
    if ks != [] {
      NewKeysIgnores(ks[1..], present, x);
    }
  }

  lemma {:induction false} NewKeysNonepresent(ks: seq<string>, present: set<string>)
    requires forall k :: k in ks ==> k !in present
    ensures NewKeys(ks, present) == ks
  {
    if ks != [] {
      NewKeysNonepresent(ks[1..], present);
    }
  }

  lemma DistinctTail(ks: seq<string>)
    requires ks != [] && Distinct(ks)
    ensures Distinct(ks[1..]) && ks[0] !in ks[1..]
  {
    forall i | 0 <= i < |ks[1..]| ensures ks[1..][i] != ks[0] {
      assert ks[1..][i] == ks[i + 1];
    }
  }

  /** The mapping `k := src[k]` for every key `k` of `ks`. */
  function Restrict<V>(src: map<string, V>, ks: seq<string>): map<string, V>
    requires forall k :: k in ks ==> k in src
  {
    map k | k in ks :: src[k]
  }

  lemma RestrictCons<V>(src: map<string, V>, ks: seq<string>)
    requires ks != [] && forall k :: k in ks ==> k in src
    ensures Restrict(src, ks) == map[ks[0] := src[ks[0]]] + Restrict(src, ks[1..])
  {
  }

  lemma PutThenUnion<V>(m: map<string, V>, k: string, v: V, n: map<string, V>)
    ensures m[k := v] + n == m + (map[k := v] + n)
  {
    var lhs, rhs := m[k := v] + n, m + (map[k := v] + n);
    assert lhs.Keys == rhs.Keys;
    forall x | x in lhs ensures lhs[x] == rhs[x] {
    }
  }

  /** Assigns `src[k]` to every key of `ks` in turn, as the loop inside `dict.update` does. */
  function PutAll<V>(d: Dict<V>, ks: seq<string>, src: map<string, V>): (r: Dict<V>)
    requires forall k :: k in ks ==> k in src
    ensures d.Valid() ==> r.Valid()
    decreases |ks|
  {
    if ks == [] then d else PutAll(Put(d, ks[0], src[ks[0]]), ks[1..], src)
  }

  /** Assigning keys in turn leaves every other key alone and gives each assigned key its `src` value. */
  lemma {:induction false} PutAllItems<V>(d: Dict<V>, ks: seq<string>, src: map<string, V>)
    requires forall k :: k in ks ==> k in src
    ensures PutAll(d, ks, src).items == d.items + Restrict(src, ks)
    decreases |ks|
  {
    if ks == [] {
      assert Restrict(src, ks) == map[];
    } else {
      var d' := Put(d, ks[0], src[ks[0]]);
      PutAllItems(d', ks[1..], src);
      RestrictCons(src, ks);
      PutThenUnion(d.items, ks[0], src[ks[0]], Restrict(src, ks[1..]));
    }
  }

  /** Assigning distinct keys in turn appends the ones not yet present, in order. */
  lemma {:induction false} PutAllKeys<V>(d: Dict<V>, ks: seq<string>, src: map<string, V>)
    requires forall k :: k in ks ==> k in src
    requires Distinct(ks)
    ensures PutAll(d, ks, src).keys == d.keys + NewKeys(ks, d.items.Keys)
    decreases |ks|
  {
    if ks != [] {
      var k, present := ks[0], d.items.Keys;
      var d' := Put(d, k, src[k]);
      PutKeys(d, k, src[k]);
      DistinctTail(ks);
      PutAllKeys(d', ks[1..], src);
      var rest := NewKeys(ks[1..], present);
      assert PutAll(d, ks, src) == PutAll(d', ks[1..], src);
      if k in present {
        assert d'.items.Keys == present && d'.keys == d.keys;
        assert NewKeys(ks, present) == rest;
      } else {
        assert d'.items.Keys == present + {k} && d'.keys == d.keys + [k];
        assert k !in ks[1..];
        NewKeysIgnores(ks[1..], present, k);
        assert NewKeys(ks, present) == [k] + rest;
        assert d.keys + [k] + rest == d.keys + ([k] + rest);
      }
    }
  }

  /** Assigning a key appends it to the key order exactly when it is new. */
  lemma PutKeys<V>(d: Dict<V>, k: string, v: V)
    ensures Put(d, k, v).keys == if k in d.items then d.keys else d.keys + [k]
    ensures Put(d, k, v).items.Keys == d.items.Keys + {k}
  {
  }

  /**
   * `d.update(other)`: every key of `other` takes `other`'s value, every other key of
   * `d` keeps its own, and the keys new to `d` follow `d`'s own keys in `other`'s order.
   */
  function Update<V>(d: Dict<V>, other: Dict<V>): (r: Dict<V>)
    requires other.Valid()
    ensures d.Valid() ==> r.Valid()
    ensures r.items == d.items + other.items
    ensures r.keys == d.keys + NewKeys(other.keys, d.items.Keys)
  {
    PutAllItems(d, other.keys, other.items);
    PutAllKeys(d, other.keys, other.items);
    assert Restrict(other.items, other.keys) == other.items;
    PutAll(d, other.keys, other.items)
  }

  /** `list(d.values())`: the values in insertion order. */
  function Values<V>(d: Dict<V>): (vs: seq<V>)
    requires d.Valid()
    ensures |vs| == |d.keys|
    ensures forall i :: 0 <= i < |d.keys| ==> vs[i] == d.items[d.keys[i]]
  {
    seq(|d.keys|, i requires 0 <= i < |d.keys| => d.items[d.keys[i]])
  }

  /** Updating an empty dict with `d` copies `d`, order included: `dict({}).update(d)` equals `d`. */
  lemma {:induction false} UpdateEmpty<V>(d: Dict<V>)
    requires d.Valid()
    ensures Update(Empty(), d) == d
  {
    var e: Dict<V> := Empty();
    var u := Update(e, d);
    assert u.keys == [] + NewKeys(d.keys, {});
    NewKeysNonepresent(d.keys, {});
    assert u.keys == d.keys;
    assert u.items.Keys == d.items.Keys;
  }
}
