/**
 * Python dicts as the engine uses them: string keys kept in insertion order,
 * and the fan-out/fan-in that maps every value through a service call and
 * zips the results back onto the keys (`asyncio.gather` then `zip`).
 */
module Dicts {
  import opened Wrappers

  predicate Distinct(s: seq<string>)
  {
    forall i, j :: 0 <= i < j < |s| ==> s[i] != s[j]
  }

  /** A dict: its keys in insertion order, and the value stored under each. */
  datatype Dict<V> = Dict(keys: seq<string>, values: map<string, V>)

  ghost predicate Valid<V>(d: Dict<V>)
  {
    Distinct(d.keys) && forall k :: k in d.values <==> k in d.keys
  }

  function Empty<V>(): (d: Dict<V>)
    ensures Valid(d) && d.keys == []
  {
    Dict([], map[])
  }

  /** Two valid dicts with the same keys in the same order and the same value under each are equal. */
  lemma SameEntries<V>(a: Dict<V>, b: Dict<V>)
    requires Valid(a) && Valid(b) && a.keys == b.keys
    requires forall k :: k in a.values ==> k in b.values && a.values[k] == b.values[k]
    ensures a == b
  {
    assert a.values.Keys == b.values.Keys;
    assert a.values == b.values;
  }

  /** `d[k] = v`: a new key goes to the end, an existing key keeps its place. */
  function Put<V>(d: Dict<V>, k: string, v: V): (r: Dict<V>)
    requires Valid(d)
    ensures Valid(r)
    ensures r.keys == if k in d.values then d.keys else d.keys + [k]
    ensures r.values == d.values[k := v]
  {
    if k in d.values then Dict(d.keys, d.values[k := v]) else Dict(d.keys + [k], d.values[k := v])
  }

  /** The sequence with every occurrence of `k` taken out, order kept. */
  function Without(s: seq<string>, k: string): (r: seq<string>)
    ensures forall x :: x in r <==> x in s && x != k
    ensures |r| <= |s|
  {
    if s == [] then [] else (if s[0] == k then [] else [s[0]]) + Without(s[1..], k)
  }

  lemma {:induction false} WithoutDistinct(s: seq<string>, k: string)
    requires Distinct(s)
    ensures Distinct(Without(s, k))
  {
    if s != [] {
      assert Distinct(s[1..]) by {
        forall i, j | 0 <= i < j < |s| - 1
          ensures s[1..][i] != s[1..][j]
        {
          assert s[1..][i] == s[i + 1] && s[1..][j] == s[j + 1];
        }
      }
      WithoutDistinct(s[1..], k);
      var rest := Without(s[1..], k);
      if s[0] != k {
        assert s[0] !in s[1..];
        var r := [s[0]] + rest;
        forall i, j | 0 <= i < j < |r|
          ensures r[i] != r[j]
        {
          assert r[j] == rest[j - 1] && r[j] in rest;
          if i > 0 {
            assert r[i] == rest[i - 1];
          }
        }
      }
    }
  }

  /** `d.pop(k)` for a key that is present: the value, and the dict without the key. */
  function Pop<V>(d: Dict<V>, k: string): (r: (V, Dict<V>))
    requires Valid(d) && k in d.values
    ensures r.0 == d.values[k]
    ensures Valid(r.1) && r.1.keys == Without(d.keys, k)
    ensures forall x :: x in r.1.values ==> r.1.values[x] == d.values[x]
  {
    WithoutDistinct(d.keys, k);
    (d.values[k], Dict(Without(d.keys, k), d.values - {k}))
  }

  /** `d.values()`: the values in key order. */
  function Values<V>(d: Dict<V>): (r: seq<V>)
    requires Valid(d)
    ensures |r| == |d.keys|
    ensures forall i :: 0 <= i < |r| ==> r[i] == d.values[d.keys[i]]
  {
    seq(|d.keys|, i requires 0 <= i < |d.keys| => d.values[d.keys[i]])
  }

  /**
   * `asyncio.gather` over calls that each may fail: every result, in call
   * order, or nothing at all when one call failed.
   */
  function Gather<W>(xs: seq<Option<W>>): (r: Option<seq<W>>)
    ensures r.Some? <==> forall i :: 0 <= i < |xs| ==> xs[i].Some?
    ensures r.Some? ==> |r.value| == |xs| && forall i :: 0 <= i < |xs| ==> r.value[i] == xs[i].value
  {
    if xs == [] then Some([])
    else match Gather(xs[1..])
      case None => None
      case Some(rest) => if xs[0].None? then None else Some([xs[0].value] + rest)
  }

  /** `{k: w for k, w in zip(keys, ws)}` for distinct keys and as many results as keys. */
  function Zip<W>(keys: seq<string>, ws: seq<W>): (r: Dict<W>)
    requires Distinct(keys) && |keys| == |ws|
    ensures Valid(r) && r.keys == keys
    ensures forall i :: 0 <= i < |keys| ==> r.values[keys[i]] == ws[i]
  {
    Dict(keys, map i | 0 <= i < |keys| :: keys[i] := ws[i])
  }

  /** The service calls of a fan-out, one per key, in key order. */
  function Calls<V, W>(d: Dict<V>, f: V -> Option<W>): (r: seq<Option<W>>)
    requires Valid(d)
    ensures |r| == |d.keys| && forall i :: 0 <= i < |r| ==> r[i] == f(d.values[d.keys[i]])
  {
    seq(|d.keys|, i requires 0 <= i < |d.keys| => f(d.values[d.keys[i]]))
  }

  lemma CallsAllSucceed<V, W>(d: Dict<V>, f: V -> Option<W>)
    requires Valid(d)
    ensures (forall i :: 0 <= i < |d.keys| ==> Calls(d, f)[i].Some?) <==>
            (forall k :: k in d.values ==> f(d.values[k]).Some?)
  {
    var calls := Calls(d, f);
    if forall i :: 0 <= i < |d.keys| ==> calls[i].Some? {
      forall k | k in d.values
        ensures f(d.values[k]).Some?
      {
        var i :| 0 <= i < |d.keys| && d.keys[i] == k;
        assert calls[i].Some?;
      }
    }
  }

  lemma ZipCalls<V, W>(d: Dict<V>, f: V -> Option<W>, ws: seq<W>)
    requires Valid(d)
    requires Gather(Calls(d, f)) == Some(ws)
    ensures forall k :: k in d.values ==> Zip(d.keys, ws).values[k] == f(d.values[k]).value
  {
    forall k | k in d.values
      ensures Zip(d.keys, ws).values[k] == f(d.values[k]).value
    {
      var i :| 0 <= i < |d.keys| && d.keys[i] == k;
      assert ws[i] == Calls(d, f)[i].value;
    }
  }

  /**
   * The fan-out/fan-in of the summarizing and embedding stages: one call per
   * value, all gathered, each result put back under the key it came from.
   * It fails as a whole when any one call fails.
   */
  function FanOut<V, W>(d: Dict<V>, f: V -> Option<W>): (r: Option<Dict<W>>)
    requires Valid(d)
    ensures r.Some? <==> forall k :: k in d.values ==> f(d.values[k]).Some?
    ensures r.Some? ==> Valid(r.value) && r.value.keys == d.keys
    ensures r.Some? ==> forall k :: k in d.values ==> r.value.values[k] == f(d.values[k]).value
  {
    CallsAllSucceed(d, f);
    match Gather(Calls(d, f))
    case None => None
    case Some(ws) => ZipCalls(d, f, ws); Some(Zip(d.keys, ws))
  }

  /** A fan-out through the identity is the dict itself (`{u: c for u, c in d.items()}`). */
  lemma FanOutIdentity<V>(d: Dict<V>)
    requires Valid(d)
    ensures FanOut(d, (v: V) => Some(v)) == Some(d)
  {
    var r := FanOut(d, (v: V) => Some(v));
    assert r.value.values == d.values;
  }
}
