/** Option and Result, for the error paths of loading a file. */
module Wrappers {
  datatype Option<+T> = None | Some(value: T)

  datatype Result<+T, +E> = Ok(value: T) | Err(error: E)
}

/**
  The values that `json.load` yields and `json.dump` writes, and Python's
  insertion-ordered `dict`: a list of (key, value) entries with distinct keys,
  where a key that is set again keeps its place and a new key goes last.
*/
module JsonValues {
  import opened Wrappers

  datatype Value =
    | Null
    | Bool(b: bool)
    | Int(i: int)
    | Real(r: real)
    | Str(s: string)
    | Array(items: seq<Value>)
    | Object(fields: seq<(string, Value)>)

  type Entries = seq<(string, Value)>

  /** The keys in insertion order (`list(d)`). */
  function Keys(d: Entries): seq<string> {
    if d == [] then [] else [d[0].0] + Keys(d[1..])
  }

  predicate DistinctKeys(d: Entries) {
    d == [] || (d[0].0 !in Keys(d[1..]) && DistinctKeys(d[1..]))
  }

  /** A Python dict: its entries in insertion order, no key twice. */
  type Dict = d: Entries | DistinctKeys(d) witness []

  /** `d.get(k)`, with None for a missing key. */
  function Lookup(d: Entries, k: string): Option<Value> {
    if d == [] then None
    else if d[0].0 == k then Some(d[0].1)
    else Lookup(d[1..], k)
  }

  /** A key has a value exactly when it is one of the keys. */
  lemma {:induction false} LookupKeys(d: Entries, k: string)
    ensures Lookup(d, k).Some? <==> k in Keys(d)
  {
    if d != [] {
      LookupKeys(d[1..], k);
    }
  }

  /** `d[k] = v`: an existing key keeps its position, a new key is appended. */
  function Put(d: Dict, k: string, v: Value): (r: Dict)
    ensures Keys(r) == if k in Keys(d) then Keys(d) else Keys(d) + [k]
    ensures Lookup(r, k) == Some(v)
    ensures forall k' :: k' != k ==> Lookup(r, k') == Lookup(d, k')
  {
    if d == [] then
      var r := [(k, v)];
      assert r[1..] == [];
      r
    else if d[0].0 == k then
      var r := [(k, v)] + d[1..];
      assert r[1..] == d[1..];
      r
    else
      var tail := Put(d[1..], k, v);
      var r := [d[0]] + tail;
      assert r[1..] == tail;
      assert k !in Keys(d) ==> Keys(r) == ([d[0].0] + Keys(d[1..])) + [k];
      r
  }

  predicate Distinct(ks: seq<string>) {
    forall i, j :: 0 <= i < j < |ks| ==> ks[i] != ks[j]
  }

  /** A dict display `{ks[0]: vs[0], ks[1]: vs[1], ...}` whose keys are distinct. */
  function Display(ks: seq<string>, vs: seq<Value>): (d: Dict)
    requires |ks| == |vs| && Distinct(ks)
    ensures Keys(d) == ks
    decreases |ks|
  {
    if ks == [] then []
    else
      var tail := Display(ks[1..], vs[1..]);
      var d := [(ks[0], vs[0])] + tail;
      assert d[1..] == tail;
      assert ks[0] !in ks[1..];
      d
  }

  /** The display maps each of its keys to the value written beside it. */
  lemma {:induction false} DisplayLookup(ks: seq<string>, vs: seq<Value>, j: nat)
    requires |ks| == |vs| && Distinct(ks) && j < |ks|
    ensures Lookup(Display(ks, vs), ks[j]) == Some(vs[j])
    decreases |ks|
  {
    if j > 0 {
      DisplayLookup(ks[1..], vs[1..], j - 1);
      assert ks[0] != ks[j] by {
        assert ks[j] == ks[1..][j - 1];
      }
    }
  }

  /** The keys of `ks` that do not occur in `seen`, in their order in `ks`. */
  function Unseen(ks: seq<string>, seen: seq<string>): seq<string> {
    if ks == [] then []
    else (if ks[0] in seen then [] else [ks[0]]) + Unseen(ks[1..], seen)
  }

  lemma {:induction false} UnseenIgnores(ks: seq<string>, seen: seq<string>, x: string)
    requires x !in ks
    ensures Unseen(ks, seen + [x]) == Unseen(ks, seen)
  {
    if ks != [] {
      UnseenIgnores(ks[1..], seen, x);
    }
  }

  /**
    `{**d, **e}` (and `d.update(e)` on a copy of `d`): the entries of `e` are
    put into `d` in order.
  */
  function Update(d: Dict, e: Dict): Dict
    decreases |e|
  {
    if e == [] then d else Update(Put(d, e[0].0, e[0].1), e[1..])
  }

  /** On a shared key the value from `e` wins; every other key keeps its value. */
  lemma {:induction false} UpdateLookup(d: Dict, e: Dict, k: string)
    ensures Lookup(Update(d, e), k) == if k in Keys(e) then Lookup(e, k) else Lookup(d, k)
    decreases |e|
  {
    if e != [] {
      UpdateLookup(Put(d, e[0].0, e[0].1), e[1..], k);
      assert Keys(e) == [e[0].0] + Keys(e[1..]);
      if k == e[0].0 {
        assert k !in Keys(e[1..]);
      }
    }
  }

  /** The keys of `d` keep their order and come first; the new keys of `e` follow in their order. */
  lemma {:induction false} UpdateKeys(d: Dict, e: Dict)
    ensures Keys(Update(d, e)) == Keys(d) + Unseen(Keys(e), Keys(d))
    decreases |e|
  {
    if e != [] {
      var x := e[0].0;
      var d' := Put(d, x, e[0].1);
      var rest: Dict := e[1..];
      UpdateKeys(d', rest);
      assert Keys(e)[1..] == Keys(rest);
      var added := if x in Keys(d) then [] else [x];
      assert Keys(d') == Keys(d) + added;
      assert Unseen(Keys(e), Keys(d)) == added + Unseen(Keys(rest), Keys(d));
      assert Unseen(Keys(rest), Keys(d')) == Unseen(Keys(rest), Keys(d)) by {
        if x !in Keys(d) {
          UnseenIgnores(Keys(rest), Keys(d), x);
        }
      }
    }
  }
}
