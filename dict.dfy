/**
 * A Python `dict[str, str]` with its insertion order: a sequence of
 * key/value pairs with distinct keys. Lookup by key, `d[k] = v` (an existing
 * key keeps its position, a new one goes to the end) and `d.update(e)`.
 */
module Dict {
  import opened Wrappers

  type Pairs = seq<(string, string)>

  /** The keys in insertion order, as `list(d)`. */
  function Keys(d: Pairs): (ks: seq<string>)
    ensures |ks| == |d|
    ensures forall i :: 0 <= i < |d| ==> ks[i] == d[i].0
  {
    if d == [] then [] else [d[0].0] + Keys(d[1..])
  }

  /** No key occurs twice: the sequence is the item list of some dict. */
  predicate UniqueKeys(d: Pairs)
  {
    forall i, j :: 0 <= i < j < |d| ==> d[i].0 != d[j].0
  }

  /** `d.get(k)`. */
  function Lookup(d: Pairs, k: string): (r: Option<string>)
    ensures r.None? <==> k !in Keys(d)
    ensures r.Some? ==> (k, r.value) in d
  {
    if d == [] then None else if d[0].0 == k then Some(d[0].1) else Lookup(d[1..], k)
  }

  /** `d[k] = v`: an existing key keeps its position, a new one goes to the end. */
  function Set(d: Pairs, k: string, v: string): Pairs
  {
    if d == [] then [(k, v)]
    else if d[0].0 == k then [(k, v)] + d[1..]
    else [d[0]] + Set(d[1..], k, v)
  }

  /** `d.update(e)`: the items of `e` assigned one by one, in `e`'s order. */
  function Update(d: Pairs, e: Pairs): Pairs
    decreases |e|
  {
    if e == [] then d else Update(Set(d, e[0].0, e[0].1), e[1..])
  }

  lemma UniqueTail(d: Pairs)
    requires d != [] && UniqueKeys(d)
    ensures UniqueKeys(d[1..]) && d[0].0 !in Keys(d[1..])
  {
    assert forall j :: 0 <= j < |d[1..]| ==> d[1..][j] == d[j + 1];
  }

  lemma UniqueCons(p: (string, string), d: Pairs)
    requires UniqueKeys(d) && p.0 !in Keys(d)
    ensures UniqueKeys([p] + d)
  {
    assert forall j :: 0 <= j < |d| ==> ([p] + d)[j + 1] == d[j];
  }

  /** The keys after `d[k] = v`: unchanged when `k` was present, otherwise `k` appended. */
  lemma {:induction false} SetKeys(d: Pairs, k: string, v: string)
    ensures Keys(Set(d, k, v)) == if k in Keys(d) then Keys(d) else Keys(d) + [k]
  {
    if d != [] && d[0].0 != k {
      SetKeys(d[1..], k, v);
      assert Keys(d) == [d[0].0] + Keys(d[1..]);
      assert Keys(Set(d, k, v)) == [d[0].0] + Keys(Set(d[1..], k, v));
    } else if d != [] {
      assert Keys(d) == [k] + Keys(d[1..]);
      assert Keys(Set(d, k, v)) == [k] + Keys(d[1..]);
    }
  }

  /** `d[k] = v` keeps `d` a dict. */
  lemma {:induction false} SetUnique(d: Pairs, k: string, v: string)
    requires UniqueKeys(d)
    ensures UniqueKeys(Set(d, k, v))
  {
    if d == [] {
    } else if d[0].0 == k {
      UniqueTail(d);
      UniqueCons((k, v), d[1..]);
    } else {
      UniqueTail(d);
      SetUnique(d[1..], k, v);
      SetKeys(d[1..], k, v);
      UniqueCons(d[0], Set(d[1..], k, v));
    }
  }

  /** After `d[k] = v`, `k` maps to `v` and every other key keeps its value. */
  lemma {:induction false} SetLookup(d: Pairs, k: string, v: string, k': string)
    ensures Lookup(Set(d, k, v), k') == if k' == k then Some(v) else Lookup(d, k')
  {
    if d != [] && d[0].0 != k {
      SetLookup(d[1..], k, v, k');
      assert Set(d, k, v)[1..] == Set(d[1..], k, v);
    } else if d != [] {
      assert Set(d, k, v)[1..] == d[1..];
    }
  }

  /** The keys after `d.update(e)`: those of `d` in their places, then the new keys of `e`. */
  lemma {:induction false} UpdateKeys(d: Pairs, e: Pairs)
    ensures |Update(d, e)| >= |d|
    ensures Keys(Update(d, e))[..|d|] == Keys(d)
    ensures forall i :: |d| <= i < |Update(d, e)| ==> Update(d, e)[i].0 in Keys(e) && Update(d, e)[i].0 !in Keys(d)
    decreases |e|
  {
    if e != [] {
      var d1 := Set(d, e[0].0, e[0].1);
      SetKeys(d, e[0].0, e[0].1);
      UpdateKeys(d1, e[1..]);
      var r := Update(d, e);
      assert Keys(r)[..|d|] == Keys(r)[..|d1|][..|d|];
      forall i | |d| <= i < |r| ensures r[i].0 in Keys(e) && r[i].0 !in Keys(d) {
        if i < |d1| {
          assert r[i].0 == Keys(d1)[i] == e[0].0;
        } else {
          var j :| 0 <= j < |e[1..]| && Keys(e[1..])[j] == r[i].0;
          assert e[j + 1].0 == r[i].0;
          assert r[i].0 !in Keys(d1);
        }
      }
    }
  }

  /** `d.update(e)` on dicts gives a dict. */
  lemma {:induction false} UpdateUnique(d: Pairs, e: Pairs)
    requires UniqueKeys(d)
    ensures UniqueKeys(Update(d, e))
    decreases |e|
  {
    if e != [] {
      SetUnique(d, e[0].0, e[0].1);
      UpdateUnique(Set(d, e[0].0, e[0].1), e[1..]);
    }
  }

  /**
   * After `d.update(e)`, with `e` a dict, every key of `e` maps to its value
   * in `e` and every other key keeps its value from `d`.
   */
  lemma {:induction false} UpdateLookup(d: Pairs, e: Pairs, k: string)
    requires UniqueKeys(e)
    ensures Lookup(Update(d, e), k) == if k in Keys(e) then Lookup(e, k) else Lookup(d, k)
    decreases |e|
  {
    if e != [] {
      UniqueTail(e);
      SetLookup(d, e[0].0, e[0].1, k);
      UpdateLookup(Set(d, e[0].0, e[0].1), e[1..], k);
      assert Keys(e) == [e[0].0] + Keys(e[1..]);
    }
  }

  /** Lookup passes over leading items whose keys differ from the one sought. */
  lemma {:induction false} LookupSkip(d: Pairs, k: string, n: nat)
    requires n <= |d|
    requires forall i :: 0 <= i < n ==> d[i].0 != k
    ensures Lookup(d, k) == Lookup(d[n..], k)
  {
    if n > 0 {
      LookupSkip(d[1..], k, n - 1);
      assert d[1..][n - 1..] == d[n..];
    }
  }

  /** The value at position `n` is found when no earlier key has the length of its key. */
  lemma LookupAt(d: Pairs, n: nat)
    requires n < |d|
    requires forall i :: 0 <= i < n ==> |d[i].0| != |d[n].0|
    ensures Lookup(d, d[n].0) == Some(d[n].1)
  {
    LookupSkip(d, d[n].0, n);
  }

  /** Keys of pairwise different lengths are pairwise different. */
  lemma DistinctLengths(d: Pairs)
    requires forall i, j :: 0 <= i < j < |d| ==> |d[i].0| != |d[j].0|
    ensures UniqueKeys(d)
  {
  }
}
