/**
 * Python's insertion-ordered dict (`dict`, `OrderedDict`) as a sequence of
 * key/value pairs. Assigning to a present key overwrites its value in place;
 * assigning to a new key appends it.
 */
module OrderedMaps {
  import opened Wrappers

  type OMap<K, V> = seq<(K, V)>

  predicate Distinct<T(==)>(s: seq<T>) {
    forall i, j :: 0 <= i < j < |s| ==> s[i] != s[j]
  }

  /** The keys in iteration order. */
  function Keys<K, V>(m: OMap<K, V>): (ks: seq<K>)
    ensures |ks| == |m|
    ensures forall i :: 0 <= i < |m| ==> ks[i] == m[i].0
  {
    seq(|m|, i requires 0 <= i < |m| => m[i].0)
  }

  /** `m.get(k)` */
  function Get<K(==), V>(m: OMap<K, V>, k: K): (r: Option<V>)
    ensures r.None? <==> k !in Keys(m)
  {
    if m == [] then None
    else if m[0].0 == k then Some(m[0].1)
    else
      assert Keys(m) == [m[0].0] + Keys(m[1..]);
      Get(m[1..], k)
  }

  /** `m[k] = v` */
  function Put<K(==), V>(m: OMap<K, V>, k: K, v: V): (r: OMap<K, V>)
    ensures Keys(r) == if k in Keys(m) then Keys(m) else Keys(m) + [k]
  {
    if m == [] then [(k, v)]
    else if m[0].0 == k then
      assert Keys(m)[0] == k;
      assert Keys([(k, v)] + m[1..]) == Keys(m);
      [(k, v)] + m[1..]
    else
      var rest := Put(m[1..], k, v);
      PutConsKeys(m, k, rest);
      [m[0]] + rest
  }

  /** The keys after `Put` on a map whose first key differs from `k`, given those after `Put` on its tail. */
  lemma PutConsKeys<K, V>(m: OMap<K, V>, k: K, rest: OMap<K, V>)
    requires m != [] && m[0].0 != k
    requires Keys(rest) == if k in Keys(m[1..]) then Keys(m[1..]) else Keys(m[1..]) + [k]
    ensures Keys([m[0]] + rest) == if k in Keys(m) then Keys(m) else Keys(m) + [k]
  {
    var ks := Keys(m[1..]);
    assert m == [m[0]] + m[1..];
    KeysCons(m[0], m[1..]);
    KeysCons(m[0], rest);
    if k !in ks {
      assert [m[0].0] + (ks + [k]) == ([m[0].0] + ks) + [k];
    }
  }

  lemma KeysCons<K, V>(p: (K, V), ps: seq<(K, V)>)
    ensures Keys([p] + ps) == [p.0] + Keys(ps)
  {
  }

  /** After `m[k] = v`, looking up k gives v. */
  lemma {:induction false} GetPut<K, V>(m: OMap<K, V>, k: K, v: V)
    ensures Get(Put(m, k, v), k) == Some(v)
  {
    if m != [] && m[0].0 != k {
      GetPut(m[1..], k, v);
    }
  }

  /** After `m[k] = v`, every other key keeps its value. */
  lemma {:induction false} GetPutOther<K, V>(m: OMap<K, V>, k: K, v: V, k': K)
    requires k' != k
    ensures Get(Put(m, k, v), k') == Get(m, k')
  {
    if m != [] && m[0].0 != k {
      GetPutOther(m[1..], k, v, k');
    }
  }

  /** With distinct keys, looking up the i-th key gives the i-th value. */
  lemma {:induction false} GetAt<K, V>(m: OMap<K, V>, i: nat)
    requires Distinct(Keys(m)) && i < |m|
    ensures Get(m, m[i].0) == Some(m[i].1)
  {
    if i > 0 {
      assert Keys(m)[0] != Keys(m)[i];
      assert Keys(m[1..]) == Keys(m)[1..];
      GetAt(m[1..], i - 1);
    }
  }

  /** A present key sits at some position, whose value `Get` returns. */
  lemma {:induction false} GetIndex<K, V>(m: OMap<K, V>, k: K) returns (i: nat)
    requires k in Keys(m)
    ensures i < |m| && m[i].0 == k && Get(m, k) == Some(m[i].1)
  {
    if m[0].0 == k {
      i := 0;
    } else {
      assert Keys(m) == [m[0].0] + Keys(m[1..]);
      var j := GetIndex(m[1..], k);
      i := j + 1;
    }
  }

  /** A second assignment to the same key wins. */
  lemma {:induction false} PutTwice<K, V>(m: OMap<K, V>, k: K, v: V, w: V)
    ensures Put(Put(m, k, v), k, w) == Put(m, k, w)
  {
    if m != [] && m[0].0 != k {
      PutTwice(m[1..], k, v, w);
    }
  }

  /** Keys stay distinct under `Put`. */
  lemma PutDistinct<K, V>(m: OMap<K, V>, k: K, v: V)
    requires Distinct(Keys(m))
    ensures Distinct(Keys(Put(m, k, v)))
  {
  }

  // ---------------------------------------------------------------------
  // Deduplication, filtering and grouping
  // ---------------------------------------------------------------------

  /** The distinct elements of `s` in order of first appearance. */
  function Dedup<T(==)>(s: seq<T>): seq<T>
    decreases |s|
  {
    if s == [] then []
    else
      var prev := Dedup(s[..|s| - 1]);
      if s[|s| - 1] in prev then prev else prev + [s[|s| - 1]]
  }

  lemma {:induction false} DedupSpec<T>(s: seq<T>)
    ensures Distinct(Dedup(s))
    ensures forall x :: x in Dedup(s) <==> x in s
    decreases |s|
  {
    if s != [] {
      var init := s[..|s| - 1];
      DedupSpec(init);
      assert s == init + [s[|s| - 1]];
    }
  }

  /** The keys of a map with one more pair at the end. */
  lemma KeysSnoc<K, V>(ps: seq<(K, V)>, p: (K, V))
    ensures Keys(ps + [p]) == Keys(ps) + [p.0]
  {
  }

  /** Deduplicating one more element keeps it only when it is new. */
  lemma DedupSnoc<T>(s: seq<T>, x: T)
    ensures Dedup(s + [x]) == if x in Dedup(s) then Dedup(s) else Dedup(s) + [x]
  {
    assert (s + [x])[..|s|] == s;
  }

  /** Deduplicating a list without duplicates changes nothing. */
  lemma {:induction false} DedupOfDistinct<T>(s: seq<T>)
    requires Distinct(s)
    ensures Dedup(s) == s
    decreases |s|
  {
    if s != [] {
      var init := s[..|s| - 1];
      DedupOfDistinct(init);
      assert s == init + [s[|s| - 1]];
    }
  }

  /** `[x for x in s if p(x)]` */
  function Filter<T>(s: seq<T>, p: T -> bool): seq<T>
    decreases |s|
  {
    if s == [] then []
    else
      var prev := Filter(s[..|s| - 1], p);
      if p(s[|s| - 1]) then prev + [s[|s| - 1]] else prev
  }

  /** Appending one element keeps a sequence duplicate-free exactly when the element is new. */
  lemma DistinctSnoc<T>(a: seq<T>, x: T)
    ensures Distinct(a + [x]) <==> Distinct(a) && x !in a
  {
    var s := a + [x];
    if Distinct(s) {
      forall i, j | 0 <= i < j < |a|
        ensures a[i] != a[j]
      {
        assert a[i] == s[i] && a[j] == s[j];
      }
      forall i | 0 <= i < |a|
        ensures a[i] != x
      {
        assert a[i] == s[i] && x == s[|a|];
      }
    }
  }

  lemma {:induction false} FilterSpec<T>(s: seq<T>, p: T -> bool)
    ensures |Filter(s, p)| <= |s|
    ensures forall x :: x in Filter(s, p) <==> x in s && p(x)
    ensures Distinct(s) ==> Distinct(Filter(s, p))
    decreases |s|
  {
    if s != [] {
      var init, last := s[..|s| - 1], s[|s| - 1];
      FilterSpec(init, p);
      assert s == init + [last];
      var prev := Filter(init, p);
      var f := Filter(s, p);
      assert f == if p(last) then prev + [last] else prev;
      forall x
        ensures x in f <==> x in s && p(x)
      {
        assert x in s <==> x in init || x == last;
      }
      if Distinct(s) {
        DistinctSnoc(init, last);
        if p(last) {
          DistinctSnoc(prev, last);
        }
      }
    }
  }

  /** The list stored under k, or the empty list. */
  function GetList<K(==), V>(m: OMap<K, seq<V>>, k: K): seq<V> {
    match Get(m, k)
    case None => []
    case Some(l) => l
  }

  /** `if k not in m: m[k] = []` followed by `m[k].append(v)` */
  function Append<K(==), V>(m: OMap<K, seq<V>>, k: K, v: V): OMap<K, seq<V>> {
    Put(m, k, GetList(m, k) + [v])
  }

  /** The values paired with keys ks, grouped by key in order of the key's first appearance. */
  function Group<K(==), V>(ks: seq<K>, vs: seq<V>): OMap<K, seq<V>>
    requires |ks| == |vs|
    decreases |ks|
  {
    if ks == [] then []
    else Append(Group(ks[..|ks| - 1], vs[..|vs| - 1]), ks[|ks| - 1], vs[|vs| - 1])
  }

  /** The values paired with key k, in order: an independent description of one group. */
  function Select<K(==), V>(ks: seq<K>, vs: seq<V>, k: K): seq<V>
    requires |ks| == |vs|
    decreases |ks|
  {
    if ks == [] then []
    else
      var prev := Select(ks[..|ks| - 1], vs[..|vs| - 1], k);
      if ks[|ks| - 1] == k then prev + [vs[|vs| - 1]] else prev
  }

  lemma GroupSnoc<K, V>(ks: seq<K>, vs: seq<V>, i: nat)
    requires |ks| == |vs| && i < |ks|
    ensures Group(ks[..i + 1], vs[..i + 1]) == Append(Group(ks[..i], vs[..i]), ks[i], vs[i])
  {
    assert ks[..i + 1][..i] == ks[..i] && vs[..i + 1][..i] == vs[..i];
  }

  /** The groups' keys are the distinct keys in order of first appearance. */
  lemma {:induction false} GroupKeys<K, V>(ks: seq<K>, vs: seq<V>)
    requires |ks| == |vs|
    ensures Keys(Group(ks, vs)) == Dedup(ks)
    decreases |ks|
  {
    if ks != [] {
      GroupKeys(ks[..|ks| - 1], vs[..|vs| - 1]);
    }
  }

  /** Each key's group holds exactly the values paired with it, in order. */
  lemma {:induction false} GroupValues<K, V>(ks: seq<K>, vs: seq<V>, k: K)
    requires |ks| == |vs| && k in ks
    ensures Get(Group(ks, vs), k) == Some(Select(ks, vs, k))
    decreases |ks|
  {
    var n := |ks|;
    var init, initV := ks[..n - 1], vs[..n - 1];
    assert ks == init + [ks[n - 1]];
    if ks[n - 1] == k {
      if k in init {
        GroupValues(init, initV, k);
      } else {
        GroupKeys(init, initV);
        DedupSpec(init);
        GroupNoSelect(init, initV, k);
      }
      GroupValuesLast(ks, vs);
    } else {
      GroupValues(init, initV, k);
      GroupValuesOther(ks, vs, k);
    }
  }

  /** The step of `GroupValues` for the key of the last pair. */
  lemma GroupValuesLast<K, V>(ks: seq<K>, vs: seq<V>)
    requires |ks| == |vs| && ks != []
    requires GetList(Group(ks[..|ks| - 1], vs[..|vs| - 1]), ks[|ks| - 1]) == Select(ks[..|ks| - 1], vs[..|vs| - 1], ks[|ks| - 1])
    ensures Get(Group(ks, vs), ks[|ks| - 1]) == Some(Select(ks, vs, ks[|ks| - 1]))
  {
    var n := |ks|;
    var g := Group(ks[..n - 1], vs[..n - 1]);
    GetPut(g, ks[n - 1], GetList(g, ks[n - 1]) + [vs[n - 1]]);
  }

  /** The step of `GroupValues` for any other key. */
  lemma GroupValuesOther<K, V>(ks: seq<K>, vs: seq<V>, k: K)
    requires |ks| == |vs| && ks != [] && ks[|ks| - 1] != k
    requires Get(Group(ks[..|ks| - 1], vs[..|vs| - 1]), k) == Some(Select(ks[..|ks| - 1], vs[..|vs| - 1], k))
    ensures Get(Group(ks, vs), k) == Some(Select(ks, vs, k))
  {
    var n := |ks|;
    var g := Group(ks[..n - 1], vs[..n - 1]);
    GetPutOther(g, ks[n - 1], GetList(g, ks[n - 1]) + [vs[n - 1]], k);
  }

  lemma {:induction false} GroupNoSelect<K, V>(ks: seq<K>, vs: seq<V>, k: K)
    requires |ks| == |vs| && k !in ks
    ensures Select(ks, vs, k) == []
    decreases |ks|
  {
    if ks != [] {
      var n := |ks|;
      assert ks == ks[..n - 1] + [ks[n - 1]];
      GroupNoSelect(ks[..n - 1], vs[..n - 1], k);
    }
  }

  /** A key that occurs has a non-empty group. */
  lemma {:induction false} SelectNonEmpty<K, V>(ks: seq<K>, vs: seq<V>, k: K)
    requires |ks| == |vs| && k in ks
    ensures Select(ks, vs, k) != []
    decreases |ks|
  {
    var n := |ks|;
    if ks[n - 1] != k {
      assert ks == ks[..n - 1] + [ks[n - 1]];
      SelectNonEmpty(ks[..n - 1], vs[..n - 1], k);
    }
  }

  // ---------------------------------------------------------------------
  // Repeated assignment and `dict.update`
  // ---------------------------------------------------------------------

  /** `for k, v in ps: m[k] = v`, which is also `m.update(ps)`. */
  function PutAll<K(==), V>(m: OMap<K, V>, ps: seq<(K, V)>): OMap<K, V>
    decreases |ps|
  {
    if ps == [] then m
    else Put(PutAll(m, ps[..|ps| - 1]), ps[|ps| - 1].0, ps[|ps| - 1].1)
  }

  /** The value of the last pair with key k, if any: an independent description of what `PutAll` stores. */
  function LastValue<K(==), V>(ps: seq<(K, V)>, k: K): Option<V>
    decreases |ps|
  {
    if ps == [] then None
    else if ps[|ps| - 1].0 == k then Some(ps[|ps| - 1].1)
    else LastValue(ps[..|ps| - 1], k)
  }

  lemma PutAllSnoc<K, V>(m: OMap<K, V>, ps: seq<(K, V)>, p: (K, V))
    ensures PutAll(m, ps + [p]) == Put(PutAll(m, ps), p.0, p.1)
  {
    assert (ps + [p])[..|ps|] == ps;
  }

  /** The loop step of `PutAll`: one more pair of the same sequence. */
  lemma PutAllStep<K, V>(m: OMap<K, V>, ps: seq<(K, V)>, j: nat)
    requires j < |ps|
    ensures PutAll(m, ps[..j + 1]) == Put(PutAll(m, ps[..j]), ps[j].0, ps[j].1)
  {
    assert ps[..j + 1][..j] == ps[..j];
  }

  lemma LastValueSnoc<K, V>(ps: seq<(K, V)>, p: (K, V), k: K)
    ensures LastValue(ps + [p], k) == if p.0 == k then Some(p.1) else LastValue(ps, k)
  {
    assert (ps + [p])[..|ps|] == ps;
  }

  /** The keys after assigning pairs in order: the old keys, then the new ones in order of first appearance. */
  lemma {:induction false} PutAllKeys<K, V>(m: OMap<K, V>, ps: seq<(K, V)>)
    requires Distinct(Keys(m))
    ensures Keys(PutAll(m, ps)) == Dedup(Keys(m) + Keys(ps))
    decreases |ps|
  {
    if ps == [] {
      assert Keys(m) + Keys(ps) == Keys(m);
      DedupOfDistinct(Keys(m));
    } else {
      var init, p := ps[..|ps| - 1], ps[|ps| - 1];
      assert ps == init + [p];
      PutAllSnoc(m, init, p);
      PutAllKeys(m, init);
      var x := Keys(m) + Keys(init);
      assert Keys(m) + Keys(ps) == x + [p.0] by {
        KeysSnoc(init, p);
      }
      DedupSnoc(x, p.0);
    }
  }

  /** Each key holds the value of its last assignment, or its old value when it was not assigned. */
  lemma {:induction false} GetPutAll<K, V>(m: OMap<K, V>, ps: seq<(K, V)>, k: K)
    ensures Get(PutAll(m, ps), k) == if LastValue(ps, k).Some? then LastValue(ps, k) else Get(m, k)
    decreases |ps|
  {
    if ps != [] {
      var init, p := ps[..|ps| - 1], ps[|ps| - 1];
      GetPutAll(m, init, k);
      if p.0 == k {
        GetPut(PutAll(m, init), k, p.1);
      } else {
        GetPutOther(PutAll(m, init), p.0, p.1, k);
      }
    }
  }

  /** The last pair with key k decides its value. */
  lemma {:induction false} LastValueAt<K, V>(ps: seq<(K, V)>, k: K, i: nat)
    requires i < |ps| && ps[i].0 == k
    requires forall j :: i < j < |ps| ==> ps[j].0 != k
    ensures LastValue(ps, k) == Some(ps[i].1)
    decreases |ps|
  {
    if i < |ps| - 1 {
      LastValueAt(ps[..|ps| - 1], k, i);
    }
  }

  /** A key no pair carries gets no value. */
  lemma {:induction false} LastValueNone<K, V>(ps: seq<(K, V)>, k: K)
    requires k !in Keys(ps)
    ensures LastValue(ps, k) == None
    decreases |ps|
  {
    if ps != [] {
      assert Keys(ps[..|ps| - 1]) == Keys(ps)[..|ps| - 1];
      LastValueNone(ps[..|ps| - 1], k);
    }
  }

  /** The first element of a non-empty list is the first of its distinct elements. */
  lemma {:induction false} DedupHead<T>(s: seq<T>)
    requires s != []
    ensures Dedup(s) != [] && Dedup(s)[0] == s[0]
    decreases |s|
  {
    if |s| > 1 {
      var init := s[..|s| - 1];
      DedupHead(init);
      assert init[0] == s[0];
    }
  }

  /** Only the empty list has no distinct elements. */
  lemma DedupEmpty<T>(s: seq<T>)
    ensures Dedup(s) == [] <==> s == []
  {
    if s != [] {
      DedupHead(s);
    }
  }

  /** The values in iteration order. */
  function Values<K, V>(m: OMap<K, V>): (vs: seq<V>)
    ensures |vs| == |m|
    ensures forall i :: 0 <= i < |m| ==> vs[i] == m[i].1
  {
    seq(|m|, i requires 0 <= i < |m| => m[i].1)
  }

  /** Every pair after `m[k] = v` is an old pair or (k, v). */
  lemma {:induction false} PutMembers<K, V>(m: OMap<K, V>, k: K, v: V)
    ensures forall p :: p in Put(m, k, v) ==> p in m || p == (k, v)
    decreases |m|
  {
    if m != [] && m[0].0 != k {
      PutMembers(m[1..], k, v);
    }
  }

  /** Every pair after assigning ps is an old pair or one of ps. */
  lemma {:induction false} PutAllMembers<K, V>(m: OMap<K, V>, ps: seq<(K, V)>)
    ensures forall p :: p in PutAll(m, ps) ==> p in m || p in ps
    decreases |ps|
  {
    if ps != [] {
      var init, q := ps[..|ps| - 1], ps[|ps| - 1];
      PutAllMembers(m, init);
      PutMembers(PutAll(m, init), q.0, q.1);
      assert forall p :: p in init ==> p in ps;
    }
  }

  /** In a map without repeated keys, the last pair with key k is its only pair. */
  lemma LastValueOfDistinct<K, V>(m: OMap<K, V>, k: K)
    requires Distinct(Keys(m))
    ensures LastValue(m, k) == Get(m, k)
  {
    if k in Keys(m) {
      var i := GetIndex(m, k);
      assert forall j :: i < j < |m| ==> Keys(m)[j] != Keys(m)[i];
      LastValueAt(m, k, i);
    } else {
      LastValueNone(m, k);
    }
  }

  /** A key is among the keys of a list of pairs exactly when some pair carries it. */
  lemma KeysHas<K, V>(ps: seq<(K, V)>, k: K)
    ensures k in Keys(ps) <==> exists i :: 0 <= i < |ps| && ps[i].0 == k
  {
    if k in Keys(ps) {
      var i :| 0 <= i < |ps| && Keys(ps)[i] == k;
    }
  }

  /** The last pair kept by f with a given key is the value that key holds once the kept pairs are assigned. */
  lemma {:induction false} LastKept<K, V>(os: seq<(K, V)>, f: ((K, V)) -> bool, i: nat)
    requires i < |os| && f(os[i])
    requires forall j :: i < j < |os| && f(os[j]) ==> os[j].0 != os[i].0
    ensures LastValue(Filter(os, f), os[i].0) == Some(os[i].1)
    decreases |os|
  {
    var init, last := os[..|os| - 1], os[|os| - 1];
    if f(last) {
      LastValueSnoc(Filter(init, f), last, os[i].0);
    }
    if i < |os| - 1 {
      LastKept(init, f, i);
    }
  }

  /** A key survives the filter exactly when some pair the filter keeps carries it. */
  lemma KeptKeys<K, V>(os: seq<(K, V)>, f: ((K, V)) -> bool, k: K)
    ensures k in Keys(Filter(os, f)) <==> exists i :: 0 <= i < |os| && f(os[i]) && os[i].0 == k
  {
    var ps := Filter(os, f);
    FilterSpec(os, f);
    KeysHas(ps, k);
    if k in Keys(ps) {
      var j :| 0 <= j < |ps| && ps[j].0 == k;
      assert ps[j] in os;
    }
    if exists i :: 0 <= i < |os| && f(os[i]) && os[i].0 == k {
      var i :| 0 <= i < |os| && f(os[i]) && os[i].0 == k;
      assert os[i] in ps;
    }
  }

  /** Grouping one more (key, value) pair appends the value to its key's list. */
  lemma GroupPairsSnoc<K, V>(ps: seq<(K, V)>, p: (K, V))
    ensures Group(Keys(ps + [p]), Values(ps + [p])) == Append(Group(Keys(ps), Values(ps)), p.0, p.1)
  {
    var ks := Keys(ps + [p]);
    var vs := Values(ps + [p]);
    assert ks[..|ps|] == Keys(ps);
    assert vs[..|ps|] == Values(ps);
  }

  /** Grouping pairs unfolds at the last pair. */
  lemma GroupPairsLast<K, V>(ps: seq<(K, V)>)
    requires ps != []
    ensures Group(Keys(ps), Values(ps)) ==
      Append(Group(Keys(ps[..|ps| - 1]), Values(ps[..|ps| - 1])), ps[|ps| - 1].0, ps[|ps| - 1].1)
  {
    var n := |ps|;
    assert Keys(ps)[..n - 1] == Keys(ps[..n - 1]);
    assert Values(ps)[..n - 1] == Values(ps[..n - 1]);
  }
}
