/**
 * The plain JavaScript objects the analyzer uses as dictionaries
 * (`Record<string, ...>` built from `{}`): own properties in creation
 * order, property reads and writes, the order in which `Object.entries`
 * lists them, and the names every such object inherits from
 * `Object.prototype`.
 */
module JsObject {
  import opened Wrappers
  import opened Text

  /** The own properties of an object, in the order they were created. */
  type Props<V> = seq<(string, V)>

  function Keys<V>(ps: Props<V>): (ks: seq<string>)
    ensures |ks| == |ps| && forall i :: 0 <= i < |ps| ==> ks[i] == ps[i].0
  {
    if ps == [] then [] else [ps[0].0] + Keys(ps[1..])
  }

  /** No two own properties share a key. */
  predicate DistinctKeys<V>(ps: Props<V>)
  {
    forall i, j :: 0 <= i < j < |ps| ==> ps[i].0 != ps[j].0
  }

  /** `obj[k]` restricted to own properties: `None` when `k` is not an own key. */
  function Lookup<V>(ps: Props<V>, k: string): (r: Option<V>)
    ensures r.None? <==> k !in Keys(ps)
    ensures r.Some? ==> (k, r.value) in ps
  {
    if ps == [] then None
    else if ps[0].0 == k then Some(ps[0].1)
    else
      assert Keys(ps) == [ps[0].0] + Keys(ps[1..]);
      Lookup(ps[1..], k)
  }

  /**
   * `obj[k] = v` on an own data property: an existing property keeps its
   * place in creation order, a new one is created last.
   */
  function Put<V>(ps: Props<V>, k: string, v: V): (r: Props<V>)
    ensures |r| == if k in Keys(ps) then |ps| else |ps| + 1
  {
    if ps == [] then [(k, v)]
    else if ps[0].0 == k then [(k, v)] + ps[1..]
    else
      assert Keys(ps) == [ps[0].0] + Keys(ps[1..]);
      [ps[0]] + Put(ps[1..], k, v)
  }

  /** After `obj[k] = v`, reading `k` gives `v` and every other key reads as before. */
  lemma {:induction false} PutLookup<V>(ps: Props<V>, k: string, v: V, k': string)
    ensures Lookup(Put(ps, k, v), k') == if k' == k then Some(v) else Lookup(ps, k')
    decreases |ps|
  {
    if ps != [] && ps[0].0 != k {
      PutLookup(ps[1..], k, v, k');
    }
  }

  /** A write keeps the keys in place and adds a new key at the end. */
  lemma {:induction false} PutKeys<V>(ps: Props<V>, k: string, v: V)
    ensures Keys(Put(ps, k, v)) == if k in Keys(ps) then Keys(ps) else Keys(ps) + [k]
    decreases |ps|
  {
    if ps != [] {
      assert Keys(ps) == [ps[0].0] + Keys(ps[1..]);
      if ps[0].0 != k {
        PutKeys(ps[1..], k, v);
        assert Keys(Put(ps, k, v)) == [ps[0].0] + Keys(Put(ps[1..], k, v));
      } else {
        assert Keys(Put(ps, k, v)) == [k] + Keys(ps[1..]);
      }
    }
  }

  /** A second write to the same key overrides the first, in the same place. */
  lemma {:induction false} PutPut<V>(ps: Props<V>, k: string, v: V, w: V)
    ensures Put(Put(ps, k, v), k, w) == Put(ps, k, w)
    decreases |ps|
  {
    if ps != [] && ps[0].0 != k {
      PutPut(ps[1..], k, v, w);
      assert ([ps[0]] + Put(ps[1..], k, v))[1..] == Put(ps[1..], k, v);
    } else if ps != [] {
      assert ([(k, v)] + ps[1..])[1..] == ps[1..];
    }
  }

  /** A write adds the written property and keeps or drops the others, and adds nothing else. */
  lemma {:induction false} PutMembers<V>(ps: Props<V>, k: string, v: V, x: (string, V))
    requires x in Put(ps, k, v)
    ensures x == (k, v) || x in ps
    decreases |ps|
  {
    if ps != [] && ps[0].0 != k && x != ps[0] {
      assert x in Put(ps[1..], k, v);
      PutMembers(ps[1..], k, v, x);
    } else if ps != [] && ps[0].0 == k && x != (k, v) {
      assert x in ps[1..];
    }
  }

  predicate DistinctSeq(ks: seq<string>)
  {
    forall i, j :: 0 <= i < j < |ks| ==> ks[i] != ks[j]
  }

  /** A write never makes two own properties share a key. */
  lemma {:induction false} PutDistinct<V>(ps: Props<V>, k: string, v: V)
    requires DistinctKeys(ps)
    ensures DistinctKeys(Put(ps, k, v))
  {
    PutKeys(ps, k, v);
    var ks, rs := Keys(ps), Keys(Put(ps, k, v));
    assert DistinctSeq(ks) by {
      forall i, j | 0 <= i < j < |ks| ensures ks[i] != ks[j] {
        assert ks[i] == ps[i].0 && ks[j] == ps[j].0;
      }
    }
    assert DistinctSeq(rs);
    var r := Put(ps, k, v);
    forall i, j | 0 <= i < j < |r| ensures r[i].0 != r[j].0 {
      assert rs[i] == r[i].0 && rs[j] == r[j].0;
    }
  }

  // ---------------------------------------------------------------------
  // The order of `Object.entries`

  /**
   * An array index (section 6.1.7 of ECMA-262): the canonical decimal
   * rendering of an integer below 2^32 - 1.
   */
  predicate IsArrayIndex(k: string)
  {
    && k != []
    && IsDigit(k[0])
    && (|k| == 1 || k[0] != '0')
    && Numeral(k).Some?
    && Numeral(k).value < 0xFFFF_FFFF
  }

  /** The value of `k` read as a decimal numeral, or `None` when `k` holds a non-digit. */
  function Numeral(k: string): Option<nat>
  {
    if k == [] then Some(0)
    else
      match Numeral(k[..|k| - 1])
      case None => None
      case Some(n) => if IsDigit(k[|k| - 1]) then Some(10 * n + DigitValue(k[|k| - 1])) else None
  }

  /** The numeric value of an array-index key; 0 for any other key. */
  function IndexValue(k: string): nat
  {
    if IsArrayIndex(k) then Numeral(k).value else 0
  }

  predicate NotArrayIndex(k: string)
  {
    !IsArrayIndex(k)
  }

  /** The properties whose keys pass `keep`, in creation order. */
  function Select<V>(keep: string -> bool, ps: Props<V>): (r: Props<V>)
    ensures forall i :: 0 <= i < |r| ==> keep(r[i].0)
  {
    if ps == [] then []
    else (if keep(ps[0].0) then [ps[0]] else []) + Select(keep, ps[1..])
  }

  predicate SortedBy<V>(rank: string -> nat, ps: Props<V>)
  {
    forall i, j :: 0 <= i < j < |ps| ==> rank(ps[i].0) <= rank(ps[j].0)
  }

  /** `x` placed before the first property of `s` of larger rank. */
  function InsertBy<V>(rank: string -> nat, x: (string, V), s: Props<V>): Props<V>
  {
    if s == [] || rank(x.0) <= rank(s[0].0) then [x] + s
    else [s[0]] + InsertBy(rank, x, s[1..])
  }

  /** A stable sort of `ps` by the rank of the keys. */
  function SortBy<V>(rank: string -> nat, ps: Props<V>): Props<V>
  {
    if ps == [] then [] else InsertBy(rank, ps[0], SortBy(rank, ps[1..]))
  }

  /**
   * `Object.entries(obj)`: the own properties with array-index keys in
   * ascending numeric order, then all others in creation order
   * (OrdinaryOwnPropertyKeys, section 10.1.11.1 of ECMA-262).
   */
  function Entries<V>(ps: Props<V>): Props<V>
  {
    SortBy(IndexValue, Select(IsArrayIndex, ps)) + Select(NotArrayIndex, ps)
  }

  predicate NoArrayIndexKeys<V>(ps: Props<V>)
  {
    forall i :: 0 <= i < |ps| ==> !IsArrayIndex(ps[i].0)
  }

  lemma {:induction false} InsertByPermutes<V>(rank: string -> nat, x: (string, V), s: Props<V>)
    ensures multiset(InsertBy(rank, x, s)) == multiset([x] + s)
    decreases |s|
  {
    if !(s == [] || rank(x.0) <= rank(s[0].0)) {
      InsertByPermutes(rank, x, s[1..]);
      assert s == [s[0]] + s[1..];
      assert InsertBy(rank, x, s) == [s[0]] + InsertBy(rank, x, s[1..]);
    }
  }

  /** Every property of `s` has rank at least `m`. */
  predicate RankAtLeast<V>(rank: string -> nat, m: nat, s: Props<V>)
  {
    forall i :: 0 <= i < |s| ==> m <= rank(s[i].0)
  }

  lemma {:induction false} InsertByAtLeast<V>(rank: string -> nat, m: nat, x: (string, V), s: Props<V>)
    requires RankAtLeast(rank, m, s) && m <= rank(x.0)
    ensures RankAtLeast(rank, m, InsertBy(rank, x, s))
    decreases |s|
  {
    if !(s == [] || rank(x.0) <= rank(s[0].0)) {
      InsertByAtLeast(rank, m, x, s[1..]);
    }
  }

  lemma {:induction false} InsertBySorted<V>(rank: string -> nat, x: (string, V), s: Props<V>)
    requires SortedBy(rank, s)
    ensures SortedBy(rank, InsertBy(rank, x, s))
    decreases |s|
  {
    if s != [] && rank(x.0) > rank(s[0].0) {
      var t := InsertBy(rank, x, s[1..]);
      InsertBySorted(rank, x, s[1..]);
      InsertByAtLeast(rank, rank(s[0].0), x, s[1..]);
      var r := [s[0]] + t;
      forall i, j | 0 <= i < j < |r| ensures rank(r[i].0) <= rank(r[j].0) {
        assert r[j] == t[j - 1];
        if i > 0 {
          assert r[i] == t[i - 1];
        }
      }
    } else if s != [] {
      var r := [x] + s;
      forall i, j | 0 <= i < j < |r| ensures rank(r[i].0) <= rank(r[j].0) {
        assert r[j] == s[j - 1];
        if i > 0 {
          assert r[i] == s[i - 1];
        }
      }
    }
  }

  /** Sorting by rank orders the properties and keeps each of them. */
  lemma {:induction false} SortBySorted<V>(rank: string -> nat, ps: Props<V>)
    ensures SortedBy(rank, SortBy(rank, ps))
    ensures multiset(SortBy(rank, ps)) == multiset(ps)
    decreases |ps|
  {
    if ps != [] {
      SortBySorted(rank, ps[1..]);
      InsertBySorted(rank, ps[0], SortBy(rank, ps[1..]));
      InsertByPermutes(rank, ps[0], SortBy(rank, ps[1..]));
      assert ps == [ps[0]] + ps[1..];
    }
  }

  /** Selecting by a test and by its negation splits the properties between the two. */
  lemma {:induction false} SelectSplit<V>(p: string -> bool, q: string -> bool, ps: Props<V>)
    requires forall k :: q(k) == !p(k)
    ensures multiset(Select(p, ps)) + multiset(Select(q, ps)) == multiset(ps)
    decreases |ps|
  {
    if ps != [] {
      var x, rest := ps[0], ps[1..];
      SelectSplit(p, q, rest);
      assert ps == [x] + rest;
      if p(x.0) {
        assert Select(p, ps) == [x] + Select(p, rest);
        assert Select(q, ps) == Select(q, rest);
      } else {
        assert Select(q, ps) == [x] + Select(q, rest);
        assert Select(p, ps) == Select(p, rest);
      }
    }
  }

  /** Selecting by a test every key passes keeps everything; one no key passes keeps nothing. */
  lemma {:induction false} SelectEvery<V>(p: string -> bool, q: string -> bool, ps: Props<V>)
    requires forall i :: 0 <= i < |ps| ==> p(ps[i].0) && !q(ps[i].0)
    ensures Select(p, ps) == ps && Select(q, ps) == []
    decreases |ps|
  {
    if ps != [] {
      SelectEvery(p, q, ps[1..]);
      assert ps == [ps[0]] + ps[1..];
    }
  }

  /** `Object.entries` lists every own property exactly once. */
  lemma {:induction false} EntriesPermutes<V>(ps: Props<V>)
    ensures multiset(Entries(ps)) == multiset(ps)
  {
    var ix := Select(IsArrayIndex, ps);
    SortBySorted(IndexValue, ix);
    SelectSplit(IsArrayIndex, NotArrayIndex, ps);
  }

  /** The sorted array-index properties all have array-index keys. */
  lemma {:induction false} SortedIndexKeys<V>(ps: Props<V>)
    ensures forall i :: 0 <= i < |SortBy(IndexValue, Select(IsArrayIndex, ps))| ==>
      IsArrayIndex(SortBy(IndexValue, Select(IsArrayIndex, ps))[i].0)
  {
    var ix := Select(IsArrayIndex, ps);
    var a := SortBy(IndexValue, ix);
    SortBySorted(IndexValue, ix);
    forall i | 0 <= i < |a| ensures IsArrayIndex(a[i].0) {
      assert a[i] in multiset(ix);
      var m :| 0 <= m < |ix| && ix[m] == a[i];
    }
  }

  /**
   * `Object.entries` lists the array-index keys before all other keys, in
   * ascending numeric order.
   */
  lemma {:induction false} EntriesIndexFirst<V>(ps: Props<V>)
    ensures forall i, j :: 0 <= i < j < |Entries(ps)| && IsArrayIndex(Entries(ps)[j].0) ==>
      IsArrayIndex(Entries(ps)[i].0) && IndexValue(Entries(ps)[i].0) <= IndexValue(Entries(ps)[j].0)
  {
    var a, b := SortBy(IndexValue, Select(IsArrayIndex, ps)), Select(NotArrayIndex, ps);
    SortBySorted(IndexValue, Select(IsArrayIndex, ps));
    SortedIndexKeys(ps);
    var es := a + b;
    assert Entries(ps) == es;
    forall i, j | 0 <= i < j < |es| && IsArrayIndex(es[j].0)
      ensures IsArrayIndex(es[i].0) && IndexValue(es[i].0) <= IndexValue(es[j].0)
    {
      assert es[i] == a[i] && es[j] == a[j];
    }
  }

  /** An object without array-index keys is listed in creation order. */
  lemma {:induction false} EntriesNoIndex<V>(ps: Props<V>)
    requires NoArrayIndexKeys(ps)
    ensures Entries(ps) == ps
  {
    SelectEvery(NotArrayIndex, IsArrayIndex, ps);
    assert SortBy<V>(IndexValue, []) == [];
  }

  /** Every property `Object.entries` lists is an own property. */
  lemma {:induction false} EntriesMember<V>(ps: Props<V>, x: (string, V))
    requires x in Entries(ps)
    ensures x in ps
  {
    EntriesPermutes(ps);
    assert x in multiset(Entries(ps));
  }

  // ---------------------------------------------------------------------
  // What every `{}` inherits

  /**
   * The members of `Object.prototype`. Reading one of these names from a
   * `{}` that has no own property of that name yields an inherited
   * function (or, for `__proto__`, `Object.prototype` itself), which is
   * truthy.
   */
  const ObjectPrototypeNames: seq<string> :=
    ["constructor", "__defineGetter__", "__defineSetter__", "hasOwnProperty",
     "__lookupGetter__", "__lookupSetter__", "isPrototypeOf",
     "propertyIsEnumerable", "toString", "valueOf", "__proto__",
     "toLocaleString"]

  predicate Inherited(k: string)
  {
    k in ObjectPrototypeNames
  }

  /** No inherited name is an array index, and none starts with a '.'. */
  lemma InheritedNames(k: string)
    requires Inherited(k)
    ensures !IsArrayIndex(k) && k != [] && k[0] != '.'
  {
  }
}
