/** The stock mapping of the inventory: a Python dict from item name to
    integer quantity. A dict remembers insertion order, so it is modelled as
    the sequence of its entries in that order, and `ToMap` gives the plain
    mapping the entries stand for. */
module Ledger {

  datatype Option<T> = None | Some(value: T)

  /** One key/value pair of the dict. */
  datatype Entry = Entry(name: string, qty: int)

  /** The entries in the order `dict.items()` yields them. */
  type Items = seq<Entry>

  /** No element occurs twice. */
  predicate Distinct<T(==)>(s: seq<T>) {
    forall i, j :: 0 <= i < j < |s| ==> s[i] != s[j]
  }

  /** `xs` is `ys` with some elements dropped and the others kept in order. */
  predicate IsSubseq<T(==)>(xs: seq<T>, ys: seq<T>)
    decreases |ys|
  {
    || xs == []
    || (&& ys != []
        && ((xs[0] == ys[0] && IsSubseq(xs[1..], ys[1..])) || IsSubseq(xs, ys[1..])))
  }

  /** The keys, in dict order. */
  function Names(l: Items): (ns: seq<string>)
    ensures |ns| == |l|
    ensures forall i :: 0 <= i < |l| ==> ns[i] == l[i].name
  {
    seq(|l|, i requires 0 <= i < |l| => l[i].name)
  }

  /** A dict holds each key at most once. */
  predicate Wf(l: Items) {
    Distinct(Names(l))
  }

  /** The mapping the entries stand for; of two entries with one name the
      earlier wins, which never matters once `Wf` holds. */
  function ToMap(l: Items): (m: map<string, int>)
  {
    if l == [] then map[] else ToMap(l[1..])[l[0].name := l[0].qty]
  }

  /** The mapping's keys are exactly the entries' names. */
  lemma {:induction false} ToMapKeys(l: Items)
    ensures forall k :: k in ToMap(l) <==> k in Names(l)
  {
    if l != [] {
      assert Names(l) == [l[0].name] + Names(l[1..]);
      ToMapKeys(l[1..]);
    }
  }

  /** The position of the first entry named `k`, if any. */
  function Find(l: Items, k: string): (r: Option<nat>)
    ensures r.Some? ==> r.value < |l| && l[r.value].name == k
    ensures r.Some? ==> forall i :: 0 <= i < r.value ==> l[i].name != k
    ensures r.None? <==> k !in Names(l)
  {
    if l == [] then None
    else if l[0].name == k then Some(0)
    else
      assert Names(l) == [l[0].name] + Names(l[1..]);
      match Find(l[1..], k)
      case None => None
      case Some(j) => Some(j + 1)
  }

  /** The entry `Find` locates carries the quantity the mapping holds. */
  lemma {:induction false} FindAgreesWithMap(l: Items, k: string)
    ensures Find(l, k).Some? ==> k in ToMap(l) && ToMap(l)[k] == l[Find(l, k).value].qty
  {
    if l != [] && l[0].name != k {
      FindAgreesWithMap(l[1..], k);
    }
  }

  /** In a well-formed dict every entry's quantity is what the mapping holds. */
  lemma {:induction false} ToMapAt(l: Items, i: nat)
    requires Wf(l)
    requires i < |l|
    ensures l[i].name in ToMap(l) && ToMap(l)[l[i].name] == l[i].qty
  {
    if i > 0 {
      assert Wf(l[1..]) by {
        assert Names(l[1..]) == Names(l)[1..];
      }
      ToMapAt(l[1..], i - 1);
      assert l[0].name != l[i].name by {
        assert Names(l)[0] != Names(l)[i];
      }
    }
  }

  /** Two well-formed dicts with the same keys in the same order and the
      same mapping are the same dict. */
  lemma SameViewSameItems(a: Items, b: Items)
    requires Wf(a) && Wf(b)
    requires Names(a) == Names(b)
    requires ToMap(a) == ToMap(b)
    ensures a == b
  {
    forall i | 0 <= i < |a|
      ensures a[i] == b[i]
    {
      ToMapAt(a, i);
      ToMapAt(b, i);
    }
  }

  /** `d.get(k, 0)`. */
  function Get(l: Items, k: string): (r: int)
    ensures k in ToMap(l) ==> r == ToMap(l)[k]
    ensures k !in ToMap(l) ==> r == 0
  {
    FindAgreesWithMap(l, k);
    ToMapKeys(l);
    match Find(l, k)
    case None => 0
    case Some(i) => l[i].qty
  }

  /** Appending an entry whose name is new adds it to the mapping. */
  lemma {:induction false} ToMapAppend(l: Items, e: Entry)
    requires e.name !in Names(l)
    ensures ToMap(l + [e]) == ToMap(l)[e.name := e.qty]
  {
    if l != [] {
      assert (l + [e])[1..] == l[1..] + [e];
      assert Names(l) == [l[0].name] + Names(l[1..]);
      ToMapAppend(l[1..], e);
    }
  }

  /** Rewriting the first entry named `k` overwrites `k` in the mapping. */
  lemma {:induction false} ToMapReplace(l: Items, i: nat, v: int)
    requires i < |l|
    requires forall j :: 0 <= j < i ==> l[j].name != l[i].name
    ensures ToMap(l[i := Entry(l[i].name, v)]) == ToMap(l)[l[i].name := v]
  {
    if i > 0 {
      assert l[i := Entry(l[i].name, v)][1..] == l[1..][i - 1 := Entry(l[i].name, v)];
      ToMapReplace(l[1..], i - 1, v);
    }
  }

  /** `d[k] = v`: an existing key keeps its place, a new key goes last. */
  function Put(l: Items, k: string, v: int): (r: Items)
    requires Wf(l)
    ensures Wf(r)
    ensures ToMap(r) == ToMap(l)[k := v]
    ensures k in Names(l) ==> Names(r) == Names(l)
    ensures k !in Names(l) ==> Names(r) == Names(l) + [k]
  {
    match Find(l, k)
    case None =>
      ToMapAppend(l, Entry(k, v));
      assert Names(l + [Entry(k, v)]) == Names(l) + [k];
      l + [Entry(k, v)]
    case Some(i) =>
      ToMapReplace(l, i, v);
      assert Names(l[i := Entry(k, v)]) == Names(l);
      l[i := Entry(k, v)]
  }

  /** `del d[k]`, and a no-op for an absent key: the entry named `k` goes,
      the others stay in their order. */
  function Delete(l: Items, k: string): (r: Items)
    ensures ToMap(r) == ToMap(l) - {k}
    ensures IsSubseq(r, l)
    ensures k !in Names(l) ==> r == l
  {
    if l == [] then []
    else
      var rest := Delete(l[1..], k);
      if l[0].name == k then
        assert ToMap(l) - {k} == ToMap(l[1..]) - {k};
        rest
      else
        var r := [l[0]] + rest;
        assert r[0] == l[0] && r[1..] == rest;
        assert ToMap(r) == ToMap(rest)[l[0].name := l[0].qty];
        MapRemoveUpdate(ToMap(l[1..]), k, l[0].name, l[0].qty);
        assert k !in Names(l) ==> k !in Names(l[1..]) && r == l by {
          assert Names(l) == [l[0].name] + Names(l[1..]);
          assert l == [l[0]] + l[1..];
        }
        r
  }

  /** Removing one key commutes with setting another. */
  lemma MapRemoveUpdate(m: map<string, int>, k: string, a: string, v: int)
    requires a != k
    ensures (m - {k})[a := v] == m[a := v] - {k}
  {
  }

  /** What is left after a deletion is still a well-formed dict. */
  lemma DeleteKeepsWf(l: Items, k: string)
    requires Wf(l)
    ensures Wf(Delete(l, k))
  {
    SubseqNames(Delete(l, k), l);
    SubseqDistinct(Names(Delete(l, k)), Names(l));
  }

  /** The names of the entries whose quantity is below `t`, in dict order. */
  function Below(l: Items, t: int): (r: seq<string>)
    requires Wf(l)
    ensures IsSubseq(r, Names(l))
    ensures Distinct(r)
    ensures forall n :: n in r <==> n in ToMap(l) && ToMap(l)[n] < t
  {
    if l == [] then []
    else
      assert Names(l) == [l[0].name] + Names(l[1..]);
      assert Names(l[1..]) == Names(l)[1..];
      var rest := Below(l[1..], t);
      ToMapKeys(l[1..]);
      if l[0].qty < t then
        var r := [l[0].name] + rest;
        assert r[1..] == rest;
        SubseqDistinct(r, Names(l));
        r
      else rest
  }

  /** Every sequence is a subsequence of itself. */
  lemma {:induction false} SubseqRefl<T>(xs: seq<T>)
    ensures IsSubseq(xs, xs)
    decreases |xs|
  {
    if xs != [] {
      SubseqRefl(xs[1..]);
    }
  }

  /** A subsequence draws its elements from the whole, so it repeats none
      when the whole repeats none. */
  lemma {:induction false} SubseqDistinct<T>(xs: seq<T>, ys: seq<T>)
    requires IsSubseq(xs, ys)
    ensures forall x :: x in xs ==> x in ys
    ensures Distinct(ys) ==> Distinct(xs)
    decreases |ys|
  {
    if xs != [] {
      if xs[0] == ys[0] && IsSubseq(xs[1..], ys[1..]) {
        SubseqDistinct(xs[1..], ys[1..]);
        assert xs == [xs[0]] + xs[1..];
        if Distinct(ys) {
          assert xs[0] !in ys[1..];
        }
      } else {
        SubseqDistinct(xs, ys[1..]);
      }
    }
  }

  /** Dropping elements from a sequence of entries drops the same names. */
  lemma {:induction false} SubseqNames(xs: Items, ys: Items)
    requires IsSubseq(xs, ys)
    ensures IsSubseq(Names(xs), Names(ys))
    decreases |ys|
  {
    if xs != [] {
      assert Names(ys)[1..] == Names(ys[1..]);
      if xs[0] == ys[0] && IsSubseq(xs[1..], ys[1..]) {
        assert Names(xs)[1..] == Names(xs[1..]);
        SubseqNames(xs[1..], ys[1..]);
      } else {
        SubseqNames(xs, ys[1..]);
      }
    }
  }

  /** An element that a subsequence does not use can be dropped from the end
      of the whole. */
  lemma {:induction false} SubseqDropLast<T>(xs: seq<T>, ys: seq<T>, y: T)
    requires IsSubseq(xs, ys + [y])
    requires y !in xs
    ensures IsSubseq(xs, ys)
    decreases |ys|
  {
    if xs != [] && ys != [] {
      assert (ys + [y])[1..] == ys[1..] + [y];
      if xs[0] == ys[0] && IsSubseq(xs[1..], ys[1..] + [y]) {
        SubseqDropLast(xs[1..], ys[1..], y);
      } else {
        SubseqDropLast(xs, ys[1..], y);
      }
    }
  }

  /** A subsequence of a repetition-free sequence that uses every element of
      it is the whole sequence. */
  lemma {:induction false} SubseqCovering<T>(xs: seq<T>, ys: seq<T>)
    requires IsSubseq(xs, ys)
    requires Distinct(ys)
    requires forall y :: y in ys ==> y in xs
    ensures xs == ys
    decreases |ys|
  {
    SubseqDistinct(xs, ys);
    if ys != [] {
      assert ys[0] in xs;
      assert Distinct(ys[1..]) by {
        assert forall i, j :: 0 <= i < j < |ys| - 1 ==> ys[1..][i] == ys[i + 1] && ys[1..][j] == ys[j + 1];
      }
      if xs[0] == ys[0] && IsSubseq(xs[1..], ys[1..]) {
        forall y | y in ys[1..]
          ensures y in xs[1..]
        {
          assert y in xs && y != xs[0];
        }
        SubseqCovering(xs[1..], ys[1..]);
        assert xs == [xs[0]] + xs[1..];
      } else {
        SubseqDistinct(xs, ys[1..]);
      }
    }
  }
}
