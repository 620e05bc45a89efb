/**
 * A Python `dict` with string keys: a map plus the insertion order of its keys, which is
 * the order `for key in d`, `list(d.keys())` and `min(d, key=...)` visit them in.
 */
module Dicts {
  import opened Text

  predicate NoDup<T(==)>(s: seq<T>) {
    forall i, j :: 0 <= i < j < |s| ==> s[i] != s[j]
  }

  /** `s` without `k`. */
  function Remove(s: seq<string>, k: string): (r: seq<string>)
    ensures forall x :: x in r <==> x in s && x != k
    ensures NoDup(s) ==> NoDup(r)
    ensures k !in s ==> r == s
    ensures NoDup(s) && k in s ==> |r| == |s| - 1
  {
    if s == [] then []
    else
      var rest := Remove(s[1..], k);
      if s[0] == k then
        assert NoDup(s) ==> k !in s[1..];
        rest
      else
        assert NoDup(s) ==> s[0] !in s[1..];
        [s[0]] + rest
  }

  /** Removing an element that occurs once closes the gap it leaves. */
  lemma {:induction false} RemoveSplit(a: seq<string>, k: string, b: seq<string>)
    requires k !in a && k !in b
    ensures Remove(a + [k] + b, k) == a + b
  {
    if a == [] {
      assert a + [k] + b == [k] + b;
      RemoveHead(k, b);
    } else {
      var t := a[1..] + [k] + b;
      calc {
        Remove(a + [k] + b, k);
        { assert a + [k] + b == [a[0]] + t; }
        Remove([a[0]] + t, k);
        { RemoveOther(a[0], t, k); }
        [a[0]] + Remove(t, k);
        { RemoveSplit(a[1..], k, b); }
        [a[0]] + (a[1..] + b);
        { assert a == [a[0]] + a[1..]; }
        a + b;
      }
    }
  }

  lemma RemoveHead(k: string, t: seq<string>)
    requires k !in t
    ensures Remove([k] + t, k) == t
  {
    assert ([k] + t)[1..] == t;
  }

  lemma RemoveOther(x: string, t: seq<string>, k: string)
    requires x != k
    ensures Remove([x] + t, k) == [x] + Remove(t, k)
  {
    assert ([x] + t)[1..] == t;
  }

  /** The keys of `s` that do not start with `prefix`, in their order. */
  function Keep(s: seq<string>, prefix: string): (r: seq<string>)
    ensures forall x :: x in r <==> x in s && !IsPrefix(prefix, x)
    ensures NoDup(s) ==> NoDup(r)
    ensures |r| <= |s|
  {
    if s == [] then []
    else
      var init := s[..|s| - 1];
      var last := s[|s| - 1];
      assert s == init + [last];
      assert NoDup(s) ==> last !in init;
      Keep(init, prefix) + if IsPrefix(prefix, last) then [] else [last]
  }

  /** The keys of `s` that start with `prefix`. */
  function Matching(s: seq<string>, prefix: string): set<string> {
    set k | k in s && IsPrefix(prefix, k)
  }

  /** A set holds as many elements as a duplicate-free sequence listing it. */
  lemma {:induction false} CardinalityOfNoDup(s: seq<string>)
    requires NoDup(s)
    ensures |set x | x in s| == |s|
  {
    if s != [] {
      var init := s[..|s| - 1];
      assert s == init + [s[|s| - 1]];
      CardinalityOfNoDup(init);
      assert (set x | x in s) == (set x | x in init) + {s[|s| - 1]};
    }
  }

  datatype Dict<V> = Dict(items: map<string, V>, order: seq<string>) {

    /** Every key is listed once, and only keys are listed. */
    predicate Valid() {
      && NoDup(order)
      && (forall k :: k in items ==> k in order)
      && (forall k :: k in order ==> k in items)
    }

    /** `len(d)`. */
    function Size(): nat {
      |order|
    }

    /** `d.pop(k, None)`: the entry goes, the remaining keys keep their order. */
    function Pop(k: string): (r: Dict<V>)
      ensures r.items == items - {k}
      ensures Valid() ==> r.Valid()
      ensures Valid() && k in items ==> r.Size() == Size() - 1
      ensures k !in order ==> r.order == order
      ensures Valid() && k in items ==>
        exists i :: 0 <= i < |order| && order[i] == k && r.order == order[..i] + order[i + 1..]
    {
      if Valid() && k in items then
        PopAt(order, k);
        Dict(items - {k}, Remove(order, k))
      else Dict(items - {k}, Remove(order, k))
    }

    /** `d[k] = v`: an existing key keeps its place, a new one goes to the end. */
    function Assign(k: string, v: V): (r: Dict<V>)
      ensures r.items == items[k := v]
      ensures Valid() ==> r.Valid()
      ensures Valid() ==> r.Size() == if k in items then Size() else Size() + 1
      ensures k in items ==> r.order == order
      ensures k !in items ==> r.order == order + [k]
    {
      if k in items then Dict(items[k := v], order)
      else
        assert NoDup(order) && k !in order ==> NoDup(order + [k]);
        Dict(items[k := v], order + [k])
    }
  }

  /** Removing a key listed once closes the gap at its position. */
  lemma PopAt(order: seq<string>, k: string)
    requires NoDup(order) && k in order
    ensures exists i :: 0 <= i < |order| && order[i] == k && Remove(order, k) == order[..i] + order[i + 1..]
  {
    var i :| 0 <= i < |order| && order[i] == k;
    assert order == order[..i] + [k] + order[i + 1..];
    assert k !in order[..i] && k !in order[i + 1..];
    RemoveSplit(order[..i], k, order[i + 1..]);
  }

  /** `len(d)` is the number of keys. */
  lemma SizeIsKeyCount<V>(d: Dict<V>)
    requires d.Valid()
    ensures |d.items| == d.Size()
  {
    CardinalityOfNoDup(d.order);
    assert d.items.Keys == set x | x in d.order;
  }
}
