/**
 * The own string-keyed properties of a plain JavaScript object used as a
 * dictionary: which names are array indices, which names are inherited from
 * Object.prototype, and the order in which for..in visits the own keys
 * (OrdinaryOwnPropertyKeys, section 10.1.11.1 of ECMA-262: array indices in
 * ascending numeric order, then the other string keys in creation order).
 */
module PropertyKeys {
  import opened Decimal

  /** 2^32 - 1: array indices are the canonical numerals below it (section 6.1.7 of ECMA-262). */
  const ArrayIndexBound: nat := 4294967295

  predicate IsArrayIndex(k: string) {
    |k| > 0 && IsDigit(k[0]) && Canonical(k) && DigitsValue(k) < ArrayIndexBound
  }

  /** The array indices are exactly the decimal renderings of 0 .. 2^32 - 2. */
  lemma ArrayIndexIsDecimal(k: string)
    ensures IsArrayIndex(k) <==> exists n: nat :: n < ArrayIndexBound && k == ToDecimal(n)
  {
    if IsArrayIndex(k) {
      DecimalOfValue(k);
      assert k == ToDecimal(DigitsValue(k));
    }
    if exists n: nat :: n < ArrayIndexBound && k == ToDecimal(n) {
      var n: nat :| n < ArrayIndexBound && k == ToDecimal(n);
      ValueOfDecimal(n);
    }
  }

  /**
   * The properties every plain object inherits from Object.prototype
   * (section 20.1.3 of ECMA-262, and the legacy accessors of its Annex B.2.2).
   * Reading one of these names on a fresh `{}` gives a function or an object,
   * never `undefined`.
   */
  const ObjectPrototypeNames: set<string> := {
    "constructor", "hasOwnProperty", "isPrototypeOf", "propertyIsEnumerable",
    "toLocaleString", "toString", "valueOf", "__proto__",
    "__defineGetter__", "__defineSetter__", "__lookupGetter__", "__lookupSetter__"
  }

  predicate InheritedMember(k: string) {
    k in ObjectPrototypeNames
  }

  /** The numeric value of an array-index key (0 for any other key). */
  function IndexValue(k: string): nat {
    if IsArrayIndex(k) then DigitsValue(k) else 0
  }

  predicate NotArrayIndex(k: string) {
    !IsArrayIndex(k)
  }

  /** The keys on which `p` holds, in their original order. */
  function Select(keys: seq<string>, p: string -> bool): seq<string> {
    if keys == [] then []
    else Select(keys[..|keys| - 1], p) + (if p(keys[|keys| - 1]) then [keys[|keys| - 1]] else [])
  }

  /** Selection keeps exactly the keys on which `p` holds. */
  lemma {:induction false} SelectMembers(keys: seq<string>, p: string -> bool)
    ensures forall k :: k in Select(keys, p) <==> k in keys && p(k)
  {
    if keys != [] {
      var init := keys[..|keys| - 1];
      SelectMembers(init, p);
      assert keys == init + [keys[|keys| - 1]];
    }
  }

  /** Selection distributes over concatenation. */
  lemma {:induction false} SelectAppend(keys: seq<string>, more: seq<string>, p: string -> bool)
    ensures Select(keys + more, p) == Select(keys, p) + Select(more, p)
    decreases |more|
  {
    if more == [] {
      assert keys + more == keys;
    } else {
      var init := more[..|more| - 1];
      assert (keys + more)[..|keys + more| - 1] == keys + init;
      SelectAppend(keys, init, p);
    }
  }

  /** Selecting with `p` and with its negation splits the keys without loss. */
  lemma {:induction false} SelectPartition(keys: seq<string>, p: string -> bool, q: string -> bool)
    requires forall k :: q(k) == !p(k)
    ensures multiset(Select(keys, p)) + multiset(Select(keys, q)) == multiset(keys)
  {
    if keys != [] {
      var init := keys[..|keys| - 1];
      var last := keys[|keys| - 1];
      SelectPartition(init, p, q);
      assert keys == init + [last];
      assert multiset(keys) == multiset(init) + multiset{last};
    }
  }

  /** Selecting a predicate that holds of every key keeps them all. */
  lemma {:induction false} SelectAll(keys: seq<string>, p: string -> bool)
    requires forall k :: k in keys ==> p(k)
    ensures Select(keys, p) == keys
  {
    if keys != [] {
      var init := keys[..|keys| - 1];
      assert forall k :: k in init ==> k in keys;
      SelectAll(init, p);
      assert keys == init + [keys[|keys| - 1]];
    }
  }

  /** Selecting a predicate that holds of no key keeps none. */
  lemma {:induction false} SelectNone(keys: seq<string>, p: string -> bool)
    requires forall k :: k in keys ==> !p(k)
    ensures Select(keys, p) == []
  {
    if keys != [] {
      var init := keys[..|keys| - 1];
      assert forall k :: k in init ==> k in keys;
      SelectNone(init, p);
    }
  }

  predicate AscendingBy(ks: seq<string>, f: string -> nat) {
    forall i, j :: 0 <= i < j < |ks| ==> f(ks[i]) <= f(ks[j])
  }

  /** Every element of an ascending sequence is at least its head. */
  lemma HeadIsLeast(ks: seq<string>, f: string -> nat, x: string)
    requires AscendingBy(ks, f) && x in ks
    ensures f(ks[0]) <= f(x)
  {
  }

  /** A head no larger than any element of an ascending tail gives an ascending sequence. */
  lemma ConsAscending(h: string, rest: seq<string>, f: string -> nat)
    requires AscendingBy(rest, f)
    requires forall x :: x in rest ==> f(h) <= f(x)
    ensures AscendingBy([h] + rest, f)
  {
    var r := [h] + rest;
    forall i, j | 0 <= i < j < |r| ensures f(r[i]) <= f(r[j]) {
      assert r[j] == rest[j - 1];
      if i > 0 { assert r[i] == rest[i - 1]; }
    }
  }

  /** Insert k into a sequence ascending by `f`, before the first element whose value is not smaller. */
  function InsertBy(k: string, ks: seq<string>, f: string -> nat): (r: seq<string>)
    requires AscendingBy(ks, f)
    ensures AscendingBy(r, f)
    ensures multiset(r) == multiset(ks) + multiset{k}
  {
    if ks == [] then [k]
    else if f(k) <= f(ks[0]) then
      ConsAscending(k, ks, f);
      [k] + ks
    else
      var tail := ks[1..];
      assert AscendingBy(tail, f);
      var rest := InsertBy(k, tail, f);
      assert ks == [ks[0]] + tail;
      assert forall x :: x in rest ==> f(ks[0]) <= f(x) by {
        forall x | x in rest ensures f(ks[0]) <= f(x) {
          assert x in multiset(rest);
          if x != k {
            assert x in multiset(tail);
            assert x in ks;
            HeadIsLeast(ks, f, x);
          }
        }
      }
      ConsAscending(ks[0], rest, f);
      [ks[0]] + rest
  }

  /**
   * Sort keys by `f` (insertion sort). Keys of equal value end up in reverse
   * order, so the sort is not stable; the index keys it is used on have
   * distinct values (IndexValueInjective).
   */
  function SortBy(ks: seq<string>, f: string -> nat): (r: seq<string>)
    ensures AscendingBy(r, f)
    ensures multiset(r) == multiset(ks)
  {
    if ks == [] then []
    else
      assert ks == ks[..|ks| - 1] + [ks[|ks| - 1]];
      InsertBy(ks[|ks| - 1], SortBy(ks[..|ks| - 1], f), f)
  }

  /** The keys that are array indices, in creation order. */
  function IndexKeys(keys: seq<string>): seq<string> {
    Select(keys, IsArrayIndex)
  }

  /** The keys that are not array indices, in creation order. */
  function NamedKeys(keys: seq<string>): seq<string> {
    Select(keys, NotArrayIndex)
  }

  /** The order for..in visits the own keys of an object whose keys were created in order `keys`. */
  function OwnKeys(keys: seq<string>): seq<string> {
    SortBy(IndexKeys(keys), IndexValue) + NamedKeys(keys)
  }

  /** for..in visits every own key exactly as often as it exists: a permutation of the creation order. */
  lemma OwnKeysPermutes(keys: seq<string>)
    ensures multiset(OwnKeys(keys)) == multiset(keys)
    ensures forall k :: k in OwnKeys(keys) <==> k in keys
  {
    SelectPartition(keys, IsArrayIndex, NotArrayIndex);
    assert forall k :: k in OwnKeys(keys) <==> k in multiset(OwnKeys(keys));
  }

  /**
   * Every array-index key is visited before every other key, and the indices
   * ascend; the other keys are visited in creation order.
   */
  lemma OwnKeysIndicesFirst(keys: seq<string>)
    ensures var r := OwnKeys(keys);
      forall i, j :: 0 <= i < j < |r| && IsArrayIndex(r[j]) ==> IsArrayIndex(r[i]) && IndexValue(r[i]) <= IndexValue(r[j])
    ensures Select(OwnKeys(keys), NotArrayIndex) == NamedKeys(keys)
  {
    var sorted := SortBy(IndexKeys(keys), IndexValue);
    var r := OwnKeys(keys);
    SortedKeysAreIndices(keys);
    NamedPartNotIndices(keys);
    forall i, j | 0 <= i < j < |r| && IsArrayIndex(r[j])
      ensures IsArrayIndex(r[i]) && IndexValue(r[i]) <= IndexValue(r[j])
    {
      assert r[i] == sorted[i] && r[j] == sorted[j];
      assert r[i] in sorted;
    }
    NamedKeysKeepOrder(keys);
  }

  /** The sorted part of the visiting order holds only array indices. */
  lemma SortedKeysAreIndices(keys: seq<string>)
    ensures forall k :: k in SortBy(IndexKeys(keys), IndexValue) ==> IsArrayIndex(k)
  {
    var sorted := SortBy(IndexKeys(keys), IndexValue);
    SelectMembers(keys, IsArrayIndex);
    assert forall k :: k in sorted ==> k in multiset(IndexKeys(keys));
  }

  /** Past the sorted part, the visiting order holds no array index. */
  lemma NamedPartNotIndices(keys: seq<string>)
    ensures var n := |SortBy(IndexKeys(keys), IndexValue)|;
      forall j :: n <= j < |OwnKeys(keys)| ==> !IsArrayIndex(OwnKeys(keys)[j])
  {
    var sorted := SortBy(IndexKeys(keys), IndexValue);
    var named := NamedKeys(keys);
    var r := OwnKeys(keys);
    SelectMembers(keys, NotArrayIndex);
    assert forall j :: |sorted| <= j < |r| ==> r[j] == named[j - |sorted|] && r[j] in named;
  }

  /** Filtering the visiting order down to the non-index keys gives back their creation order. */
  lemma NamedKeysKeepOrder(keys: seq<string>)
    ensures Select(OwnKeys(keys), NotArrayIndex) == NamedKeys(keys)
  {
    var sorted := SortBy(IndexKeys(keys), IndexValue);
    var named := NamedKeys(keys);
    SelectMembers(keys, IsArrayIndex);
    SelectMembers(keys, NotArrayIndex);
    assert forall k :: k in sorted ==> k in multiset(IndexKeys(keys));
    SelectAppend(sorted, named, NotArrayIndex);
    SelectNone(sorted, NotArrayIndex);
    SelectAll(named, NotArrayIndex);
  }

  /** When no key is an array index, for..in follows creation order. */
  lemma NamedKeysInCreationOrder(keys: seq<string>)
    requires forall k :: k in keys ==> !IsArrayIndex(k)
    ensures OwnKeys(keys) == keys
  {
    SelectAll(keys, NotArrayIndex);
    SelectNone(keys, IsArrayIndex);
  }

  /** Creating a new key that is not an array index puts it last in for..in order. */
  lemma NewNamedKeyVisitedLast(keys: seq<string>, k: string)
    requires !IsArrayIndex(k)
    ensures OwnKeys(keys + [k]) == OwnKeys(keys) + [k]
  {
    SelectAppend(keys, [k], IsArrayIndex);
    SelectAppend(keys, [k], NotArrayIndex);
    assert Select([k], IsArrayIndex) == [] by { assert [k][..0] == []; }
    assert Select([k], NotArrayIndex) == [k] by { assert [k][..0] == []; }
    assert IndexKeys(keys + [k]) == IndexKeys(keys);
  }

  /** `obj[k] ??= []` on a missing own key: the key is created last. */
  function AddKey(keys: seq<string>, k: string): (r: seq<string>)
    ensures forall x :: x in r <==> x in keys || x == k
  {
    if k in keys then keys else keys + [k]
  }

  /** `delete obj[k]`: the key is gone, the others keep their creation order. */
  function RemoveKey(keys: seq<string>, k: string): (r: seq<string>)
    ensures forall x :: x in r <==> x in keys && x != k
  {
    SelectMembers(keys, x => x != k);
    Select(keys, x => x != k)
  }

  /** Deleting from a sequence that ends in `last`. */
  lemma RemoveKeySnoc(init: seq<string>, last: string, k: string)
    ensures RemoveKey(init + [last], k) == RemoveKey(init, k) + (if last == k then [] else [last])
  {
    assert (init + [last])[..|init|] == init;
  }

  predicate Distinct(keys: seq<string>) {
    forall i, j :: 0 <= i < j < |keys| ==> keys[i] != keys[j]
  }

  /** Selection keeps distinct keys distinct. */
  lemma {:induction false} SelectKeepsDistinct(keys: seq<string>, p: string -> bool)
    requires Distinct(keys)
    ensures Distinct(Select(keys, p))
  {
    if keys != [] {
      var init := keys[..|keys| - 1];
      var last := keys[|keys| - 1];
      assert Distinct(init);
      SelectKeepsDistinct(init, p);
      SelectMembers(init, p);
      assert last !in init;
    }
  }

  /** Removing a key keeps the keys distinct. */
  lemma RemoveKeyKeepsDistinct(keys: seq<string>, k: string)
    requires Distinct(keys)
    ensures Distinct(RemoveKey(keys, k))
  {
    SelectKeepsDistinct(keys, x => x != k);
  }

  /** Two selections can be made in either order. */
  lemma {:induction false} SelectCommutes(keys: seq<string>, p: string -> bool, q: string -> bool)
    ensures Select(Select(keys, p), q) == Select(Select(keys, q), p)
  {
    if keys != [] {
      var init := keys[..|keys| - 1];
      var last := keys[|keys| - 1];
      SelectCommutes(init, p, q);
      SelectAppend(Select(init, p), if p(last) then [last] else [], q);
      SelectAppend(Select(init, q), if q(last) then [last] else [], p);
      assert [last][..0] == [];
    }
  }

  /** Selection counts each key as often as the input does when `p` holds of it, else never. */
  lemma {:induction false} SelectMultiset(keys: seq<string>, p: string -> bool)
    ensures forall x :: multiset(Select(keys, p))[x] == if p(x) then multiset(keys)[x] else 0
  {
    if keys != [] {
      var init := keys[..|keys| - 1];
      var last := keys[|keys| - 1];
      SelectMultiset(init, p);
      assert keys == init + [last];
    }
  }

  /** Selection depends only on how often each key occurs. */
  lemma SelectSameMultiset(a: seq<string>, b: seq<string>, p: string -> bool)
    requires multiset(a) == multiset(b)
    ensures multiset(Select(a, p)) == multiset(Select(b, p))
  {
    SelectMultiset(a, p);
    SelectMultiset(b, p);
  }

  /** Selection from an ascending sequence is ascending. */
  lemma {:induction false} SelectKeepsAscending(ks: seq<string>, p: string -> bool, f: string -> nat)
    requires AscendingBy(ks, f)
    ensures AscendingBy(Select(ks, p), f)
  {
    if ks != [] {
      var init := ks[..|ks| - 1];
      var last := ks[|ks| - 1];
      assert AscendingBy(init, f);
      SelectKeepsAscending(init, p, f);
      SelectMembers(init, p);
      var s := Select(init, p);
      if p(last) {
        var r := s + [last];
        forall i, j | 0 <= i < j < |r| ensures f(r[i]) <= f(r[j]) {
          if j == |s| {
            assert r[i] == s[i] && s[i] in init;
            var m :| 0 <= m < |init| && init[m] == s[i];
            assert ks[m] == init[m];
          }
        }
      }
    }
  }

  /** Distinct array indices have distinct values. */
  lemma IndexValueInjective(a: string, b: string)
    requires IsArrayIndex(a) && IsArrayIndex(b) && IndexValue(a) == IndexValue(b)
    ensures a == b
  {
    DecimalOfValue(a);
    DecimalOfValue(b);
  }

  /** Array indices ordered by value can be arranged in one way only. */
  lemma {:induction false} AscendingIndicesUnique(a: seq<string>, b: seq<string>)
    requires forall k :: k in a ==> IsArrayIndex(k)
    requires AscendingBy(a, IndexValue) && AscendingBy(b, IndexValue)
    requires multiset(a) == multiset(b)
    ensures a == b
    decreases |a|
  {
    if a != [] {
      assert |b| == |multiset(b)| == |a|;
      assert b[0] in multiset(a) && a[0] in multiset(b);
      assert b[0] in a && a[0] in b;
      HeadIsLeast(a, IndexValue, b[0]);
      HeadIsLeast(b, IndexValue, a[0]);
      IndexValueInjective(a[0], b[0]);
      assert a == [a[0]] + a[1..] && b == [b[0]] + b[1..];
      assert multiset(a) == multiset{a[0]} + multiset(a[1..]);
      assert multiset(b) == multiset{a[0]} + multiset(b[1..]);
      assert multiset(a[1..]) == multiset(a) - multiset{a[0]};
      assert multiset(a[1..]) == multiset(b[1..]);
      assert AscendingBy(a[1..], IndexValue) && AscendingBy(b[1..], IndexValue);
      assert forall k :: k in a[1..] ==> k in a;
      AscendingIndicesUnique(a[1..], b[1..]);
    }
  }

  /** Deleting a key removes it from the for..in order and leaves the rest of that order as it was. */
  lemma OwnKeysRemove(keys: seq<string>, k: string)
    ensures OwnKeys(RemoveKey(keys, k)) == RemoveKey(OwnKeys(keys), k)
  {
    var ne := (x: string) => x != k;
    var ix := IndexKeys(keys);
    var sorted := SortBy(ix, IndexValue);
    SelectAppend(sorted, NamedKeys(keys), ne);
    SelectCommutes(keys, NotArrayIndex, ne);
    SelectCommutes(keys, IsArrayIndex, ne);
    // The array-index part: both sides are ascending arrangements of the same keys.
    var left := SortBy(Select(ix, ne), IndexValue);
    var right := Select(sorted, ne);
    SelectKeepsAscending(sorted, ne, IndexValue);
    SelectSameMultiset(sorted, ix, ne);
    SelectMembers(ix, ne);
    SelectMembers(keys, IsArrayIndex);
    assert forall x :: x in left ==> x in multiset(Select(ix, ne));
    AscendingIndicesUnique(left, right);
  }

  /**
   * A delete followed by a re-creation moves a key that is not an array index
   * to the end of the for..in order.
   */
  lemma ReAddMovesToEnd(keys: seq<string>, k: string)
    requires !IsArrayIndex(k)
    ensures AddKey(RemoveKey(keys, k), k) == RemoveKey(keys, k) + [k]
    ensures var r := OwnKeys(AddKey(RemoveKey(keys, k), k)); r[|r| - 1] == k
  {
    NewNamedKeyVisitedLast(RemoveKey(keys, k), k);
  }
}
