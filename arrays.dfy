/**
 * Array.prototype.splice as section 23.1.3.31 of ECMA-262 (2024 edition)
 * defines it, on the sequence of an array's elements, and a JavaScript array
 * object whose elements are edited in place.
 */
module Arrays {

  /**
   * The deleteCount argument as splice receives it: not passed at all, passed as
   * `undefined`, or passed as an integer.
   */
  datatype DeleteCount = NotPresent | Undefined | Number(n: int)

  /** Steps 3 to 6: a negative start counts back from the end; the result is clamped to [0, len]. */
  function ActualStart(len: nat, start: int): (a: nat)
    ensures a <= len
  {
    if start < 0 then (if len + start < 0 then 0 else len + start)
    else if start < len then start else len
  }

  /**
   * Steps 8 to 10. A missing deleteCount deletes to the end. A present one goes
   * through ToIntegerOrInfinity, which turns `undefined` (NaN) into 0, and is
   * clamped to [0, len - actualStart].
   */
  function ActualDeleteCount(len: nat, actualStart: nat, dc: DeleteCount): (d: nat)
    requires actualStart <= len
    ensures actualStart + d <= len
  {
    match dc
    case NotPresent => len - actualStart
    case Undefined => 0
    case Number(n) => if n < 0 then 0 else if n < len - actualStart then n else len - actualStart
  }

  /** The elements of `s` after `s.splice(start, deleteCount, ...items)`. */
  function Spliced<T>(s: seq<T>, start: int, dc: DeleteCount, items: seq<T>): seq<T> {
    var a := ActualStart(|s|, start);
    var d := ActualDeleteCount(|s|, a, dc);
    s[..a] + items + s[a + d..]
  }

  /** The array splice returns: the deleted elements, in order. */
  function Removed<T>(s: seq<T>, start: int, dc: DeleteCount): (r: seq<T>)
    ensures |r| <= |s|
  {
    var a := ActualStart(|s|, start);
    s[a..a + ActualDeleteCount(|s|, a, dc)]
  }

  /** Nothing is lost or invented: the elements kept plus those removed are those before plus those inserted. */
  lemma SpliceConservesElements<T>(s: seq<T>, start: int, dc: DeleteCount, items: seq<T>)
    ensures multiset(Spliced(s, start, dc, items)) + multiset(Removed(s, start, dc))
         == multiset(s) + multiset(items)
    ensures |Spliced(s, start, dc, items)| + |Removed(s, start, dc)| == |s| + |items|
  {
    var a := ActualStart(|s|, start);
    var d := ActualDeleteCount(|s|, a, dc);
    assert s == s[..a] + s[a..a + d] + s[a + d..];
  }

  /** Splicing the removed elements back in at the same place undoes a splice. */
  lemma SpliceUndo<T>(s: seq<T>, start: int, dc: DeleteCount, items: seq<T>)
    requires 0 <= start <= |s|
    ensures Spliced(Spliced(s, start, dc, items), start, Number(|items|), Removed(s, start, dc)) == s
  {
    var d := ActualDeleteCount(|s|, start, dc);
    var r := Spliced(s, start, dc, items);
    assert r == s[..start] + items + s[start + d..];
    assert r[..start] == s[..start];
    assert r[start + |items|..] == s[start + d..];
    assert s == s[..start] + s[start..start + d] + s[start + d..];
  }

  /** `splice(i, 1, x)` replaces element i and keeps the length. */
  lemma SpliceReplacesOne<T>(s: seq<T>, i: int, x: T)
    requires 0 <= i < |s|
    ensures Spliced(s, i, Number(1), [x]) == s[i := x]
  {
    assert s[i := x] == s[..i] + [x] + s[i + 1..];
  }

  /** `splice(i, 1)` removes element i; the surrounding elements keep their order. */
  lemma SpliceRemovesOne<T>(s: seq<T>, i: int)
    requires 0 <= i < |s|
    ensures Spliced(s, i, Number(1), []) == s[..i] + s[i + 1..]
    ensures Removed(s, i, Number(1)) == [s[i]]
  {
  }

  /** `splice(i, 0, x)` inserts x before element i. */
  lemma SpliceInsertsBefore<T>(s: seq<T>, i: int, x: T)
    requires 0 <= i <= |s|
    ensures Spliced(s, i, Number(0), [x]) == s[..i] + [x] + s[i..]
    ensures Removed(s, i, Number(0)) == []
  {
  }

  /** A negative start -k with 0 < k <= |s| names the same position as |s| - k (-0 is start 0). */
  lemma NegativeStartCountsFromEnd<T>(s: seq<T>, k: nat, dc: DeleteCount, items: seq<T>)
    requires 0 < k <= |s|
    ensures Spliced(s, -(k as int), dc, items) == Spliced(s, |s| - k, dc, items)
  {
  }

  /** A start past either end is clamped to that end. */
  lemma StartIsClamped<T>(s: seq<T>, start: int, dc: DeleteCount, items: seq<T>)
    ensures start <= -|s| ==> Spliced(s, start, dc, items) == Spliced(s, 0, dc, items)
    ensures start >= |s| ==> Spliced(s, start, dc, items) == s + items
  {
  }

  /**
   * A deleteCount passed as `undefined` deletes nothing: the items are inserted
   * and every element stays, in order.
   */
  lemma UndefinedCountDeletesNothing<T>(s: seq<T>, start: int, items: seq<T>)
    ensures Removed(s, start, Undefined) == []
    ensures items == [] ==> Spliced(s, start, Undefined, items) == s
    ensures |Spliced(s, start, Undefined, items)| == |s| + |items|
  {
    var a := ActualStart(|s|, start);
    assert s[..a] + s[a..] == s;
  }

  /**
   * Without any deleteCount, `splice(-n)` for n > 0 deletes the LAST n elements
   * (all of them when n >= |s|) and keeps the rest.
   */
  lemma OmittedCountDropsTail<T>(s: seq<T>, n: nat)
    requires n > 0
    ensures Spliced(s, -(n as int), NotPresent, []) == if n <= |s| then s[..|s| - n] else []
    ensures Removed(s, -(n as int), NotPresent) == if n <= |s| then s[|s| - n..] else s
  {
  }

  /** The last min(|s|, n) elements of s. */
  function KeepLast<T>(s: seq<T>, n: nat): (r: seq<T>)
    ensures |r| == if |s| < n then |s| else n
    ensures r == s[|s| - |r|..]
  {
    if |s| <= n then s else s[|s| - n..]
  }

  /** Deleting the first |s| - n elements keeps the last n; a negative count deletes none. */
  lemma KeepLastBySplice<T>(s: seq<T>, n: nat)
    ensures Spliced(s, 0, Number(|s| - n), []) == KeepLast(s, n)
  {
  }

  /** Keeping the last n > 0 after an append keeps the appended element, last. */
  lemma KeepLastKeepsNewest<T>(s: seq<T>, x: T, n: nat)
    requires n > 0
    ensures |KeepLast(s + [x], n)| <= n
    ensures KeepLast(s + [x], n)[|KeepLast(s + [x], n)| - 1] == x
  {
    var r := KeepLast(s + [x], n);
    assert r == (s + [x])[|s + [x]| - |r|..];
    assert r[|r| - 1] == (s + [x])[|s|];
  }

  /**
   * A JavaScript array object. Its identity matters: two holders of the same
   * reference see each other's in-place edits.
   */
  class JsArray<T> {
    var elems: seq<T>

    /** An array literal or a spread copy `[...s]`: always a new object. */
    constructor (s: seq<T>)
      ensures elems == s
    {
      elems := s;
    }

    /** `push(x)`. */
    method Push(x: T)
      modifies this
      ensures elems == old(elems) + [x]
    {
      elems := elems + [x];
    }

    /** `splice(start, deleteCount, ...items)`, keeping the deleted elements' return value. */
    method Splice(start: int, dc: DeleteCount, items: seq<T>) returns (removed: seq<T>)
      modifies this
      ensures elems == Spliced(old(elems), start, dc, items)
      ensures removed == Removed(old(elems), start, dc)
    {
      removed := Removed(elems, start, dc);
      elems := Spliced(elems, start, dc, items);
    }
  }
}
