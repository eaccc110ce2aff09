/**
 * The two JavaScript array primitives the stores build their updates from:
 * `findIndex` for an id and `splice`, with their edge cases (a missing id
 * gives -1, and a negative start counts from the end of the array).
 */
module JsArray {

  /** `findIndex(item => item === x)`: the first index holding x, or -1 when there is none. */
  function IndexOf<T(==)>(s: seq<T>, x: T): (r: int)
    ensures -1 <= r < |s|
    ensures r == -1 <==> x !in s
    ensures 0 <= r ==> s[r] == x && forall k :: 0 <= k < r ==> s[k] != x
  {
    if s == [] then -1
    else if s[0] == x then 0
    else
      var k := IndexOf(s[1..], x);
      if k == -1 then -1 else k + 1
  }

  /** The position `splice(start, …)` starts at: a negative start counts back from the end; both are clamped to the array. */
  function SpliceStart(len: nat, start: int): (r: nat)
    ensures r <= len
    ensures 0 <= start ==> r == if start <= len then start else len
    ensures start < 0 ==> r == if len + start >= 0 then len + start else 0
  {
    if start < 0 then (if len + start < 0 then 0 else len + start)
    else if start > len then len
    else start
  }

  /** The array `s.splice(start, deleteCount, ...items)` leaves behind. */
  function Splice<T>(s: seq<T>, start: int, deleteCount: int, items: seq<T>): seq<T>
  {
    var from := SpliceStart(|s|, start);
    var count := if deleteCount < 0 then 0 else if deleteCount > |s| - from then |s| - from else deleteCount;
    s[..from] + items + s[from + count..]
  }

  /** Replacing one element at an index inside the array is a point update: same length, every other element kept. */
  lemma SpliceReplace<T>(s: seq<T>, i: int, x: T)
    requires 0 <= i < |s|
    ensures Splice(s, i, 1, [x]) == s[i := x]
  {
    assert s[..i] + [x] + s[i + 1..] == s[i := x];
  }

  /** With the -1 that `findIndex` gives for a missing id, a replacing splice overwrites the last element, or fills an empty array. */
  lemma SpliceReplaceMissing<T>(s: seq<T>, x: T)
    ensures Splice(s, -1, 1, [x]) == if s == [] then [x] else s[|s| - 1 := x]
  {
    if s != [] {
      SpliceReplace(s, |s| - 1, x);
    }
  }

  /** Removing the element at an index inside the array drops exactly that element. */
  lemma SpliceRemove<T>(s: seq<T>, i: int)
    requires 0 <= i < |s|
    ensures Splice(s, i, 1, []) == s[..i] + s[i + 1..]
    ensures |Splice(s, i, 1, [])| == |s| - 1
  {
  }

  /** With -1 for a missing id, a removing splice drops the last element (and leaves an empty array empty). */
  lemma SpliceRemoveMissing<T>(s: seq<T>)
    ensures Splice(s, -1, 1, []) == if s == [] then [] else s[..|s| - 1]
  {
  }

  /** Inserting without deleting puts x at the position and shifts the rest up by one. */
  lemma SpliceInsert<T>(s: seq<T>, i: int, x: T)
    requires 0 <= i <= |s|
    ensures Splice(s, i, 0, [x]) == s[..i] + [x] + s[i..]
  {
  }

  /** A splice brings in no element besides the inserted items. */
  lemma SpliceKeepsOut<T>(s: seq<T>, start: int, deleteCount: int, items: seq<T>, x: T)
    requires x !in s && x !in items
    ensures x !in Splice(s, start, deleteCount, items)
  {
    var from := SpliceStart(|s|, start);
    var count := if deleteCount < 0 then 0 else if deleteCount > |s| - from then |s| - from else deleteCount;
    assert x !in s[..from] && x !in s[from + count..];
  }

  /** a keeps some of b's elements, in b's order. */
  predicate IsSubsequence<T(==)>(a: seq<T>, b: seq<T>)
    decreases |b|
  {
    if a == [] then true
    else if b == [] then false
    else if a[0] == b[0] then IsSubsequence(a[1..], b[1..])
    else IsSubsequence(a, b[1..])
  }
}
