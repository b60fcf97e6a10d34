/** The JavaScript array operations the handlers rely on. */
module JsArray {

  /** `Array.prototype.findIndex(p)`: the first index whose element satisfies `p`, or -1. */
  function FindIndex<T>(s: seq<T>, p: T -> bool): (r: int)
    ensures -1 <= r < |s|
    ensures r == -1 <==> forall i :: 0 <= i < |s| ==> !p(s[i])
    ensures 0 <= r ==> p(s[r]) && forall j :: 0 <= j < r ==> !p(s[j])
  {
    if |s| == 0 then -1
    else if p(s[0]) then 0
    else
      var k := FindIndex(s[1..], p);
      if k == -1 then -1 else k + 1
  }

  /** `s.filter(p).length`, which the handlers only compare with 0: it is
      positive exactly when some element satisfies `p`. */
  function CountWhere<T>(s: seq<T>, p: T -> bool): (n: nat)
    ensures n <= |s|
    ensures n > 0 <==> exists i :: 0 <= i < |s| && p(s[i])
  {
    if |s| == 0 then 0
    else
      var rest := CountWhere(s[1..], p);
      assert rest > 0 ==> exists i :: 1 <= i < |s| && p(s[i]) by {
        if rest > 0 {
          var i :| 0 <= i < |s| - 1 && p(s[1..][i]);
          assert p(s[i + 1]);
        }
      }
      (if p(s[0]) then 1 else 0) + rest
  }

  /** Where `splice(start, ...)` starts on an array of length `len`: a negative
      start counts back from the end and is clamped at 0, a large one is clamped
      at `len` (ECMAScript's relative-index rule). */
  function SpliceStart(len: nat, start: int): (k: nat)
    ensures k <= len
    ensures 0 <= start ==> k == if start < len then start else len
    ensures start < 0 ==> k == if len + start < 0 then 0 else len + start
    ensures start < 0 && len > 0 ==> k < len
    ensures start == -1 && len > 0 ==> k == len - 1
  {
    if start < 0 then (if len + start < 0 then 0 else len + start)
    else if start < len then start
    else len
  }

  /** The array after `s.splice(start, 1)`: one element is removed at the
      normalised start, unless that start is the end of the array. */
  function Splice<T>(s: seq<T>, start: int): (r: seq<T>)
    ensures var k := SpliceStart(|s|, start);
      && |r| == (if k < |s| then |s| - 1 else |s|)
      && (forall j :: 0 <= j < |r| ==> r[j] == if j < k then s[j] else s[j + 1])
  {
    var k := SpliceStart(|s|, start);
    if k < |s| then s[..k] + s[k + 1..] else s
  }

  /** Removing at a valid index deletes exactly that element: what precedes it
      stays, what follows it moves one place to the front. */
  lemma SpliceAt<T>(s: seq<T>, i: int)
    requires 0 <= i < |s|
    ensures Splice(s, i) == s[..i] + s[i + 1..]
    ensures multiset(Splice(s, i)) + multiset{s[i]} == multiset(s)
  {
    assert s == s[..i] + [s[i]] + s[i + 1..];
  }

  /** `splice(-1, 1)` drops the last element, and leaves an empty array empty. */
  lemma SpliceMinusOne<T>(s: seq<T>)
    ensures Splice(s, -1) == if s == [] then [] else s[..|s| - 1]
  {
  }
}
