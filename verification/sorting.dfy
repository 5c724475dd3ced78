/**
 * The sorts the client performs with `Array.prototype.sort`: descending by an integer key
 * (points, kickoff times, years) and ascending by a string key (room names, where `localeCompare`
 * is modelled as lexicographic order on characters).
 */
module Sorting {

  predicate SortedDesc<T>(s: seq<T>, key: T -> int) {
    forall i, j :: 0 <= i < j < |s| ==> key(s[i]) >= key(s[j])
  }

  /** Inserts `x` in front of the first element whose key is not larger, so equal keys keep input order. */
  function InsertDesc<T>(x: T, s: seq<T>, key: T -> int): (r: seq<T>)
    requires SortedDesc(s, key)
    ensures SortedDesc(r, key)
    ensures multiset(r) == multiset(s) + multiset{x}
    ensures |r| == |s| + 1
    ensures r[0] == x || (|s| > 0 && r[0] == s[0])
  {
    if |s| == 0 || key(x) >= key(s[0]) then [x] + s
    else
      var t := InsertDesc(x, s[1..], key);
      assert s == [s[0]] + s[1..];
      assert key(t[0]) <= key(s[0]);
      assert forall k :: 0 <= k < |t| ==> key(t[k]) <= key(s[0]) by {
        assert forall k :: 0 <= k < |t| ==> key(t[k]) <= key(t[0]);
      }
      [s[0]] + t
  }

  /** Descending sort by `key`: the result is a permutation of `s` ordered by non-increasing key. */
  function SortDesc<T>(s: seq<T>, key: T -> int): (r: seq<T>)
    ensures SortedDesc(r, key)
    ensures multiset(r) == multiset(s)
    ensures |r| == |s|
  {
    if |s| == 0 then []
    else
      assert s == [s[0]] + s[1..];
      InsertDesc(s[0], SortDesc(s[1..], key), key)
  }

  /** Lexicographic order on character codes: the model's stand-in for `localeCompare(...) <= 0`. */
  predicate LexLe(a: string, b: string) {
    |a| == 0 || (|b| > 0 && (a[0] < b[0] || (a[0] == b[0] && LexLe(a[1..], b[1..]))))
  }

  lemma LexTotal(a: string, b: string)
    ensures LexLe(a, b) || LexLe(b, a)
  {
  }

  predicate SortedAsc<T>(s: seq<T>, key: T -> string) {
    forall i :: 0 <= i < |s| - 1 ==> LexLe(key(s[i]), key(s[i + 1]))
  }

  function InsertAsc<T>(x: T, s: seq<T>, key: T -> string): (r: seq<T>)
    requires SortedAsc(s, key)
    ensures SortedAsc(r, key)
    ensures multiset(r) == multiset(s) + multiset{x}
    ensures |r| == |s| + 1
    ensures r[0] == x || (|s| > 0 && r[0] == s[0])
  {
    if |s| == 0 || LexLe(key(x), key(s[0])) then [x] + s
    else
      LexTotal(key(x), key(s[0]));
      var t := InsertAsc(x, s[1..], key);
      assert s == [s[0]] + s[1..];
      [s[0]] + t
  }

  /** Ascending sort by a string key. */
  function SortAsc<T>(s: seq<T>, key: T -> string): (r: seq<T>)
    ensures SortedAsc(r, key)
    ensures multiset(r) == multiset(s)
    ensures |r| == |s|
  {
    if |s| == 0 then []
    else
      assert s == [s[0]] + s[1..];
      InsertAsc(s[0], SortAsc(s[1..], key), key)
  }
}
