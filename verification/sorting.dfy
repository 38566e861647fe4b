/** Ordering a sequence by a text key (`order_by('nom')`), as an insertion
    sort with a sortedness and permutation guarantee. */
module Sorting {
  import opened Text

  predicate SortedBy<T>(s: seq<T>, key: T -> string) {
    forall i, j :: 0 <= i < j < |s| ==> LexLe(key(s[i]), key(s[j]))
  }

  /** Insert `x` into a sorted sequence, keeping it sorted. */
  function InsertBy<T>(x: T, s: seq<T>, key: T -> string): (r: seq<T>)
    requires SortedBy(s, key)
    ensures SortedBy(r, key)
    ensures multiset(r) == multiset(s) + multiset{x}
    ensures |r| == |s| + 1
  {
    if |s| == 0 then [x]
    else if LexLe(key(x), key(s[0])) then
      assert forall j :: 0 < j < |s| ==> LexLe(key(x), key(s[j])) by {
        forall j | 0 < j < |s| ensures LexLe(key(x), key(s[j])) {
          LexLeTrans(key(x), key(s[0]), key(s[j]));
        }
      }
      [x] + s
    else
      LexLeTotal(key(x), key(s[0]));
      var rest := InsertBy(x, s[1..], key);
      assert s == [s[0]] + s[1..];
      InsertKeepsLowerBound(key(s[0]), x, s[1..], rest, key);
      [s[0]] + rest
  }

  /** A lower bound of `x` and of every element of `t` bounds every element
      of `r`, which holds `x` and the elements of `t`. */
  lemma InsertKeepsLowerBound<T>(lo: string, x: T, t: seq<T>, r: seq<T>, key: T -> string)
    requires multiset(r) == multiset(t) + multiset{x}
    requires LexLe(lo, key(x))
    requires forall j :: 0 <= j < |t| ==> LexLe(lo, key(t[j]))
    ensures forall j :: 0 <= j < |r| ==> LexLe(lo, key(r[j]))
  {
    forall j | 0 <= j < |r| ensures LexLe(lo, key(r[j])) {
      assert r[j] in multiset(r);
      if r[j] != x {
        assert r[j] in multiset(t);
        var k :| 0 <= k < |t| && t[k] == r[j];
      }
    }
  }

  /** The elements of `s`, ordered by `key`. */
  function SortBy<T>(s: seq<T>, key: T -> string): (r: seq<T>)
    ensures SortedBy(r, key)
    ensures multiset(r) == multiset(s)
    ensures |r| == |s|
  {
    if |s| == 0 then []
    else
      assert s == [s[0]] + s[1..];
      InsertBy(s[0], SortBy(s[1..], key), key)
  }

  /** Sorting neither adds nor drops an element. */
  lemma SortByMembers<T>(s: seq<T>, key: T -> string, x: T)
    ensures x in SortBy(s, key) <==> x in s
  {
    var r := SortBy(s, key);
    assert x in r <==> x in multiset(r);
  }
}
