/**
 * Newest-first ordering, as produced by the `ORDER BY ... DESC` clauses of
 * the reference listing and the history query.
 */
module Ordering {

  /** `s` is ordered by non-increasing `key` (ties in any order). */
  ghost predicate NewestFirst<T>(s: seq<T>, key: T -> int) {
    forall i, j :: 0 <= i < j < |s| ==> key(s[i]) >= key(s[j])
  }

  /** Inserts `x` before the first element whose key is not larger than its own. */
  function InsertNewestFirst<T>(s: seq<T>, x: T, key: T -> int): (r: seq<T>)
    ensures multiset(r) == multiset(s) + multiset{x}
  {
    if s == [] || key(x) >= key(s[0]) then [x] + s
    else
      assert s == [s[0]] + s[1..];
      [s[0]] + InsertNewestFirst(s[1..], x, key)
  }

  /** Insertion keeps a newest-first sequence newest-first. */
  lemma {:induction false} InsertKeepsNewestFirst<T>(s: seq<T>, x: T, key: T -> int)
    requires NewestFirst(s, key)
    ensures NewestFirst(InsertNewestFirst(s, x, key), key)
  {
    if s == [] || key(x) >= key(s[0]) {
      var r := [x] + s;
      forall i, j | 0 <= i < j < |r| ensures key(r[i]) >= key(r[j]) {
        if i > 0 {
          assert r[i] == s[i - 1] && r[j] == s[j - 1];
        } else {
          assert r[j] == s[j - 1];
          assert key(s[0]) >= key(s[j - 1]);
        }
      }
    } else {
      var tail := InsertNewestFirst(s[1..], x, key);
      InsertKeepsNewestFirst(s[1..], x, key);
      var r := [s[0]] + tail;
      forall i, j | 0 <= i < j < |r| ensures key(r[i]) >= key(r[j]) {
        if i > 0 {
          assert r[i] == tail[i - 1] && r[j] == tail[j - 1];
        } else {
          var y := tail[j - 1];
          assert y in multiset(tail);
          assert y in multiset(s[1..]) || y == x;
          if y != x {
            var k :| 1 <= k < |s| && s[k] == y;
          }
        }
      }
    }
  }
}
