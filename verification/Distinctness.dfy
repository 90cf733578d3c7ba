/** Lists without repetition. */
module Distinctness {

  ghost predicate Distinct<T>(s: seq<T>) {
    forall i, j :: 0 <= i < j < |s| ==> s[i] != s[j]
  }

  ghost predicate Below(s: seq<nat>, n: nat) {
    forall i :: 0 <= i < |s| ==> s[i] < n
  }

  lemma {:induction false} DistinctBound(s: seq<nat>, n: nat)
    requires Distinct(s) && Below(s, n)
    ensures |s| <= n
  {
    assert s != [] ==> s[0] < n;
    if n == 0 {
    } else if n - 1 in s {
      var k :| 0 <= k < |s| && s[k] == n - 1;
      var t := s[..k] + s[k + 1..];
      assert forall i :: 0 <= i < |t| ==> t[i] == s[if i < k then i else i + 1];
      DistinctBound(t, n - 1);
    } else {
      DistinctBound(s, n - 1);
    }
  }

  lemma {:induction false} OrderComplete(s: seq<nat>, n: nat)
    requires Distinct(s) && Below(s, n) && forall x :: 0 <= x < n ==> x in s
    ensures |s| == n
    decreases n
  {
    DistinctBound(s, n);
    if n > 0 {
      assert n - 1 in s;
      var k :| 0 <= k < |s| && s[k] == n - 1;
      var t := s[..k] + s[k + 1..];
      assert forall i :: 0 <= i < |t| ==> t[i] == s[if i < k then i else i + 1];
      forall x | 0 <= x < n - 1
        ensures x in t
      {
        assert x in s;
        var j :| 0 <= j < |s| && s[j] == x;
        assert t[if j < k then j else j - 1] == x;
      }
      OrderComplete(t, n - 1);
    }
  }
}
