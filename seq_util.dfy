/** `Array.prototype.filter` and the order-preserving subsequence relation. */
module SeqUtil {

  /** `sub` is what remains of `s` after deleting some elements: its elements
      occur in `s`, in the same order. */
  predicate IsSubsequence<T(==)>(sub: seq<T>, s: seq<T>)
    decreases |s|
  {
    if sub == [] then true
    else if s == [] then false
    else (sub[0] == s[0] && IsSubsequence(sub[1..], s[1..])) || IsSubsequence(sub, s[1..])
  }

  /** `s.filter(keep)`. */
  function Filter<T(==)>(s: seq<T>, keep: T -> bool): (r: seq<T>)
    ensures |r| <= |s|
    ensures forall i :: 0 <= i < |r| ==> r[i] in s && keep(r[i])
    ensures forall i :: 0 <= i < |s| && keep(s[i]) ==> s[i] in r
  {
    if s == [] then []
    else if keep(s[0]) then [s[0]] + Filter(s[1..], keep)
    else Filter(s[1..], keep)
  }

  /** A filter keeps its input's order: the result is a subsequence. */
  lemma {:induction false} FilterIsSubsequence<T>(s: seq<T>, keep: T -> bool)
    ensures IsSubsequence(Filter(s, keep), s)
  {
    if s != [] {
      FilterIsSubsequence(s[1..], keep);
      var r := Filter(s, keep);
      if keep(s[0]) {
        assert r[0] == s[0] && r[1..] == Filter(s[1..], keep);
      }
    }
  }

  /** A filter keeps every element it keeps as often as it occurs, and drops
      every other element altogether. */
  lemma {:induction false} FilterCount<T>(s: seq<T>, keep: T -> bool, x: T)
    ensures multiset(Filter(s, keep))[x] == if keep(x) then multiset(s)[x] else 0
  {
    if s != [] {
      FilterCount(s[1..], keep, x);
      assert s == [s[0]] + s[1..];
    }
  }

  lemma {:induction false} SubsequenceMembers<T>(sub: seq<T>, s: seq<T>)
    requires IsSubsequence(sub, s)
    ensures forall i :: 0 <= i < |sub| ==> sub[i] in s
  {
    if sub != [] && s != [] {
      if sub[0] == s[0] && IsSubsequence(sub[1..], s[1..]) {
        SubsequenceMembers(sub[1..], s[1..]);
        forall i | 1 <= i < |sub| ensures sub[i] in s {
          assert sub[i] == sub[1..][i - 1];
        }
      } else {
        SubsequenceMembers(sub, s[1..]);
      }
    }
  }

  /** Strictly increasing keys along `s`. */
  predicate StrictlyIncreasing<T>(s: seq<T>, key: T -> int) {
    forall i, j :: 0 <= i < j < |s| ==> key(s[i]) < key(s[j])
  }

  /** Deleting elements keeps keys strictly increasing. */
  lemma {:induction false} SubsequenceIncreasing<T>(sub: seq<T>, s: seq<T>, key: T -> int)
    requires IsSubsequence(sub, s) && StrictlyIncreasing(s, key)
    ensures StrictlyIncreasing(sub, key)
  {
    if sub != [] && s != [] {
      assert StrictlyIncreasing(s[1..], key) by {
        forall i, j | 0 <= i < j < |s[1..]| ensures key(s[1..][i]) < key(s[1..][j]) {
          assert s[1..][i] == s[i + 1] && s[1..][j] == s[j + 1];
        }
      }
      if sub[0] == s[0] && IsSubsequence(sub[1..], s[1..]) {
        SubsequenceIncreasing(sub[1..], s[1..], key);
        SubsequenceMembers(sub[1..], s[1..]);
        forall i, j | 0 <= i < j < |sub| ensures key(sub[i]) < key(sub[j]) {
          if i == 0 {
            assert sub[j] == sub[1..][j - 1];
            assert sub[1..][j - 1] in s[1..];
            var k :| 0 <= k < |s[1..]| && s[1..][k] == sub[j];
            assert s[k + 1] == sub[j];
          } else {
            assert sub[i] == sub[1..][i - 1] && sub[j] == sub[1..][j - 1];
          }
        }
      } else {
        SubsequenceIncreasing(sub, s[1..], key);
      }
    }
  }
}
