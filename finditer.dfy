/**
  `re.finditer` as a scan over the positions of a text: a matcher says what the
  pattern matches at each position, and the scan collects the leftmost
  non-overlapping matches in order.
 */
module Finditer {
  import opened Wrappers

  /** An occurrence of a pattern: where it starts, and the text it matched. */
  type Occurrence = (nat, string)

  /** What a pattern matches at each position: the matched text, if it matches there. */
  type Matcher = nat -> Option<string>

  /** Every match is non-empty and lies within a text of length `n`. */
  ghost predicate Fits(n: nat, at: Matcher) {
    forall k: nat :: at(k).Some? ==> at(k).value != "" && k + |at(k).value| <= n
  }

  /**
    `re.finditer` from position `k`: the scan tries each position in turn and,
    after a match, resumes where the match ends.
   */
  function Matches(n: nat, at: Matcher, k: nat): seq<Occurrence>
    requires Fits(n, at)
    decreases n - k
  {
    if k >= n then []
    else
      match at(k)
      case Some(m) => [(k, m)] + Matches(n, at, k + |m|)
      case None => Matches(n, at, k + 1)
  }

  /** Where the `i`th occurrence's content ends: at the next occurrence, or at the end of the text. */
  function NextStart(n: nat, ms: seq<Occurrence>, i: nat): nat {
    if i + 1 < |ms| then ms[i + 1].0 else n
  }

  /** The `i`th occurrence is a match found from `k` on, and ends before its content ends. */
  ghost predicate Linked(n: nat, at: Matcher, ms: seq<Occurrence>, i: nat, k: nat)
    requires i < |ms|
  {
    at(ms[i].0) == Some(ms[i].1) && k <= ms[i].0 && ms[i].0 + |ms[i].1| <= NextStart(n, ms, i) <= n
  }

  ghost predicate Chained(n: nat, at: Matcher, ms: seq<Occurrence>, k: nat) {
    forall i :: 0 <= i < |ms| ==> Linked(n, at, ms, i, k)
  }

  /** The occurrences are matches, in text order, and never overlap. */
  lemma {:induction false} MatchesChained(n: nat, at: Matcher, k: nat)
    requires Fits(n, at)
    ensures Chained(n, at, Matches(n, at, k), k)
    decreases n - k
  {
    if k < n {
      match at(k)
      case Some(m) =>
        MatchesChained(n, at, k + |m|);
        var rest := Matches(n, at, k + |m|);
        var ms := [(k, m)] + rest;
        assert ms == Matches(n, at, k);
        assert Linked(n, at, ms, 0, k) by {
          if rest != [] {
            assert Linked(n, at, rest, 0, k + |m|);
          }
        }
        forall i | 0 < i < |ms| ensures Linked(n, at, ms, i, k) {
          assert ms[i] == rest[i - 1];
          assert NextStart(n, ms, i) == NextStart(n, rest, i - 1);
          assert Linked(n, at, rest, i - 1, k + |m|);
        }
      case None =>
        MatchesChained(n, at, k + 1);
        var ms := Matches(n, at, k + 1);
        forall i | 0 <= i < |ms| ensures Linked(n, at, ms, i, k) {
          assert Linked(n, at, ms, i, k + 1);
        }
    }
  }

  /** Nothing matches from `k` up to the first occurrence, or through the end when there is none. */
  lemma {:induction false} MatchesLead(n: nat, at: Matcher, k: nat, p: nat)
    requires Fits(n, at) && k <= p < n
    requires Matches(n, at, k) == [] || p < Matches(n, at, k)[0].0
    ensures at(p).None?
    decreases n - k
  {
    if at(k).None? && p > k {
      MatchesLead(n, at, k + 1, p);
    }
  }

  /** Nothing matches between the end of one occurrence and the start of the next, or the end of the text. */
  lemma {:induction false} MatchesGap(n: nat, at: Matcher, k: nat, i: nat, p: nat)
    requires Fits(n, at) && i < |Matches(n, at, k)|
    requires var ms := Matches(n, at, k); ms[i].0 + |ms[i].1| <= p < NextStart(n, ms, i)
    ensures at(p).None?
    decreases n - k
  {
    var ms := Matches(n, at, k);
    MatchesChained(n, at, k);
    assert Linked(n, at, ms, i, k);
    match at(k)
    case Some(m) =>
      var rest := Matches(n, at, k + |m|);
      assert ms == [(k, m)] + rest;
      if i == 0 {
        MatchesLead(n, at, k + |m|, p);
      } else {
        assert ms[i] == rest[i - 1];
        assert NextStart(n, ms, i) == NextStart(n, rest, i - 1);
        MatchesGap(n, at, k + |m|, i - 1, p);
      }
    case None =>
      MatchesGap(n, at, k + 1, i, p);
  }

  /** The occurrences lie in order inside a text of length `n`, each before its content's end. */
  predicate Spans(n: nat, ms: seq<Occurrence>) {
    forall i :: 0 <= i < |ms| ==> ms[i].0 + |ms[i].1| <= NextStart(n, ms, i) <= n
  }

  lemma {:induction false} MatchesSpan(n: nat, at: Matcher, k: nat)
    requires Fits(n, at)
    ensures Spans(n, Matches(n, at, k))
  {
    MatchesChained(n, at, k);
    var ms := Matches(n, at, k);
    forall i | 0 <= i < |ms| ensures ms[i].0 + |ms[i].1| <= NextStart(n, ms, i) <= n {
      assert Linked(n, at, ms, i, k);
    }
  }
}
