/** The edit distance that `Levenshtein.distance` computes: the least number
    of single-character insertions, deletions and substitutions, each of cost
    one, that turn one text into the other. */
module Levenshtein {

  function Min3(a: nat, b: nat, c: nat): nat {
    if a <= b && a <= c then a else if b <= c then b else c
  }

  function Max(a: nat, b: nat): nat {
    if a < b then b else a
  }

  /** The unit-cost edit distance, by its recursive definition: an empty text
      is as far from the other as the other is long; otherwise the first
      character is deleted, one is inserted, or the first characters are
      matched (at cost one when they differ). */
  function Distance(a: string, b: string): nat
    decreases |a| + |b|
  {
    if |a| == 0 then |b|
    else if |b| == 0 then |a|
    else Min3(Distance(a[1..], b) + 1,
              Distance(a, b[1..]) + 1,
              Distance(a[1..], b[1..]) + (if a[0] == b[0] then 0 else 1))
  }

  /** A text is at distance 0 from itself. */
  lemma {:induction false} DistanceToSelf(a: string)
    ensures Distance(a, a) == 0
  {
    if |a| > 0 {
      DistanceToSelf(a[1..]);
    }
  }

  /** The distance is at most the length of the longer text. */
  lemma {:induction false} DistanceAtMostLonger(a: string, b: string)
    decreases |a| + |b|
    ensures Distance(a, b) <= Max(|a|, |b|)
  {
    if |a| > 0 && |b| > 0 {
      DistanceAtMostLonger(a[1..], b[1..]);
    }
  }

  /** The distance is at least the difference of the lengths. */
  lemma {:induction false} DistanceAtLeastLengthGap(a: string, b: string)
    decreases |a| + |b|
    ensures Distance(a, b) >= |a| - |b| && Distance(a, b) >= |b| - |a|
  {
    if |a| > 0 && |b| > 0 {
      DistanceAtLeastLengthGap(a[1..], b);
      DistanceAtLeastLengthGap(a, b[1..]);
      DistanceAtLeastLengthGap(a[1..], b[1..]);
    }
  }

  /** Distance 0 means equal texts, and only then. */
  lemma {:induction false} DistanceZeroIffEqual(a: string, b: string)
    decreases |a| + |b|
    ensures Distance(a, b) == 0 <==> a == b
  {
    if a == b {
      DistanceToSelf(a);
    } else if |a| > 0 && |b| > 0 {
      DistanceZeroIffEqual(a[1..], b[1..]);
      if a[0] == b[0] {
        assert a == [a[0]] + a[1..] && b == [b[0]] + b[1..];
      }
    }
  }

  /** The distance does not depend on the order of its arguments. */
  lemma {:induction false} DistanceSymmetric(a: string, b: string)
    decreases |a| + |b|
    ensures Distance(a, b) == Distance(b, a)
  {
    if |a| > 0 && |b| > 0 {
      DistanceSymmetric(a[1..], b);
      DistanceSymmetric(a, b[1..]);
      DistanceSymmetric(a[1..], b[1..]);
    }
  }
}
