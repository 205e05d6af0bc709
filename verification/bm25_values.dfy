/** What the summands of BM25 are worth over exact reals, once the average length is a positive number. */
module BM25Values {
  import opened Headers
  import opened QueryContexts

  /** Saturation, length penalty and average length of a field. */
  datatype Tuning = Tuning(saturation: real, penalty: real, average: real)

  ghost predicate Sensible(t: Tuning) {
    t.saturation > 0.0 && 0.0 <= t.penalty <= 1.0 && t.average > 0.0
  }

  /** The denominator as the code sums it up, constants hoisted out of the loop. */
  function Denominator(t: Tuning, tf: real, dl: real): (r: real)
    requires Sensible(t) && tf > 0.0 && dl >= 0.0
    ensures r >= tf
  {
    NotNegative(t.saturation, 1.0 - t.penalty);
    Quotient(t.penalty, t.average);
    NotNegative(t.saturation, t.penalty / t.average);
    NotNegative(dl, t.saturation * (t.penalty / t.average));
    (tf + t.saturation * (1.0 - t.penalty)) + dl * (t.saturation * (t.penalty / t.average))
  }

  function Summand(t: Tuning, weight: real, tf: real, dl: real): real
    requires Sensible(t) && tf > 0.0 && dl >= 0.0
  {
    weight * (tf * (1.0 / Denominator(t, tf, dl)))
  }

  /** BM25 as it is written in textbooks. */
  function Textbook(t: Tuning, idf: real, tf: real, dl: real): real
    requires Sensible(t) && tf > 0.0 && dl >= 0.0
  {
    var d := tf + t.saturation * (1.0 - t.penalty + t.penalty * (dl / t.average));
    Denominators(t, tf, dl);
    idf * ((tf * (t.saturation + 1.0)) / d)
  }

  lemma NotNegative(a: real, b: real)
    requires a >= 0.0 && b >= 0.0
    ensures a * b >= 0.0
  {
  }

  lemma Quotient(a: real, b: real)
    requires a >= 0.0 && b > 0.0
    ensures a / b >= 0.0 && (a / b) * b == a && a * (1.0 / b) == a / b
  {
    var q, i := a / b, 1.0 / b;
    assert q * b == a && i * b == 1.0;
    assert (a * i) * b == a * (i * b) == q * b;
  }

  /** Hoisting the constants does not change the denominator. */
  lemma Denominators(t: Tuning, tf: real, dl: real)
    requires Sensible(t) && tf > 0.0 && dl >= 0.0
    ensures Denominator(t, tf, dl) == tf + t.saturation * (1.0 - t.penalty + t.penalty * (dl / t.average))
  {
    Regrouped(t.saturation, t.penalty, t.average, dl);
  }

  lemma Regrouped(k: real, b: real, avg: real, dl: real)
    requires avg > 0.0 && b >= 0.0 && dl >= 0.0
    ensures k * (1.0 - b + b * (dl / avg)) == k * (1.0 - b) + dl * (k * (b / avg))
  {
    var i := 1.0 / avg;
    Quotient(b, avg);
    Quotient(dl, avg);
    assert b / avg == b * i && dl / avg == dl * i;
    assert b * (dl * i) == dl * (b * i);
    assert k * (dl * (b * i)) == dl * (k * (b * i));
  }

  /** A summand with the factor the code puts in front is the textbook one. */
  lemma SummandIsTextbook(t: Tuning, idf: real, tf: real, dl: real)
    requires Sensible(t) && tf > 0.0 && dl >= 0.0
    ensures Summand(t, idf * (t.saturation + 1.0), tf, dl) == Textbook(t, idf, tf, dl)
  {
    Denominators(t, tf, dl);
    var d, s := Denominator(t, tf, dl), t.saturation + 1.0;
    var i := 1.0 / d;
    NotNegative(tf, s);
    Quotient(tf * s, d);
    assert (idf * s) * (tf * i) == idf * ((tf * s) * i);
  }

  /** And so it is with a boost that is multiplied in. */
  lemma BoostedTextbook(t: Tuning, boost: real, idf: real, tf: real, dl: real)
    requires Sensible(t) && tf > 0.0 && dl >= 0.0
    ensures Summand(t, idf * boost * (t.saturation + 1.0), tf, dl) == boost * Textbook(t, idf, tf, dl)
  {
    var s := t.saturation + 1.0;
    SummandIsTextbook(t, idf, tf, dl);
    var r := tf * (1.0 / Denominator(t, tf, dl));
    assert idf * boost * s == boost * (idf * s);
    assert (boost * (idf * s)) * r == boost * ((idf * s) * r);
  }

  /** Multiplied in only when it is not one. */
  lemma FactorTextbook(t: Tuning, boost: real, idf: real, weight: real, tf: real, dl: real)
    requires Sensible(t) && tf > 0.0 && dl >= 0.0
    requires weight == if boost != 1.0 then idf * boost * (t.saturation + 1.0) else idf * (t.saturation + 1.0)
    ensures Summand(t, weight, tf, dl) == boost * Textbook(t, idf, tf, dl)
  {
    if boost == 1.0 {
      SummandIsTextbook(t, idf, tf, dl);
    } else {
      BoostedTextbook(t, boost, idf, tf, dl);
    }
  }

  lemma Ratios(a: real, b: real, c: real, d: real)
    requires b > 0.0 && d > 0.0 && a >= 0.0 && c >= 0.0
    ensures a * d < c * b <==> a / b < c / d
  {
    Quotient(a, b);
    Quotient(c, d);
    var x, y := a / b, c / d;
    assert a * d == x * (b * d) && c * b == y * (b * d);
    Cancel(x, y, b * d);
  }

  lemma Cancel(x: real, y: real, p: real)
    requires p > 0.0
    ensures x * p < y * p <==> x < y
  {
    assert y * p - x * p == (y - x) * p;
  }

  /** What the denominator has beside the frequency. */
  function Rest(t: Tuning, dl: real): real
    requires t.average > 0.0
  {
    t.saturation * (1.0 - t.penalty) + dl * (t.saturation * (t.penalty / t.average))
  }

  lemma RestPositive(t: Tuning, dl: real)
    requires Sensible(t) && dl >= 0.0
    ensures Rest(t, dl) >= 0.0
    ensures Rest(t, dl) > 0.0 <==> t.penalty < 1.0 || dl > 0.0
  {
    PerLength(t);
    Parts(t.saturation, 1.0 - t.penalty, dl, t.saturation * (t.penalty / t.average));
  }

  lemma Parts(a: real, b: real, c: real, d: real)
    requires a > 0.0 && b >= 0.0 && c >= 0.0 && d >= 0.0 && (b == 0.0 ==> d > 0.0)
    ensures a * b + c * d >= 0.0
    ensures a * b + c * d > 0.0 <==> b > 0.0 || c > 0.0
  {
    Positive(a, b);
    Positive(c, d);
  }

  lemma Positive(a: real, b: real)
    requires a >= 0.0 && b >= 0.0
    ensures a * b >= 0.0 && (a * b > 0.0 <==> a > 0.0 && b > 0.0)
  {
  }

  /** A summand is positive and at most its weight. */
  lemma SummandBounds(t: Tuning, weight: real, tf: real, dl: real)
    requires Sensible(t) && tf > 0.0 && dl >= 0.0 && weight > 0.0
    ensures 0.0 < Summand(t, weight, tf, dl) <= weight
  {
    var d := Denominator(t, tf, dl);
    var r := tf / d;
    Quotient(tf, d);
    assert r * d == tf;
    Fractional(tf, d);
    Portion(weight, r);
  }

  lemma Fractional(a: real, b: real)
    requires 0.0 < a <= b
    ensures 0.0 < a / b <= 1.0
  {
    Quotient(a, b);
    Cancel(0.0, a / b, b);
    Cancel(1.0, a / b, b);
  }

  lemma Portion(w: real, r: real)
    requires w > 0.0 && 0.0 < r <= 1.0
    ensures 0.0 < w * r <= w
  {
    assert w * (1.0 - r) >= 0.0;
  }

  /** More occurrences are worth more, unless length plays the whole part and there is none. */
  lemma SummandGrows(t: Tuning, weight: real, tf: real, tf': real, dl: real)
    requires Sensible(t) && 0.0 < tf < tf' && dl >= 0.0 && weight > 0.0
    ensures Summand(t, weight, tf, dl) < Summand(t, weight, tf', dl) <==> t.penalty < 1.0 || dl > 0.0
  {
    var d, d' := Denominator(t, tf, dl), Denominator(t, tf', dl);
    RestPositive(t, dl);
    Cross(tf, tf', Rest(t, dl), d, d');
    Ratios(tf, d, tf', d');
    Quotient(tf, d);
    Quotient(tf', d');
    Cancel(tf / d, tf' / d', weight);
  }

  lemma Cross(a: real, b: real, rest: real, d: real, e: real)
    requires 0.0 < a < b && rest >= 0.0 && d == a + rest && e == b + rest
    ensures a * e < b * d <==> rest > 0.0
  {
    assert b * d - a * e == (b - a) * rest;
  }

  /** A longer document has the larger denominator, as soon as length counts at all. */
  lemma DenominatorGrows(t: Tuning, tf: real, dl: real, dl': real)
    requires Sensible(t) && tf > 0.0 && 0.0 <= dl < dl'
    ensures Denominator(t, tf, dl) < Denominator(t, tf, dl') <==> t.penalty > 0.0
  {
    PerLength(t);
    Steeper(t.saturation * (t.penalty / t.average), dl, dl', tf + t.saturation * (1.0 - t.penalty));
  }

  lemma Steeper(c: real, x: real, y: real, rest: real)
    requires c >= 0.0 && x < y
    ensures rest + x * c < rest + y * c <==> c > 0.0
  {
    Cancel(0.0, c, y - x);
    assert y * c - x * c == (y - x) * c;
  }

  /** Longer documents are worth less, as soon as length counts at all. */
  lemma SummandShrinks(t: Tuning, weight: real, tf: real, dl: real, dl': real)
    requires Sensible(t) && tf > 0.0 && 0.0 <= dl < dl' && weight > 0.0
    ensures Summand(t, weight, tf, dl') < Summand(t, weight, tf, dl) <==> t.penalty > 0.0
  {
    var d, d' := Denominator(t, tf, dl), Denominator(t, tf, dl');
    DenominatorGrows(t, tf, dl, dl');
    Cancel(d, d', tf);
    Ratios(tf, d', tf, d);
    Quotient(tf, d);
    Quotient(tf, d');
    Cancel(tf / d', tf / d, weight);
  }

  lemma PerLength(t: Tuning)
    requires Sensible(t)
    ensures t.saturation * (t.penalty / t.average) > 0.0 <==> t.penalty > 0.0
    ensures t.saturation * (t.penalty / t.average) >= 0.0
  {
    var q := t.penalty / t.average;
    Quotient(t.penalty, t.average);
    Cancel(0.0, q, t.average);
    Cancel(0.0, q, t.saturation);
  }

  /** A summand for a document that has the token, in a field with an average. */
  ghost predicate Summable(saturation: real, penalty: real, average: uint32 -> real, c: Contribution) {
    c.Weighted? && c.tf > 0 && Sensible(Tuning(saturation, penalty, average(c.avg)))
  }

  /** And of a token that weighs something. */
  ghost predicate Telling(saturation: real, penalty: real, average: uint32 -> real, c: Contribution) {
    Summable(saturation, penalty, average, c) && c.weight > 0.0
  }

  ghost function SummandOf(saturation: real, penalty: real, average: uint32 -> real, c: Contribution): real
    requires Summable(saturation, penalty, average, c)
  {
    Summand(Tuning(saturation, penalty, average(c.avg)), c.weight, c.tf as real, c.dl as real)
  }

  /** What the first `n` summands of a trail add up to. */
  ghost function Worth(saturation: real, penalty: real, average: uint32 -> real, trail: seq<Contribution>, n: nat): real
    requires n <= |trail| && forall i | 0 <= i < n :: Summable(saturation, penalty, average, trail[i])
  {
    if n == 0 then 0.0
    else Worth(saturation, penalty, average, trail, n - 1) + SummandOf(saturation, penalty, average, trail[n - 1])
  }

  ghost function Ceiling(trail: seq<Contribution>, n: nat): real
    requires n <= |trail| && forall i | 0 <= i < n :: trail[i].Weighted?
  {
    if n == 0 then 0.0 else Ceiling(trail, n - 1) + trail[n - 1].weight
  }

  /** A score is positive as soon as something was added to it, and at most the weights of what was added. */
  lemma {:induction false} WorthBounds(saturation: real, penalty: real, average: uint32 -> real,
                                       trail: seq<Contribution>, n: nat)
    requires n <= |trail|
    requires forall i | 0 <= i < n :: Summable(saturation, penalty, average, trail[i]) && trail[i].weight > 0.0
    ensures 0.0 <= Worth(saturation, penalty, average, trail, n) <= Ceiling(trail, n)
    ensures Worth(saturation, penalty, average, trail, n) > 0.0 <==> n > 0
  {
    if n > 0 {
      var c := trail[n - 1];
      WorthBounds(saturation, penalty, average, trail, n - 1);
      SummandBounds(Tuning(saturation, penalty, average(c.avg)), c.weight, c.tf as real, c.dl as real);
    }
  }
}
