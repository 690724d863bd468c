/** Instants at which the ground track of a pass is sampled. */
module Sampling {
  import opened Wrappers

  /** Python's `timedelta / int`: to the nearest microsecond, ties to the even one. */
  function Quotient(usec: int, parts: int): int
    requires parts > 0
  {
    var q, r := usec / parts, usec % parts;
    if 2 * r > parts || (2 * r == parts && q % 2 == 1) then q + 1 else q
  }

  lemma QuotientIsNearest(usec: int, parts: int)
    requires parts > 0
    ensures -parts <= 2 * (Quotient(usec, parts) * parts - usec) <= parts
  {
    var q, r := usec / parts, usec % parts;
    assert usec == q * parts + r;
    assert (q + 1) * parts == q * parts + parts;
  }

  /** A point half way between two microseconds goes to the even one. */
  lemma TiesGoToEven(usec: int, parts: int)
    requires parts > 0
    requires var off := 2 * (Quotient(usec, parts) * parts - usec); off == parts || off == -parts
    ensures Quotient(usec, parts) % 2 == 0
  {
    var q, r := usec / parts, usec % parts;
    assert usec == q * parts + r;
    assert (q + 1) * parts == q * parts + parts;
  }

  lemma QuotientIsUnique(usec: int, parts: int, n: int)
    requires parts > 0
    requires -parts < 2 * (n * parts - usec) < parts
    ensures Quotient(usec, parts) == n
  {
    QuotientIsNearest(usec, parts);
    var d := Quotient(usec, parts) - n;
    assert d * parts == Quotient(usec, parts) * parts - n * parts;
    assert (d >= 1 ==> d * parts >= parts) && (d <= -1 ==> d * parts <= -parts);
  }

  lemma QuotientIsMonotone(a: int, b: int, parts: int)
    requires parts > 0 && a <= b
    ensures Quotient(a, parts) <= Quotient(b, parts)
    ensures a + parts < b ==> Quotient(a, parts) < Quotient(b, parts)
  {
    if a < b {
      var qa, qb := Quotient(a, parts), Quotient(b, parts);
      QuotientIsNearest(a, parts);
      QuotientIsNearest(b, parts);
      if qb < qa { ProductGrows(qb + 1, qa, parts); }
      if qb <= qa { ProductGrows(qb, qa, parts); }
    }
  }

  lemma ProductGrows(m: int, n: int, parts: int)
    requires parts > 0 && m <= n
    ensures m * parts <= n * parts
    ensures (m - 1) * parts == m * parts - parts
  {
  }

  /** The instant of one step before any correction. */
  function Instant(start: Time, end: Time, count: nat, step: nat): Time
    requires count >= 2
  {
    start + Quotient((end - start) * step, count - 1)
  }

  method SampleInstants(start: Time, end: Time, count: nat) returns (instants: seq<Time>)
    requires count >= 2
    ensures |instants| == count
    ensures forall step :: 0 <= step < count ==> instants[step] == Instant(start, end, count, step)
    ensures instants[0] == start && instants[count - 1] == end
  {
    var span := end - start;
    instants := seq(count, step requires 0 <= step < count => start + Quotient(span * step, count - 1));
    ghost var exact := instants;
    LastInstantIsEnd(start, end, count);
    instants := instants[count - 1 := end];
    assert instants == exact;
  }

  /** The first instant is `start`; the last one is `end` already, so overwriting it with `end`
      changes nothing. */
  lemma LastInstantIsEnd(start: Time, end: Time, count: nat)
    requires count >= 2
    ensures Instant(start, end, count, 0) == start
    ensures Instant(start, end, count, count - 1) == end
  {
    QuotientIsUnique(0, count - 1, 0);
    QuotientIsUnique((end - start) * (count - 1), count - 1, end - start);
  }

  /** Every instant is within half a microsecond of the exact point (here times count - 1). */
  lemma InstantIsNearest(start: Time, end: Time, count: nat, step: nat)
    requires count >= 2
    ensures var exact := start * (count - 1) + (end - start) * step;
            -(count - 1) <= 2 * (Instant(start, end, count, step) * (count - 1) - exact) <= count - 1
  {
    var q := Quotient((end - start) * step, count - 1);
    QuotientIsNearest((end - start) * step, count - 1);
    assert (start + q) * (count - 1) == start * (count - 1) + q * (count - 1);
  }

  lemma InstantsAreNonDecreasing(start: Time, end: Time, count: nat, a: nat, b: nat)
    requires count >= 2 && start <= end && a <= b
    ensures Instant(start, end, count, a) <= Instant(start, end, count, b)
  {
    assert (end - start) * b == (end - start) * a + (end - start) * (b - a);
    QuotientIsMonotone((end - start) * a, (end - start) * b, count - 1);
  }

  predicate StrictlyIncreasing(start: Time, end: Time, count: nat)
    requires count >= 2
  {
    forall a, b :: 0 <= a < b < count ==> Instant(start, end, count, a) < Instant(start, end, count, b)
  }

  lemma NextInstantIsLater(start: Time, end: Time, count: nat, step: nat)
    requires count >= 2 && end - start >= count - 1
    ensures Instant(start, end, count, step) < Instant(start, end, count, step + 1)
  {
    var span, parts := end - start, count - 1;
    assert span * (step + 1) == span * step + span;
    if span == parts {
      QuotientIsUnique(span * step, parts, step);
      QuotientIsUnique(span * (step + 1), parts, step + 1);
    } else {
      QuotientIsMonotone(span * step, span * (step + 1), parts);
    }
  }

  lemma {:induction false} LaterInstantIsLater(start: Time, end: Time, count: nat, a: nat, b: nat)
    requires count >= 2 && end - start >= count - 1 && a < b
    ensures Instant(start, end, count, a) < Instant(start, end, count, b)
  {
    NextInstantIsLater(start, end, count, b - 1);
    if a < b - 1 { LaterInstantIsLater(start, end, count, a, b - 1); }
  }

  lemma {:induction false} IncreasingNeedsRoom(start: Time, end: Time, count: nat, n: nat)
    requires count >= 2 && n < count && StrictlyIncreasing(start, end, count)
    ensures Instant(start, end, count, n) >= start + n
  {
    if n == 0 {
      LastInstantIsEnd(start, end, count);
    } else {
      IncreasingNeedsRoom(start, end, count, n - 1);
    }
  }

  /** No two instants coincide exactly when there is a microsecond for each step. */
  lemma StrictIffRoom(start: Time, end: Time, count: nat)
    requires count >= 2
    ensures StrictlyIncreasing(start, end, count) <==> end - start >= count - 1
  {
    if end - start >= count - 1 {
      forall a, b | 0 <= a < b < count ensures Instant(start, end, count, a) < Instant(start, end, count, b) {
        LaterInstantIsLater(start, end, count, a, b);
      }
    } else if StrictlyIncreasing(start, end, count) {
      IncreasingNeedsRoom(start, end, count, count - 1);
      LastInstantIsEnd(start, end, count);
    }
  }
}
