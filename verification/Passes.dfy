/** From the rise, culmination and set events of a satellite to its complete passes. */
module Passes {
  import opened Wrappers

  const RISE: int := 0
  const CULMINATE: int := 1
  const SET: int := 2

  datatype OrbitEvent = OrbitEvent(time: Time, code: int)

  datatype Pass = Pass(aosAt: Time, peakAt: Time, losAt: Time)

  /** Positions of the rise, the peak and the set of one pass. */
  datatype Span = Span(aos: nat, peak: nat, los: nat)

  // What a complete pass is.

  /** From a rise to a set with no other rise or set in between, and the peak is the last of
      the culminations in between, in the codes of the orbit library: 0 is a rise, 1 is a
      culmination, 2 is a set. */
  predicate IsSpan(events: seq<OrbitEvent>, s: Span) {
    && s.aos < s.peak < s.los < |events|
    && events[s.aos].code == 0 && events[s.peak].code == 1 && events[s.los].code == 2
    && (forall n :: s.aos < n < s.los ==> events[n].code != 0 && events[n].code != 2)
    && (forall n :: s.peak < n < s.los ==> events[n].code != 1)
  }

  /** All the spans of `events`, and only those, one after the other. */
  ghost predicate AreSpans(events: seq<OrbitEvent>, spans: seq<Span>) {
    && (forall n :: 0 <= n < |spans| ==> IsSpan(events, spans[n]))
    && (forall m, n :: 0 <= m < n < |spans| ==> spans[m].los < spans[n].aos)
    && (forall s :: IsSpan(events, s) ==> s in spans)
  }

  /** The spans that end at each position before `n`, looking back from it. */
  ghost function SpansBefore(events: seq<OrbitEvent>, n: nat): (spans: seq<Span>)
    requires n <= |events|
    ensures forall m :: 0 <= m < |spans| ==> IsSpan(events, spans[m]) && spans[m].los < n
  {
    if n == 0 then []
    else
      var rest := SpansBefore(events, n - 1);
      if exists s :: IsSpan(events, s) && s.los == n - 1
      then var s :| IsSpan(events, s) && s.los == n - 1; rest + [s]
      else rest
  }

  ghost function Spans(events: seq<OrbitEvent>): (spans: seq<Span>)
    ensures forall m :: 0 <= m < |spans| ==> IsSpan(events, spans[m])
  {
    SpansBefore(events, |events|)
  }

  lemma SpanEndsOnce(events: seq<OrbitEvent>, s: Span, t: Span)
    requires IsSpan(events, s) && IsSpan(events, t) && s.los == t.los
    ensures s == t
  {
    assert !(s.aos < t.aos) && !(t.aos < s.aos);
    assert !(s.peak < t.peak) && !(t.peak < s.peak);
  }

  lemma SpansDoNotOverlap(events: seq<OrbitEvent>, s: Span, t: Span)
    requires IsSpan(events, s) && IsSpan(events, t) && s.los < t.los
    ensures s.los < t.aos
  {
    assert s.los <= t.aos;
  }

  lemma SpanEnds(events: seq<OrbitEvent>, n: nat, span: Span)
    requires n < |events| && IsSpan(events, span) && span.los == n
    ensures SpansBefore(events, n + 1) == SpansBefore(events, n) + [span]
  {
    var s :| IsSpan(events, s) && s.los == n && SpansBefore(events, n + 1) == SpansBefore(events, n) + [s];
    SpanEndsOnce(events, s, span);
  }

  lemma Earlier(events: seq<OrbitEvent>, n: nat)
    requires 0 < n <= |events|
    ensures SpansBefore(events, n - 1) <= SpansBefore(events, n)
  {
  }

  lemma {:induction false} SpanIsListed(events: seq<OrbitEvent>, n: nat, s: Span)
    requires n <= |events| && IsSpan(events, s) && s.los < n
    ensures s in SpansBefore(events, n)
    decreases n
  {
    if s.los == n - 1 {
      SpanEnds(events, n - 1, s);
    } else {
      SpanIsListed(events, n - 1, s);
      Earlier(events, n);
    }
  }

  lemma {:induction false} SpansAreListedInOrder(events: seq<OrbitEvent>, n: nat, l: nat, m: nat)
    requires n <= |events| && l < m < |SpansBefore(events, n)|
    ensures SpansBefore(events, n)[l].los < SpansBefore(events, n)[m].aos
  {
    var rest, spans := SpansBefore(events, n - 1), SpansBefore(events, n);
    if m < |rest| {
      SpansAreListedInOrder(events, n - 1, l, m);
    } else {
      SpansDoNotOverlap(events, spans[l], spans[m]);
    }
  }

  /** `Spans` is the list of the complete passes. */
  lemma SpansAreSpans(events: seq<OrbitEvent>)
    ensures AreSpans(events, Spans(events))
  {
    var spans := Spans(events);
    forall l, m | 0 <= l < m < |spans| ensures spans[l].los < spans[m].aos {
      SpansAreListedInOrder(events, |events|, l, m);
    }
    forall s | IsSpan(events, s) ensures s in spans {
      SpanIsListed(events, |events|, s);
    }
  }

  ghost function PassOf(events: seq<OrbitEvent>, s: Span): Pass
    requires IsSpan(events, s)
  {
    Pass(events[s.aos].time, events[s.peak].time, events[s.los].time)
  }

  ghost function PassList(events: seq<OrbitEvent>): seq<Pass> {
    seq(|Spans(events)|, n requires 0 <= n < |Spans(events)| => PassOf(events, Spans(events)[n]))
  }

  // The event loop.

  /** The rise that the loop remembers after `n` events: the last rise or set was that rise. */
  predicate OpenRise(events: seq<OrbitEvent>, n: nat, aos: Option<nat>)
    requires n <= |events|
  {
    match aos
    case None =>
      forall i :: 0 <= i < n && events[i].code == RISE ==> exists k :: i < k < n && events[k].code == SET
    case Some(i) =>
      i < n && events[i].code == RISE && forall k :: i < k < n ==> events[k].code != RISE && events[k].code != SET
  }

  /** The peak it remembers: the last culmination since that rise. */
  predicate LastPeak(events: seq<OrbitEvent>, n: nat, aos: Option<nat>, peak: Option<nat>)
    requires n <= |events|
  {
    match peak
    case None => aos.Some? ==> forall k :: aos.value < k < n ==> events[k].code != CULMINATE
    case Some(p) =>
      && aos.Some? && aos.value < p < n && events[p].code == CULMINATE
      && forall k :: p < k < n ==> events[k].code != CULMINATE
  }

  /** What the loop remembers after one more event. */
  lemma Remember(events: seq<OrbitEvent>, n: nat, aos: Option<nat>, peak: Option<nat>)
    requires n < |events| && OpenRise(events, n, aos) && LastPeak(events, n, aos, peak)
    ensures var code := events[n].code;
            if code == RISE then OpenRise(events, n + 1, Some(n)) && LastPeak(events, n + 1, Some(n), None)
            else if code == CULMINATE && aos.Some?
            then OpenRise(events, n + 1, aos) && LastPeak(events, n + 1, aos, Some(n))
            else if code == SET then OpenRise(events, n + 1, None) && LastPeak(events, n + 1, None, None)
            else OpenRise(events, n + 1, aos) && LastPeak(events, n + 1, aos, peak)
  {
  }

  lemma NoSpanHere(events: seq<OrbitEvent>, n: nat)
    requires n < |events|
    requires forall s :: IsSpan(events, s) ==> s.los != n
    ensures SpansBefore(events, n + 1) == SpansBefore(events, n)
  {
  }

  /** The loop of `compute_passes`: it emits exactly the complete passes, in order. */
  method FindPasses(events: seq<OrbitEvent>) returns (passes: seq<Pass>)
    ensures passes == PassList(events)
    ensures |passes| == |Spans(events)|
    ensures forall n :: 0 <= n < |passes| ==>
      var s := Spans(events)[n];
      && passes[n].aosAt == events[s.aos].time
      && passes[n].peakAt == events[s.peak].time
      && passes[n].losAt == events[s.los].time
  {
    passes := [];
    var aosAt: Option<Time>, peakTime: Option<Time> := None, None;
    ghost var aos: Option<nat>, peak: Option<nat> := None, None;
    for n := 0 to |events|
      invariant aosAt.Some? == aos.Some? && peakTime.Some? == peak.Some?
      invariant OpenRise(events, n, aos) && LastPeak(events, n, aos, peak)
      invariant aos.Some? ==> aosAt.value == events[aos.value].time
      invariant peak.Some? ==> peakTime.value == events[peak.value].time
      invariant |passes| == |SpansBefore(events, n)|
      invariant forall m :: 0 <= m < |passes| ==> passes[m] == PassOf(events, SpansBefore(events, n)[m])
    {
      var time, code := events[n].time, events[n].code;
      Remember(events, n, aos, peak);
      if code != SET { NoSpanHere(events, n); }
      if code == RISE {
        aosAt, peakTime := Some(time), None;
        aos, peak := Some(n), None;
      } else if code == CULMINATE && aosAt.Some? {
        peakTime := Some(time);
        peak := Some(n);
      } else if code == SET && aosAt.Some? && peakTime.Some? {
        passes := passes + [Pass(aosAt.value, peakTime.value, time)];
        SpanEnds(events, n, Span(aos.value, peak.value, n));
        aosAt, peakTime, aos, peak := None, None, None, None;
      } else if code == SET {
        forall s | IsSpan(events, s) ensures s.los != n {
          NoSpanEnds(events, n, aos, peak, s);
        }
        NoSpanHere(events, n);
        aosAt, peakTime, aos, peak := None, None, None, None;
      }
    }
  }

  lemma NoSpanEnds(events: seq<OrbitEvent>, n: nat, aos: Option<nat>, peak: Option<nat>, s: Span)
    requires n < |events| && OpenRise(events, n, aos) && LastPeak(events, n, aos, peak)
    requires aos.None? || peak.None?
    requires IsSpan(events, s)
    ensures s.los != n
  {
    match aos {
      case None =>
      case Some(i) => assert s.los == n ==> s.aos == i;
    }
  }

  // What follows from being the spans.

  /** With increasing times, every pass rises, peaks and sets in that order, and each one rises
      after the previous one has set. */
  lemma PassesAreOrdered(events: seq<OrbitEvent>)
    requires forall m, n :: 0 <= m < n < |events| ==> events[m].time < events[n].time
    ensures var passes := PassList(events);
            && (forall n :: 0 <= n < |passes| ==> passes[n].aosAt < passes[n].peakAt < passes[n].losAt)
            && (forall m, n :: 0 <= m < n < |passes| ==> passes[m].losAt < passes[n].aosAt)
  {
    SpansAreSpans(events);
    var spans, passes := Spans(events), PassList(events);
    forall m, n | 0 <= m < n < |passes| ensures passes[m].losAt < passes[n].aosAt {
      assert spans[m].los < spans[n].aos;
    }
  }

  predicate Ordered(a: seq<Span>) {
    && (forall n :: 0 <= n < |a| ==> a[n].aos < a[n].los)
    && (forall m, n :: 0 <= m < n < |a| ==> a[m].los < a[n].aos)
  }

  lemma {:induction false} SameOrder(a: seq<Span>, b: seq<Span>)
    requires Ordered(a) && Ordered(b)
    requires forall s :: s in a <==> s in b
    ensures a == b
  {
    assert (a != [] ==> a[0] in b) && (b != [] ==> b[0] in a);
    if a != [] {
      assert a[0] == b[0];
      forall s | s in a[1..] ensures s in b[1..] {
        assert s in b && s != b[0];
      }
      forall s | s in b[1..] ensures s in a[1..] {
        assert s in a && s != a[0];
      }
      SameOrder(a[1..], b[1..]);
    }
  }

  function Shift(s: Span, lo: nat): Span {
    Span(s.aos + lo, s.peak + lo, s.los + lo)
  }

  /** The spans that lie wholly inside positions [lo, hi), counted from lo. */
  function Inside(spans: seq<Span>, lo: nat, hi: nat): seq<Span> {
    if spans == [] then []
    else
      var s, rest := spans[0], Inside(spans[1..], lo, hi);
      if lo <= s.aos && lo <= s.peak && lo <= s.los && s.los < hi
      then [Span(s.aos - lo, s.peak - lo, s.los - lo)] + rest
      else rest
  }

  lemma {:induction false} InsideMembers(spans: seq<Span>, lo: nat, hi: nat, s: Span)
    requires Ordered(spans) && s.aos < s.peak < s.los
    ensures s in Inside(spans, lo, hi) <==> Shift(s, lo) in spans && s.los + lo < hi
  {
    if spans != [] {
      InsideMembers(spans[1..], lo, hi, s);
      assert spans == [spans[0]] + spans[1..];
    }
  }

  lemma {:induction false} InsideComesFrom(spans: seq<Span>, lo: nat, hi: nat, s: Span)
    requires s in Inside(spans, lo, hi)
    ensures Shift(s, lo) in spans
  {
    if spans != [] && s in Inside(spans[1..], lo, hi) {
      InsideComesFrom(spans[1..], lo, hi, s);
    }
  }

  lemma InsideComesAfter(spans: seq<Span>, lo: nat, hi: nat, s: Span)
    requires Ordered(spans) && spans != [] && s in Inside(spans[1..], lo, hi)
    ensures spans[0].los < s.aos + lo
  {
    InsideComesFrom(spans[1..], lo, hi, s);
    var k :| 0 <= k < |spans[1..]| && spans[1..][k] == Shift(s, lo);
    assert spans[k + 1] == Shift(s, lo);
  }

  lemma {:induction false} InsideOrdered(spans: seq<Span>, lo: nat, hi: nat)
    requires Ordered(spans)
    ensures Ordered(Inside(spans, lo, hi))
  {
    if spans != [] {
      var rest := Inside(spans[1..], lo, hi);
      InsideOrdered(spans[1..], lo, hi);
      forall n | 0 <= n < |rest| ensures spans[0].los < rest[n].aos + lo {
        InsideComesAfter(spans, lo, hi, rest[n]);
      }
    }
  }

  /** On any slice of the events, the loop finds exactly the passes wholly inside the slice. */
  lemma SliceFindsPassesInside(events: seq<OrbitEvent>, lo: nat, hi: nat)
    requires lo <= hi <= |events|
    ensures Spans(events[lo..hi]) == Inside(Spans(events), lo, hi)
  {
    SpansAreSpans(events);
    SpansAreSpans(events[lo..hi]);
    var spans, sliced := Spans(events), Spans(events[lo..hi]);
    InsideOrdered(spans, lo, hi);
    forall s ensures s in sliced <==> s in Inside(spans, lo, hi) {
      if s.aos < s.peak < s.los {
        InsideMembers(spans, lo, hi, s);
        if s.los + lo < hi {
          SpanInSlice(events, lo, hi, s);
        }
      } else if s in Inside(spans, lo, hi) {
        InsideComesFrom(spans, lo, hi, s);
        assert false;
      }
    }
    SameOrder(sliced, Inside(spans, lo, hi));
  }

  lemma SpanInSlice(events: seq<OrbitEvent>, lo: nat, hi: nat, s: Span)
    requires lo <= hi <= |events| && s.los + lo < hi
    ensures IsSpan(events[lo..hi], s) <==> IsSpan(events, Shift(s, lo))
  {
    var slice, t := events[lo..hi], Shift(s, lo);
    if IsSpan(slice, s) {
      forall n | t.aos < n < t.los ensures events[n].code != RISE && events[n].code != SET {
        assert slice[n - lo] == events[n];
      }
      forall n | t.peak < n < t.los ensures events[n].code != CULMINATE {
        assert slice[n - lo] == events[n];
      }
    }
  }

  // The guards of `compute_passes`.

  datatype WindowError = NaiveBounds | EmptyWindow | ElevationOutOfRange | TooFewSamples

  /** `aware` says whether both bounds carry a time zone. The four guards come in this order,
      before any orbit is computed; behind them is the event loop. */
  method ComputePasses(
    events: seq<OrbitEvent>, aware: bool, start: Time, end: Time, minElevation: real, samples: int)
    returns (r: Result<seq<Pass>, WindowError>)
    ensures r.Success? <==> aware && start < end && 0.0 < minElevation < 90.0 && samples >= 2
    ensures r.Success? ==> r.value == PassList(events)
    ensures r.Failure? ==>
      r.error == (if !aware then NaiveBounds
                  else if start >= end then EmptyWindow
                  else if !(0.0 < minElevation < 90.0) then ElevationOutOfRange
                  else TooFewSamples)
  {
    if !aware { return Failure(NaiveBounds); }
    if start >= end { return Failure(EmptyWindow); }
    if !(0.0 < minElevation < 90.0) { return Failure(ElevationOutOfRange); }
    if samples < 2 { return Failure(TooFewSamples); }
    var passes := FindPasses(events);
    r := Success(passes);
  }
}
