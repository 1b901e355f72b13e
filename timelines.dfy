/**
 * PageTimeline: the seven navigation instants of a page (navigationStart,
 * requestStart, responseStart, responseEnd, domComplete, loadEventEnd of the
 * W3C Navigation Timing PerformanceTiming interface, plus the last detected
 * activity), the six consecutive deltas between them and two summary
 * durations. All values are integer milliseconds.
 */
module Timelines {

  /** The instants, in the order of `PageTimeline.types`. */
  datatype Instant = NavStrt | ReqStrt | RspStrt | RspEnd | DomEnd | OnloadEnd | AjaxEnd

  const Types: seq<Instant> := [NavStrt, ReqStrt, RspStrt, RspEnd, DomEnd, OnloadEnd, AjaxEnd]

  /** Position of an instant in `Types`. */
  function Pos(i: Instant): (n: nat)
    ensures n < |Types| && Types[n] == i
  {
    match i
    case NavStrt => 0
    case ReqStrt => 1
    case RspStrt => 2
    case RspEnd => 3
    case DomEnd => 4
    case OnloadEnd => 5
    case AjaxEnd => 6
  }

  datatype TimelineRec = TimelineRec(values: seq<int>, deltas: seq<int>, ajaxStart: int, totalDur: int)

  /** A timeline always has one value per instant and one delta per consecutive pair. */
  type Timeline = t: TimelineRec | |t.values| == 7 && |t.deltas| == 6
    witness TimelineRec([0, 0, 0, 0, 0, 0, 0], [0, 0, 0, 0, 0, 0], 0, 0)

  function Value(t: Timeline, i: Instant): int {
    t.values[Pos(i)]
  }

  /** The value read for an instant: the supplied one, or 0 when it is missing. */
  function Given(given: map<Instant, int>, i: Instant): int {
    if i in given then given[i] else 0
  }

  /** The deltas are the differences of consecutive instants. */
  ghost predicate DeltasConsistent(t: Timeline) {
    forall n :: 0 <= n < 6 ==> t.deltas[n] == t.values[n + 1] - t.values[n]
  }

  /**
   * `PageTimeline(page, values)`: `given` holds the supplied instants (an absent
   * dictionary is the empty map), `pageStart`/`pageEnd` the page's `ts_start`/`ts_end`
   * (0 when unset).
   */
  method NewTimeline(given: map<Instant, int>, pageStart: int, pageEnd: int) returns (t: Timeline)
    ensures forall i :: i != AjaxEnd ==> Value(t, i) == Given(given, i)
    ensures var supplied := if pageEnd != 0 && Given(given, AjaxEnd) == 0
                            then pageEnd - pageStart + Given(given, NavStrt)
                            else Given(given, AjaxEnd);
            Value(t, AjaxEnd) == if supplied < Given(given, OnloadEnd) then Given(given, OnloadEnd) else supplied
    ensures Value(t, AjaxEnd) >= Value(t, OnloadEnd)
    ensures DeltasConsistent(t)
    ensures t.ajaxStart == Value(t, DomEnd) - Value(t, NavStrt)
    ensures t.totalDur == Value(t, OnloadEnd) - Value(t, NavStrt)
  {
    var values: seq<int> := [];
    for n := 0 to |Types|
      invariant |values| == n
      invariant forall k :: 0 <= k < n ==> values[k] == Given(given, Types[k])
    {
      values := values + [Given(given, Types[n])];
    }
    var deltas: seq<int> := [];
    for n := 0 to |Types| - 1
      invariant |deltas| == n
    {
      deltas := deltas + [0];
    }

    if pageEnd != 0 && values[6] == 0 {
      values := values[6 := pageEnd - pageStart + values[0]];
    }

    // fixup: the last activity never precedes the end of onload
    if values[6] < values[5] {
      values := values[6 := values[5]];
    }

    for n := 0 to |Types| - 1
      invariant |deltas| == 6
      invariant forall k :: 0 <= k < n ==> deltas[k] == values[k + 1] - values[k]
    {
      deltas := deltas[n := values[n + 1] - values[n]];
    }

    t := TimelineRec(values, deltas, values[4] - values[0], values[5] - values[0]);
    forall i ensures i != AjaxEnd ==> Value(t, i) == Given(given, i) {
      assert Types[Pos(i)] == i;
    }
  }

  function Sum(s: seq<int>): int {
    if s == [] then 0 else Sum(s[..|s| - 1]) + s[|s| - 1]
  }

  /** The first k deltas add up to the distance from navigation start to instant k. */
  lemma {:induction false} DeltasPrefixSum(t: Timeline, k: nat)
    requires DeltasConsistent(t) && k <= 6
    ensures Sum(t.deltas[..k]) == t.values[k] - t.values[0]
  {
    if k > 0 {
      DeltasPrefixSum(t, k - 1);
      assert t.deltas[..k][..k - 1] == t.deltas[..k - 1];
    }
  }

  /** All six deltas add up to the last activity instant minus the navigation start. */
  lemma DeltasSum(t: Timeline)
    requires DeltasConsistent(t)
    ensures Sum(t.deltas) == Value(t, AjaxEnd) - Value(t, NavStrt)
  {
    DeltasPrefixSum(t, 6);
    assert t.deltas[..6] == t.deltas;
  }
}
