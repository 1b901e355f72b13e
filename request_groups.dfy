/**
 * PageRequestsGroup: a cluster of requests whose windows overlap within a
 * tolerance of `thresholdMs` (10 ms by default). A start or end of 0 stands
 * for both 0 and None, which the Python code treats alike (`if not ...`).
 */
module RequestGroups {
  import opened Py
  import opened Requests

  /** A group's fields as one value: tolerance, window and members. */
  datatype GroupValue = GroupValue(thresholdMs: int, tsStart: int, tsEnd: int, requests: seq<PageRequest>)

  /** The group `PageRequestsGroup(r, threshold_ms)` starts as. */
  function Opened(r: PageRequest, thresholdMs: int): GroupValue {
    GroupValue(thresholdMs, r.tsStart, if r.tsStart != 0 then r.tsStart + r.dur else 0, [r])
  }

  /**
   * Whether `add_request` takes r: a group with an unset start takes anything;
   * otherwise r must start inside the window widened by the tolerance.
   */
  predicate Takes(g: GroupValue, r: PageRequest) {
    g.tsStart == 0 || (g.tsStart <= r.tsStart && r.tsStart <= g.tsEnd + g.thresholdMs)
  }

  /** The group after `_add(r)`: r appended, a set bound widened, an unset bound left unset. */
  function Joined(g: GroupValue, r: PageRequest): GroupValue {
    g.(tsStart := if g.tsStart != 0 then Min(g.tsStart, r.tsStart) else 0,
       tsEnd := if g.tsEnd != 0 then Max(g.tsEnd, r.tsStart + r.dur) else 0,
       requests := g.requests + [r])
  }

  /** The latest end (start + dur) among the requests. */
  function Reach(rs: seq<PageRequest>): int
    requires |rs| > 0
  {
    if |rs| == 1 then rs[0].tsStart + rs[0].dur
    else Max(Reach(rs[..|rs| - 1]), rs[|rs| - 1].tsStart + rs[|rs| - 1].dur)
  }

  /** Reach is the largest end among the requests: it bounds them all and one reaches it. */
  lemma {:induction false} ReachIsLatestEnd(rs: seq<PageRequest>)
    requires |rs| > 0
    ensures forall k :: 0 <= k < |rs| ==> rs[k].tsStart + rs[k].dur <= Reach(rs)
    ensures exists k :: 0 <= k < |rs| && rs[k].tsStart + rs[k].dur == Reach(rs)
  {
    if |rs| > 1 {
      var front := rs[..|rs| - 1];
      ReachIsLatestEnd(front);
      assert forall k :: 0 <= k < |front| ==> rs[k] == front[k];
      var j :| 0 <= j < |front| && front[j].tsStart + front[j].dur == Reach(front);
      if Reach(rs) != rs[|rs| - 1].tsStart + rs[|rs| - 1].dur {
        assert rs[j].tsStart + rs[j].dur == Reach(rs);
      }
    }
  }

  /** Every request started (a positive timestamp) and has a non-negative duration. */
  predicate Started(rs: seq<PageRequest>) {
    forall k :: 0 <= k < |rs| ==> rs[k].tsStart > 0 && rs[k].dur >= 0
  }

  /**
   * Each member after the first started no earlier than the first and no later
   * than the tolerance past the latest end of the members before it.
   */
  predicate Chained(rs: seq<PageRequest>, thresholdMs: int)
    requires |rs| > 0
  {
    |rs| == 1 ||
      (var n := |rs|;
       && Chained(rs[..n - 1], thresholdMs)
       && rs[0].tsStart <= rs[n - 1].tsStart <= Reach(rs[..n - 1]) + thresholdMs)
  }

  /**
   * The window of a group of started requests, stated from its members alone: the
   * group starts where its first member starts, ends at the latest member end, and
   * its members are chained within its tolerance.
   */
  predicate Spans(g: GroupValue) {
    && |g.requests| > 0
    && Started(g.requests)
    && g.tsStart == g.requests[0].tsStart
    && g.tsEnd == Reach(g.requests)
    && Chained(g.requests, g.thresholdMs)
  }

  /** A group opened by a started request spans it. */
  lemma OpenedSpans(r: PageRequest, thresholdMs: int)
    requires Started([r])
    ensures Spans(Opened(r, thresholdMs))
  {
    assert Opened(r, thresholdMs).requests == [r];
  }

  /** A spanning group that takes a started request still spans its members. */
  lemma JoinedSpans(g: GroupValue, r: PageRequest)
    requires Spans(g) && Started([r]) && Takes(g, r)
    ensures Spans(Joined(g, r))
  {
    var j := Joined(g, r);
    ReachIsLatestEnd(g.requests);
    assert g.tsEnd >= g.requests[0].tsStart + g.requests[0].dur > 0;
    assert j.requests[..|g.requests|] == g.requests;
    assert j.requests[0] == g.requests[0];
  }

  /**
   * The converse step: a spanning group of two or more members is its members
   * but the last, spanning, joined by the last member, which that group took.
   */
  lemma SpansSplit(g: GroupValue) returns (front: GroupValue)
    requires Spans(g) && |g.requests| > 1
    ensures front == GroupValue(g.thresholdMs, g.tsStart, Reach(g.requests[..|g.requests| - 1]),
                                g.requests[..|g.requests| - 1])
    ensures Spans(front)
    ensures Takes(front, g.requests[|g.requests| - 1])
    ensures Joined(front, g.requests[|g.requests| - 1]) == g
  {
    var n := |g.requests|;
    front := GroupValue(g.thresholdMs, g.tsStart, Reach(g.requests[..n - 1]), g.requests[..n - 1]);
    ReachIsLatestEnd(front.requests);
    assert front.requests[0] == g.requests[0];
    assert front.tsEnd >= front.requests[0].tsStart + front.requests[0].dur > 0;
    assert front.requests + [g.requests[n - 1]] == g.requests;
  }

  class PageRequestsGroup {
    const thresholdMs: int
    var tsStart: int
    var tsEnd: int
    var requests: seq<PageRequest>

    /** The fields as one value. */
    function Value(): GroupValue
      reads this
    {
      GroupValue(thresholdMs, tsStart, tsEnd, requests)
    }

    /**
     * The window invariant: with a known start, every member starts no earlier
     * than the group, and every member after the first started within the
     * tolerance of the group's end.
     */
    ghost predicate Valid()
      reads this
    {
      && |requests| >= 1
      && (tsStart != 0 ==> forall k :: 0 <= k < |requests| ==> tsStart <= requests[k].tsStart)
      && (tsStart != 0 ==> forall k :: 1 <= k < |requests| ==> requests[k].tsStart <= tsEnd + thresholdMs)
    }

    constructor (r: PageRequest, thresholdMs: int := 10)
      ensures Value() == Opened(r, thresholdMs)
      ensures this.thresholdMs == thresholdMs
      ensures tsStart == r.tsStart
      ensures tsEnd == if r.tsStart != 0 then r.tsStart + r.dur else 0
      ensures requests == [r]
      ensures Valid()
    {
      this.thresholdMs := thresholdMs;
      tsStart := r.tsStart;
      tsEnd := if r.tsStart != 0 then r.tsStart + r.dur else 0;
      requests := [r];
    }

    /** `_add`: append r and widen the window; an unset bound stays unset. */
    method Add(r: PageRequest)
      modifies this
      ensures Value() == Joined(old(Value()), r)
      ensures tsStart == if old(tsStart) != 0 then Min(old(tsStart), r.tsStart) else 0
      ensures tsEnd == if old(tsEnd) != 0 then Max(old(tsEnd), r.tsStart + r.dur) else 0
      ensures tsEnd != 0 ==> tsEnd >= old(tsEnd)
      ensures requests == old(requests) + [r]
    {
      tsStart := if tsStart != 0 then Min(tsStart, r.tsStart) else 0;
      tsEnd := if tsEnd != 0 then Max(tsEnd, r.tsStart + r.dur) else 0;
      requests := requests + [r];
    }

    /**
     * `add_request`: r is taken iff the start is unset or r starts inside the
     * window widened by the tolerance; a taken r is added as `_add` does, and on
     * refusal nothing changes. Taking keeps the window invariant.
     */
    method AddRequest(r: PageRequest) returns (accepted: bool)
      modifies this
      ensures accepted == Takes(old(Value()), r)
      ensures Value() == if accepted then Joined(old(Value()), r) else old(Value())
      ensures accepted ==>
        && requests == old(requests) + [r]
        && tsStart == (if old(tsStart) != 0 then Min(old(tsStart), r.tsStart) else 0)
        && tsEnd == (if old(tsEnd) != 0 then Max(old(tsEnd), r.tsStart + r.dur) else 0)
      ensures accepted && old(tsStart) != 0 ==> tsStart == old(tsStart)
      ensures old(Valid()) ==> Valid()
      ensures !accepted ==> unchanged(this)
    {
      if tsStart == 0 {
        Add(r);
        return true;
      }
      if tsStart <= r.tsStart && r.tsStart <= tsEnd + thresholdMs {
        Add(r);
        return true;
      }
      return false;
    }

    /** `get_uncached_reqs`. */
    function GetUncachedReqs(): (u: seq<PageRequest>)
      reads this
      ensures forall x :: multiset(u)[x] == if x.cached then 0 else multiset(requests)[x]
      ensures forall x :: x in u <==> x in requests && !x.cached
    {
      Uncached(requests)
    }
  }
}
