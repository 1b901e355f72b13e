/**
 * Page: the requests captured during one navigation, kept in arrival order
 * and keyed by request id, the activity window, and `complete`, which moves
 * the page and its requests onto the browser's navigation clock, totals the
 * received bytes, fixes the duration and clusters the requests into groups.
 */
module Pages {
  import opened Wrappers
  import opened Py
  import opened Timelines
  import opened Requests
  import opened RequestGroups

  /** The long-poll url patterns a page uses when it is given none. */
  const DefaultLongPolls: seq<string> :=
    ["notifications?channel=", "notifications/channel", "/gelf", "/api/subscriptions"]

  // ---------------------------------------------------------------------------
  // The request table, by value

  predicate UniqueIds(rs: seq<PageRequest>) {
    forall i, j :: 0 <= i < j < |rs| ==> rs[i].id != rs[j].id
  }

  /** Position of the request with this id, or -1. */
  function IndexOfId(rs: seq<PageRequest>, id: int): (k: int)
    ensures -1 <= k < |rs|
    ensures k >= 0 ==> rs[k].id == id && forall j :: 0 <= j < k ==> rs[j].id != id
    ensures k == -1 ==> forall j :: 0 <= j < |rs| ==> rs[j].id != id
  {
    if rs == [] then -1
    else if rs[0].id == id then 0
    else
      var k := IndexOfId(rs[1..], id);
      if k < 0 then -1 else k + 1
  }

  /** `get_request(id)`, i.e. the lookup in `_id2request`. */
  function Lookup(rs: seq<PageRequest>, id: int): (r: Option<PageRequest>)
    ensures r.Some? <==> exists k :: 0 <= k < |rs| && rs[k].id == id
    ensures r.Some? ==> r.value.id == id && r.value in rs
  {
    var k := IndexOfId(rs, id);
    if k < 0 then None else Some(rs[k])
  }

  /** The list after `add_request(req)`: replace the entry with the same id in place, or append. */
  function AddedTo(rs: seq<PageRequest>, req: PageRequest): seq<PageRequest> {
    var k := IndexOfId(rs, req.id);
    if k >= 0 then rs[k := req] else rs + [req]
  }

  /** The list after `del_request(req)`: drop the entry with that id, if any. */
  function RemovedFrom(rs: seq<PageRequest>, id: int): seq<PageRequest> {
    var k := IndexOfId(rs, id);
    if k >= 0 then rs[..k] + rs[k + 1..] else rs
  }

  /**
   * Adding keeps ids unique, makes `req` the answer for its id, leaves every other
   * id's answer alone, keeps the length on a replacement and grows it by one otherwise.
   */
  lemma AddedToSpec(rs: seq<PageRequest>, req: PageRequest)
    requires UniqueIds(rs)
    ensures UniqueIds(AddedTo(rs, req))
    ensures Lookup(AddedTo(rs, req), req.id) == Some(req)
    ensures forall id :: id != req.id ==> Lookup(AddedTo(rs, req), id) == Lookup(rs, id)
    ensures |AddedTo(rs, req)| == if Lookup(rs, req.id).Some? then |rs| else |rs| + 1
    ensures Lookup(rs, req.id).Some? ==> AddedTo(rs, req)[IndexOfId(rs, req.id)] == req
  {
    var k := IndexOfId(rs, req.id);
    var a := AddedTo(rs, req);
    forall id | id != req.id ensures Lookup(a, id) == Lookup(rs, id) {
      var ka := IndexOfId(a, id);
      var kr := IndexOfId(rs, id);
      if kr >= 0 {
        assert a[kr].id == id;
        assert ka == kr;
      } else {
        assert ka == -1;
      }
    }
    var ka := IndexOfId(a, req.id);
    if k >= 0 {
      assert a[k] == req;
      assert ka == k;
    } else {
      assert a[|rs|] == req;
      assert ka == |rs|;
    }
  }

  /** Deleting removes exactly the entry with that id and keeps the others and their order. */
  lemma RemovedFromSpec(rs: seq<PageRequest>, id: int)
    requires UniqueIds(rs)
    ensures UniqueIds(RemovedFrom(rs, id))
    ensures Lookup(RemovedFrom(rs, id), id) == None
    ensures forall other :: other != id ==> Lookup(RemovedFrom(rs, id), other) == Lookup(rs, other)
    ensures |RemovedFrom(rs, id)| == if Lookup(rs, id).Some? then |rs| - 1 else |rs|
  {
    var k := IndexOfId(rs, id);
    var d := RemovedFrom(rs, id);
    if k >= 0 {
      assert forall j :: 0 <= j < |d| ==> d[j] == if j < k then rs[j] else rs[j + 1];
      forall other | other != id ensures Lookup(d, other) == Lookup(rs, other) {
        var kd := IndexOfId(d, other);
        var kr := IndexOfId(rs, other);
        if kr >= 0 {
          assert kr != k;
          if kr < k {
            assert d[kr].id == other;
            assert kd == kr;
          } else {
            assert d[kr - 1].id == other;
            assert kd == kr - 1;
          }
        } else {
          assert kd == -1;
        }
      }
    }
  }

  // ---------------------------------------------------------------------------
  // Activity window

  /** `ts_start` after `process_activity(name, ts)`: 0 (unset) or a later start is replaced. */
  function ActivityStart(start: int, ts: int): int {
    if start == 0 || start > ts then ts else start
  }

  /** `ts_end` after `process_activity(name, ts)`. */
  function ActivityEnd(end: int, ts: int): int {
    if end == 0 || end < ts then ts else end
  }

  /** The window after a series of `process_activity` calls. */
  function ActivityWindow(start: int, end: int, stamps: seq<int>): (w: (int, int))
    ensures w.0 == start || w.0 in stamps
    ensures w.1 == end || w.1 in stamps
    decreases |stamps|
  {
    if stamps == [] then (start, end)
    else ActivityWindow(ActivityStart(start, stamps[0]), ActivityEnd(end, stamps[0]), stamps[1..])
  }

  /**
   * From an unset window, a series of non-zero timestamps leaves the window at
   * exactly their minimum and maximum.
   */
  lemma {:induction false} ActivityWindowIsMinMax(start: int, end: int, stamps: seq<int>)
    requires forall k :: 0 <= k < |stamps| ==> stamps[k] != 0
    requires (start == 0) == (end == 0)
    requires start != 0 ==> start <= end
    requires |stamps| > 0 || start != 0
    ensures var w := ActivityWindow(start, end, stamps);
            && (forall k :: 0 <= k < |stamps| ==> w.0 <= stamps[k] <= w.1)
            && (start != 0 ==> w.0 <= start && end <= w.1)
            && (w.0 == start || exists k :: 0 <= k < |stamps| && w.0 == stamps[k])
            && (w.1 == end || exists k :: 0 <= k < |stamps| && w.1 == stamps[k])
    ensures var w := ActivityWindow(start, end, stamps);
            start == 0 ==> exists k :: 0 <= k < |stamps| && w.0 == stamps[k]
    ensures var w := ActivityWindow(start, end, stamps);
            start == 0 ==> exists k :: 0 <= k < |stamps| && w.1 == stamps[k]
    decreases |stamps|
  {
    if stamps != [] {
      var s1, e1 := ActivityStart(start, stamps[0]), ActivityEnd(end, stamps[0]);
      if |stamps| > 1 {
        ActivityWindowIsMinMax(s1, e1, stamps[1..]);
        var w := ActivityWindow(s1, e1, stamps[1..]);
        forall k | 0 <= k < |stamps| ensures w.0 <= stamps[k] <= w.1 {
          if k > 0 { assert stamps[k] == stamps[1..][k - 1]; }
        }
        if w.0 != s1 {
          var j :| 0 <= j < |stamps[1..]| && w.0 == stamps[1..][j];
          assert w.0 == stamps[j + 1];
        }
        if w.1 != e1 {
          var j :| 0 <= j < |stamps[1..]| && w.1 == stamps[1..][j];
          assert w.1 == stamps[j + 1];
        }
      }
    }
  }

  // ---------------------------------------------------------------------------
  // The pieces of `complete`, by value

  /** `max(ends)` over the requests' end times (unset ends count as 0). */
  function MaxEnd(rs: seq<PageRequest>): (m: int)
    requires |rs| > 0
    ensures forall k :: 0 <= k < |rs| ==> rs[k].tsEnd <= m
    ensures exists k :: 0 <= k < |rs| && rs[k].tsEnd == m
  {
    if |rs| == 1 then rs[0].tsEnd
    else
      var m := MaxEnd(rs[1..]);
      assert forall k :: 1 <= k < |rs| ==> rs[k] == rs[1..][k - 1];
      Max(rs[0].tsEnd, m)
  }

  /** The page end that `complete` starts from: an unset end is derived from the requests. */
  function EndAtCompletion(tsEnd: int, rs: seq<PageRequest>, tl: Timeline): int {
    if tsEnd != 0 then tsEnd
    else if |rs| > 0 then MaxEnd(rs)
    else Value(tl, AjaxEnd)
  }

  /**
   * One request moved onto the browser clock by `offt`: the start always moves; a
   * long poll keeps its end; a request without an end gets the "timeout" status;
   * any other end moves by the same offset.
   */
  function ShiftRequest(r: PageRequest, offt: int, longpolls: seq<string>): (s: PageRequest)
    ensures s.id == r.id && s.url == r.url && s.cached == r.cached
    ensures s.tsStart == r.tsStart + offt
    ensures s.longpoll == IsLongPoll(r, longpolls)
    ensures s.longpoll ==> s.tsEnd == r.tsEnd && s.status == r.status
    ensures !s.longpoll && r.tsEnd == 0 ==> s.tsEnd == 0 && s.status == Timeout
    ensures !s.longpoll && r.tsEnd != 0 ==> s.tsEnd == r.tsEnd + offt && s.status == r.status
  {
    var m := MarkLongPoll(r.(tsStart := r.tsStart + offt), longpolls);
    if m.longpoll then m
    else if m.tsEnd == 0 then m.(status := Timeout)
    else m.(tsEnd := m.tsEnd + offt)
  }

  function ShiftRequests(rs: seq<PageRequest>, offt: int, longpolls: seq<string>): (s: seq<PageRequest>)
    ensures |s| == |rs|
    ensures forall k :: 0 <= k < |rs| ==> s[k] == ShiftRequest(rs[k], offt, longpolls)
    ensures UniqueIds(rs) ==> UniqueIds(s)
  {
    seq(|rs|, k requires 0 <= k < |rs| => ShiftRequest(rs[k], offt, longpolls))
  }

  /** A non-zero `content_length` becomes the request's `length`. */
  function FillLength(r: PageRequest): (s: PageRequest)
    ensures s.length == if r.contentLength != 0 then r.contentLength else r.length
    ensures s.(length := r.length) == r
  {
    if r.contentLength != 0 then r.(length := r.contentLength) else r
  }

  function FillLengths(rs: seq<PageRequest>): (s: seq<PageRequest>)
    ensures |s| == |rs|
    ensures forall k :: 0 <= k < |rs| ==> s[k] == FillLength(rs[k])
    ensures UniqueIds(rs) ==> UniqueIds(s)
  {
    seq(|rs|, k requires 0 <= k < |rs| => FillLength(rs[k]))
  }

  function MarkLongPolls(rs: seq<PageRequest>, longpolls: seq<string>): (s: seq<PageRequest>)
    ensures |s| == |rs|
    ensures forall k :: 0 <= k < |rs| ==> s[k] == MarkLongPoll(rs[k], longpolls)
    ensures UniqueIds(rs) ==> UniqueIds(s)
  {
    seq(|rs|, k requires 0 <= k < |rs| => MarkLongPoll(rs[k], longpolls))
  }

  /** Sum of `length` over the uncached requests. */
  function UncachedLength(rs: seq<PageRequest>): int {
    if rs == [] then 0
    else (if rs[0].cached then 0 else rs[0].length) + UncachedLength(rs[1..])
  }

  lemma {:induction false} UncachedLengthAppend(rs: seq<PageRequest>, r: PageRequest)
    ensures UncachedLength(rs + [r]) == UncachedLength(rs) + (if r.cached then 0 else r.length)
  {
    if rs != [] {
      assert (rs + [r])[1..] == rs[1..] + [r];
      UncachedLengthAppend(rs[1..], r);
    }
  }

  /** Cached requests contribute nothing: the total only sees the uncached list. */
  lemma {:induction false} UncachedLengthOnlyUncached(rs: seq<PageRequest>)
    ensures UncachedLength(rs) == UncachedLength(Uncached(rs))
  {
    if rs != [] {
      UncachedLengthOnlyUncached(rs[1..]);
      if !rs[0].cached {
        assert ([rs[0]] + Uncached(rs[1..]))[1..] == Uncached(rs[1..]);
      }
    }
  }

  lemma {:induction false} MarkKeepsUncachedLength(rs: seq<PageRequest>, longpolls: seq<string>)
    ensures UncachedLength(MarkLongPolls(rs, longpolls)) == UncachedLength(rs)
  {
    if rs != [] {
      assert MarkLongPolls(rs, longpolls)[1..] == MarkLongPolls(rs[1..], longpolls);
      MarkKeepsUncachedLength(rs[1..], longpolls);
    }
  }

  /**
   * The requests whose (already updated) long-poll flag is clear, in order: each
   * such request as often as in `rs`, no long poll.
   */
  function NonLongPoll(rs: seq<PageRequest>): (s: seq<PageRequest>)
    ensures |s| <= |rs|
    ensures forall r :: multiset(s)[r] == if r.longpoll then 0 else multiset(rs)[r]
    ensures forall r :: r in s <==> r in rs && !r.longpoll
    ensures multiset(s) <= multiset(rs)
  {
    if rs == [] then []
    else
      assert rs == [rs[0]] + rs[1..];
      if rs[0].longpoll then NonLongPoll(rs[1..])
      else [rs[0]] + NonLongPoll(rs[1..])
  }

  /** The filter distributes over concatenation, so the order of `rs` is kept. */
  lemma {:induction false} NonLongPollAppend(a: seq<PageRequest>, b: seq<PageRequest>)
    ensures NonLongPoll(a + b) == NonLongPoll(a) + NonLongPoll(b)
  {
    if a == [] {
      assert a + b == b;
    } else {
      var x, t := a[0], a[1..];
      var h := if x.longpoll then [] else [x];
      HeadSplit(a, b);
      calc {
        NonLongPoll(a + b);
        { NonLongPollCons(x, t + b); }
        h + NonLongPoll(t + b);
        { NonLongPollAppend(t, b); }
        h + (NonLongPoll(t) + NonLongPoll(b));
        { Assoc(h, NonLongPoll(t), NonLongPoll(b)); }
        (h + NonLongPoll(t)) + NonLongPoll(b);
        { NonLongPollCons(x, t); }
        NonLongPoll(a) + NonLongPoll(b);
      }
    }
  }

  lemma NonLongPollCons(x: PageRequest, t: seq<PageRequest>)
    ensures NonLongPoll([x] + t) == (if x.longpoll then [] else [x]) + NonLongPoll(t)
  {
    assert ([x] + t)[0] == x && ([x] + t)[1..] == t;
  }

  predicate SortedByStart(s: seq<PageRequest>) {
    forall i, j :: 0 <= i < j < |s| ==> s[i].tsStart <= s[j].tsStart
  }

  /** A request no later than the head of a sorted list can go in front of it. */
  lemma SortedCons(x: PageRequest, s: seq<PageRequest>)
    requires SortedByStart(s)
    requires s == [] || x.tsStart <= s[0].tsStart
    ensures SortedByStart([x] + s)
  {
    forall i, j | 0 <= i < j < |s| + 1 ensures ([x] + s)[i].tsStart <= ([x] + s)[j].tsStart {
      if i > 0 { assert ([x] + s)[i] == s[i - 1]; }
      assert ([x] + s)[j] == s[j - 1];
    }
  }

  /** Insert r in front of the first element that does not start earlier. */
  function InsertByStart(r: PageRequest, s: seq<PageRequest>): (t: seq<PageRequest>)
    requires SortedByStart(s)
    ensures SortedByStart(t)
    ensures multiset(t) == multiset(s) + multiset{r}
    ensures |t| == |s| + 1
    ensures t[0] == r || (|s| > 0 && t[0] == s[0])
  {
    if s == [] then [r]
    else if r.tsStart <= s[0].tsStart then
      SortedCons(r, s);
      [r] + s
    else
      var rest := InsertByStart(r, s[1..]);
      assert s == [s[0]] + s[1..];
      assert |s| > 1 ==> s[0].tsStart <= s[1].tsStart;
      SortedCons(s[0], rest);
      [s[0]] + rest
  }

  /** Python's `sorted(rs, key=lambda x: x.ts_start)`; `SortByStartStable` shows it is stable. */
  function SortByStart(rs: seq<PageRequest>): (s: seq<PageRequest>)
    ensures SortedByStart(s)
    ensures multiset(s) == multiset(rs)
    ensures |s| == |rs|
  {
    if rs == [] then []
    else
      assert rs == [rs[0]] + rs[1..];
      InsertByStart(rs[0], SortByStart(rs[1..]))
  }

  /** The requests that start at t, in list order. */
  function StartingAt(rs: seq<PageRequest>, t: int): seq<PageRequest> {
    if rs == [] then [] else (if rs[0].tsStart == t then [rs[0]] else []) + StartingAt(rs[1..], t)
  }

  /** Inserting r puts it in front of every request with the same start. */
  lemma {:induction false} InsertByStartStable(r: PageRequest, s: seq<PageRequest>, t: int)
    requires SortedByStart(s)
    ensures StartingAt(InsertByStart(r, s), t) == (if r.tsStart == t then [r] else []) + StartingAt(s, t)
  {
    var u := InsertByStart(r, s);
    if s == [] {
      assert u[1..] == [];
    } else if r.tsStart <= s[0].tsStart {
      assert u[1..] == s;
    } else {
      assert SortedByStart(s[1..]) by {
        forall i, j | 0 <= i < j < |s| - 1 ensures s[1..][i].tsStart <= s[1..][j].tsStart {
          assert s[1..][i] == s[i + 1] && s[1..][j] == s[j + 1];
        }
      }
      var rest := InsertByStart(r, s[1..]);
      assert u == [s[0]] + rest && u[1..] == rest;
      InsertByStartStable(r, s[1..], t);
      var head := if s[0].tsStart == t then [s[0]] else [];
      var mine := if r.tsStart == t then [r] else [];
      assert head == [] || mine == [];
      calc {
        StartingAt(u, t);
        head + StartingAt(rest, t);
        head + (mine + StartingAt(s[1..], t));
        { SwapEmpty(head, mine, StartingAt(s[1..], t)); }
        mine + (head + StartingAt(s[1..], t));
        mine + StartingAt(s, t);
      }
    }
  }

  /**
   * The sort is stable: the requests with any one start come out in the
   * order they went in.
   */
  lemma {:induction false} SortByStartStable(rs: seq<PageRequest>, t: int)
    ensures StartingAt(SortByStart(rs), t) == StartingAt(rs, t)
  {
    if rs != [] {
      SortByStartStable(rs[1..], t);
      InsertByStartStable(rs[0], SortByStart(rs[1..]), t);
    }
  }

  /** Concatenated `data` of the requests to the page's own url. */
  function PageData(rs: seq<PageRequest>, url: string): (d: string)
    ensures (forall k :: 0 <= k < |rs| ==> rs[k].url != url) ==> d == ""
  {
    if rs == [] then "" else (if rs[0].url == url then rs[0].data else "") + PageData(rs[1..], url)
  }

  lemma {:induction false} PageDataAppend(rs: seq<PageRequest>, r: PageRequest, url: string)
    ensures PageData(rs + [r], url) == PageData(rs, url) + (if r.url == url then r.data else "")
  {
    if rs != [] {
      assert (rs + [r])[1..] == rs[1..] + [r];
      PageDataAppend(rs[1..], r, url);
    }
  }

  /**
   * The requests without an end that are not long polls (`get_incomplete_reqs`),
   * in order: each such request as often as in `rs`.
   */
  function Incomplete(rs: seq<PageRequest>, longpolls: seq<string>): (s: seq<PageRequest>)
    ensures forall r :: multiset(s)[r] == if !r.completed && !IsLongPoll(r, longpolls) then multiset(rs)[r] else 0
    ensures forall r :: r in s <==> r in rs && !r.completed && !IsLongPoll(r, longpolls)
  {
    if rs == [] then []
    else
      assert rs == [rs[0]] + rs[1..];
      if !rs[0].completed && !IsLongPoll(rs[0], longpolls) then [rs[0]] + Incomplete(rs[1..], longpolls)
      else Incomplete(rs[1..], longpolls)
  }

  /** The filter distributes over concatenation, so the order of `rs` is kept. */
  lemma {:induction false} IncompleteAppend(a: seq<PageRequest>, b: seq<PageRequest>, longpolls: seq<string>)
    ensures Incomplete(a + b, longpolls) == Incomplete(a, longpolls) + Incomplete(b, longpolls)
  {
    if a == [] {
      assert a + b == b;
    } else {
      var x, t := a[0], a[1..];
      var h := if !x.completed && !IsLongPoll(x, longpolls) then [x] else [];
      HeadSplit(a, b);
      calc {
        Incomplete(a + b, longpolls);
        { IncompleteCons(x, t + b, longpolls); }
        h + Incomplete(t + b, longpolls);
        { IncompleteAppend(t, b, longpolls); }
        h + (Incomplete(t, longpolls) + Incomplete(b, longpolls));
        { Assoc(h, Incomplete(t, longpolls), Incomplete(b, longpolls)); }
        (h + Incomplete(t, longpolls)) + Incomplete(b, longpolls);
        { IncompleteCons(x, t, longpolls); }
        Incomplete(a, longpolls) + Incomplete(b, longpolls);
      }
    }
  }

  lemma IncompleteCons(x: PageRequest, t: seq<PageRequest>, longpolls: seq<string>)
    ensures Incomplete([x] + t, longpolls) ==
      (if !x.completed && !IsLongPoll(x, longpolls) then [x] else []) + Incomplete(t, longpolls)
  {
    assert ([x] + t)[0] == x && ([x] + t)[1..] == t;
  }

  /** The requests whose `is_oK` is false, in order: each as often as in `rs`. */
  function ErrorRequests(rs: seq<PageRequest>): (s: seq<PageRequest>)
    ensures forall r :: multiset(s)[r] == if IsOK(r) then 0 else multiset(rs)[r]
    ensures forall r :: r in s <==> r in rs && !IsOK(r)
  {
    if rs == [] then []
    else
      assert rs == [rs[0]] + rs[1..];
      if !IsOK(rs[0]) then [rs[0]] + ErrorRequests(rs[1..])
      else ErrorRequests(rs[1..])
  }

  /** The filter distributes over concatenation, so the order of `rs` is kept. */
  lemma {:induction false} ErrorRequestsAppend(a: seq<PageRequest>, b: seq<PageRequest>)
    ensures ErrorRequests(a + b) == ErrorRequests(a) + ErrorRequests(b)
  {
    if a == [] {
      assert a + b == b;
    } else {
      var x, t := a[0], a[1..];
      var h := if IsOK(x) then [] else [x];
      HeadSplit(a, b);
      calc {
        ErrorRequests(a + b);
        { ErrorRequestsCons(x, t + b); }
        h + ErrorRequests(t + b);
        { ErrorRequestsAppend(t, b); }
        h + (ErrorRequests(t) + ErrorRequests(b));
        { Assoc(h, ErrorRequests(t), ErrorRequests(b)); }
        (h + ErrorRequests(t)) + ErrorRequests(b);
        { ErrorRequestsCons(x, t); }
        ErrorRequests(a) + ErrorRequests(b);
      }
    }
  }

  lemma ErrorRequestsCons(x: PageRequest, t: seq<PageRequest>)
    ensures ErrorRequests([x] + t) == (if IsOK(x) then [] else [x]) + ErrorRequests(t)
  {
    assert ([x] + t)[0] == x && ([x] + t)[1..] == t;
  }

  function Urls(rs: seq<PageRequest>): (u: seq<string>)
    ensures |u| == |rs|
    ensures forall k :: 0 <= k < |rs| ==> u[k] == rs[k].url
  {
    if rs == [] then [] else [rs[0].url] + Urls(rs[1..])
  }

  predicate Distinct(s: seq<string>) {
    forall i, j :: 0 <= i < j < |s| ==> s[i] != s[j]
  }

  function SetOf(s: seq<string>): set<string> {
    set x | x in s
  }

  /** A list has no more distinct elements than entries, exactly as many iff it has no repeats. */
  lemma {:induction false} SetOfCard(s: seq<string>)
    ensures |SetOf(s)| <= |s|
    ensures |SetOf(s)| == |s| <==> Distinct(s)
  {
    if s != [] {
      var t := s[1..];
      SetOfCard(t);
      assert SetOf(s) == SetOf(t) + {s[0]};
      if s[0] in t {
        assert SetOf(s) == SetOf(t);
        var j :| 0 <= j < |t| && t[j] == s[0];
        assert s[0] == s[j + 1];
      } else {
        assert |SetOf(s)| == |SetOf(t)| + 1;
        if Distinct(t) {
          forall i, j | 0 <= i < j < |s| ensures s[i] != s[j] {
            if i > 0 { assert s[i] == t[i - 1] && s[j] == t[j - 1]; }
            else { assert s[j] == t[j - 1]; }
          }
        }
        if Distinct(s) {
          forall i, j | 0 <= i < j < |t| ensures t[i] != t[j] {
            assert t[i] == s[i + 1] && t[j] == s[j + 1];
          }
        }
      }
    }
  }

  /** The positions whose url already occurred earlier in the list. */
  function Repeats(urls: seq<string>): set<int> {
    set k | 0 <= k < |urls| && urls[k] in urls[..k]
  }

  /** Every entry is either the first occurrence of a distinct url or a repeat. */
  lemma {:induction false} RepeatsCount(urls: seq<string>)
    ensures |urls| == |SetOf(urls)| + |Repeats(urls)|
  {
    if urls != [] {
      var init := urls[..|urls| - 1];
      var x := urls[|urls| - 1];
      RepeatsCount(init);
      assert urls == init + [x];
      SetOfSnoc(init, x);
      RepeatsSnoc(init, x);
      if x in init {
        assert x in SetOf(init);
        assert SetOf(urls) == SetOf(init);
        assert Repeats(urls) == Repeats(init) + {|init|};
        assert |Repeats(urls)| == |Repeats(init)| + 1;
      } else {
        assert x !in SetOf(init);
        assert |SetOf(urls)| == |SetOf(init)| + 1;
        assert Repeats(urls) == Repeats(init);
      }
    }
  }

  lemma SetOfSnoc(s: seq<string>, x: string)
    ensures SetOf(s + [x]) == SetOf(s) + {x}
  {
  }

  /** The new last entry is a repeat exactly when its url occurred before. */
  lemma RepeatsSnoc(s: seq<string>, x: string)
    ensures Repeats(s + [x]) == Repeats(s) + (if x in s then {|s|} else {})
    ensures |s| !in Repeats(s)
  {
    var t := s + [x];
    assert t[..|s|] == s;
    forall k | 0 <= k < |s| ensures t[k] == s[k] && t[..k] == s[..k] {}
  }

  /**
   * `len(urls) - len(set(urls))`: the number of entries whose url occurred
   * earlier in the list, so zero iff no url repeats.
   */
  function RepeatedCount(urls: seq<string>): (n: int)
    ensures n == |set k | 0 <= k < |urls| && urls[k] in urls[..k]|
    ensures n >= 0
    ensures n == 0 <==> Distinct(urls)
  {
    SetOfCard(urls);
    RepeatsCount(urls);
    |urls| - |SetOf(urls)|
  }

  // ---------------------------------------------------------------------------
  // `complete`, as a function of the page fields it reads and writes

  datatype PageState = PageState(
    tsStart: int, tsEnd: int, ramUsageKb: int, timeline: Timeline,
    requests: seq<PageRequest>, length: int, dur: int, data: string)

  /** The clock offset `complete` applies (0 when it does not align). */
  function Offset(st: PageState, realNavigation: bool, browserTimeline: Timeline): int {
    var nav := Value(browserTimeline, NavStrt);
    if realNavigation && nav != 0 then ClockOffset(nav, st.tsStart, st.requests) else 0
  }

  /** The offset that moves a page start onto `nav`; a page without requests is not moved. */
  function ClockOffset(nav: int, tsStart: int, requests: seq<PageRequest>): (offt: int)
    ensures |requests| > 0 ==> tsStart + offt == nav
    ensures |requests| == 0 ==> offt == 0
  {
    if |requests| > 0 then nav - tsStart else 0
  }

  /**
   * The fields after moving the page onto a clock whose navigation started at
   * `nav`: the page starts at `nav`, and its end and its requests move by the
   * offset (none for a page without requests).
   */
  function Moved(st: PageState, nav: int, longpolls: seq<string>): (m: PageState)
    ensures m.tsStart == nav
    ensures |st.requests| > 0 ==> m.tsEnd - m.tsStart == st.tsEnd - st.tsStart
    ensures |st.requests| == 0 ==> m.tsEnd == st.tsEnd && m.requests == st.requests
    ensures |m.requests| == |st.requests|
    ensures m.(tsStart := st.tsStart, tsEnd := st.tsEnd, requests := st.requests) == st
  {
    var offt := ClockOffset(nav, st.tsStart, st.requests);
    st.(tsStart := nav, tsEnd := st.tsEnd + offt, requests := ShiftRequests(st.requests, offt, longpolls))
  }

  /**
   * The fields after the alignment step: an unset end is derived, the RAM usage
   * and (on a real navigation) the timeline come from the browser, and on a real
   * navigation with a known navigation start the page moves onto the browser clock.
   */
  function Aligned(st: PageState, realNavigation: bool, longpolls: seq<string>, ramKb: int,
                   browserTimeline: Timeline): (a: PageState)
    ensures a.ramUsageKb == ramKb
    ensures a.timeline == if realNavigation then browserTimeline else st.timeline
    ensures a.length == st.length && a.dur == st.dur && a.data == st.data
    ensures |a.requests| == |st.requests|
    ensures !realNavigation || Value(browserTimeline, NavStrt) == 0 ==>
              a.tsStart == st.tsStart && a.requests == st.requests
  {
    var settled := st.(tsEnd := EndAtCompletion(st.tsEnd, st.requests, st.timeline), ramUsageKb := ramKb);
    if !realNavigation then settled
    else
      var nav := Value(browserTimeline, NavStrt);
      var followed := settled.(timeline := browserTimeline);
      if nav != 0 then Moved(followed, nav, longpolls) else followed
  }

  /**
   * The fields after the request step: lengths filled, long-poll flags updated,
   * the uncached total, the duration, and the page data.
   */
  function Finished(st: PageState, longpolls: seq<string>, url: string): (f: PageState)
    ensures f.tsStart == st.tsStart && f.tsEnd == st.tsEnd
    ensures f.ramUsageKb == st.ramUsageKb && f.timeline == st.timeline
    ensures |f.requests| == |st.requests|
    ensures f.dur >= f.tsEnd - f.tsStart && f.dur >= f.timeline.totalDur
    ensures StartsWith(f.data, st.data)
  {
    var rs := MarkLongPolls(FillLengths(st.requests), longpolls);
    st.(requests := rs, length := UncachedLength(rs),
        dur := Max(st.tsEnd - st.tsStart, st.timeline.totalDur),
        data := st.data + PageData(rs, url))
  }

  /** The page fields after `complete(browser)`. */
  function Completed(st: PageState, realNavigation: bool, longpolls: seq<string>, url: string,
                     ramKb: int, browserTimeline: Timeline): (c: PageState)
    ensures c.ramUsageKb == ramKb
    ensures c.timeline == if realNavigation then browserTimeline else st.timeline
    ensures |c.requests| == |st.requests|
    ensures StartsWith(c.data, st.data)
  {
    Finished(Aligned(st, realNavigation, longpolls, ramKb, browserTimeline), longpolls, url)
  }

  /** The page duration covers both the page window and the timeline's total. */
  lemma CompletedDuration(st: PageState, realNavigation: bool, longpolls: seq<string>, url: string,
                          ramKb: int, tl: Timeline)
    ensures var c := Completed(st, realNavigation, longpolls, url, ramKb, tl);
            && c.dur >= c.tsEnd - c.tsStart
            && c.dur >= c.timeline.totalDur
            && (c.dur == c.tsEnd - c.tsStart || c.dur == c.timeline.totalDur)
  {
  }

  /**
   * Completion keeps the request list itself: the same requests, in the same
   * order, with the same ids, urls and cache flags, so unique ids stay unique.
   */
  lemma CompletedKeepsRequests(st: PageState, realNavigation: bool, longpolls: seq<string>, url: string,
                               ramKb: int, tl: Timeline)
    ensures var c := Completed(st, realNavigation, longpolls, url, ramKb, tl);
            && |c.requests| == |st.requests|
            && (forall k :: 0 <= k < |st.requests| ==>
                  && c.requests[k].id == st.requests[k].id
                  && c.requests[k].url == st.requests[k].url
                  && c.requests[k].cached == st.requests[k].cached)
            && (UniqueIds(st.requests) ==> UniqueIds(c.requests))
  {
    var c := Completed(st, realNavigation, longpolls, url, ramKb, tl);
    var a := Aligned(st, realNavigation, longpolls, ramKb, tl);
    forall k | 0 <= k < |st.requests|
      ensures c.requests[k].id == st.requests[k].id
      ensures c.requests[k].url == st.requests[k].url
      ensures c.requests[k].cached == st.requests[k].cached
    {
      assert c.requests[k] == MarkLongPoll(FillLength(a.requests[k]), longpolls);
    }
  }

  /**
   * After completion every request's length is filled from a known content
   * length, and the page length is the total over the uncached requests only.
   */
  lemma CompletedLength(st: PageState, realNavigation: bool, longpolls: seq<string>, url: string,
                        ramKb: int, tl: Timeline)
    ensures var c := Completed(st, realNavigation, longpolls, url, ramKb, tl);
            && (forall k :: 0 <= k < |c.requests| && c.requests[k].contentLength != 0 ==>
                  c.requests[k].length == c.requests[k].contentLength)
            && c.length == UncachedLength(Uncached(c.requests))
  {
    var c := Completed(st, realNavigation, longpolls, url, ramKb, tl);
    var a := Aligned(st, realNavigation, longpolls, ramKb, tl);
    forall k | 0 <= k < |c.requests| && c.requests[k].contentLength != 0
      ensures c.requests[k].length == c.requests[k].contentLength
    {
      assert c.requests[k] == MarkLongPoll(FillLength(a.requests[k]), longpolls);
    }
    UncachedLengthOnlyUncached(c.requests);
  }

  /**
   * On a real navigation with a known navigation start, the page starts at the
   * navigation start and keeps its requests where they were relative to it (when it
   * has requests): every start moves, and so does the end of a non-long-poll request
   * that ended. A non-long-poll request that never ended is marked as a timeout, and
   * a long poll keeps its end as it was.
   */
  lemma CompletedOnBrowserClock(st: PageState, realNavigation: bool, longpolls: seq<string>, url: string,
                                ramKb: int, tl: Timeline)
    requires realNavigation && Value(tl, NavStrt) != 0
    ensures var c := Completed(st, realNavigation, longpolls, url, ramKb, tl);
            && c.tsStart == Value(tl, NavStrt)
            && c.timeline == tl
            && (|st.requests| > 0 ==> c.tsEnd - c.tsStart == EndAtCompletion(st.tsEnd, st.requests, st.timeline) - st.tsStart)
            && (forall k :: 0 <= k < |st.requests| && |st.requests| > 0 ==>
                  c.requests[k].tsStart - c.tsStart == st.requests[k].tsStart - st.tsStart)
            && (forall k :: 0 <= k < |st.requests| && !c.requests[k].longpoll && st.requests[k].tsEnd == 0 ==>
                  c.requests[k].status == Timeout)
            && (forall k :: 0 <= k < |st.requests| && !c.requests[k].longpoll && st.requests[k].tsEnd != 0 ==>
                  c.requests[k].tsEnd - c.tsStart == st.requests[k].tsEnd - st.tsStart)
            && (forall k :: 0 <= k < |st.requests| && c.requests[k].longpoll ==>
                  c.requests[k].tsEnd == st.requests[k].tsEnd)
  {
    var c := Completed(st, realNavigation, longpolls, url, ramKb, tl);
    var a := Aligned(st, realNavigation, longpolls, ramKb, tl);
    forall k | 0 <= k < |st.requests|
      ensures c.requests[k].tsStart == a.requests[k].tsStart
      ensures c.requests[k].tsEnd == a.requests[k].tsEnd
      ensures c.requests[k].status == a.requests[k].status
      ensures c.requests[k].longpoll == a.requests[k].longpoll
    {
      assert c.requests[k] == MarkLongPoll(FillLength(a.requests[k]), longpolls);
      assert a.requests[k] == ShiftRequest(st.requests[k], ClockOffset(Value(tl, NavStrt), st.tsStart, st.requests), longpolls);
    }
  }

  /**
   * Without a real navigation, or without a navigation start, completion moves
   * nothing: the page start and every request's start and end stay as they were.
   */
  lemma CompletedInPlace(st: PageState, realNavigation: bool, longpolls: seq<string>, url: string,
                         ramKb: int, tl: Timeline)
    requires !realNavigation || Value(tl, NavStrt) == 0
    ensures var c := Completed(st, realNavigation, longpolls, url, ramKb, tl);
            && c.tsStart == st.tsStart
            && c.tsEnd == EndAtCompletion(st.tsEnd, st.requests, st.timeline)
            && forall k :: 0 <= k < |st.requests| ==>
                 c.requests[k].tsStart == st.requests[k].tsStart && c.requests[k].tsEnd == st.requests[k].tsEnd
  {
    var c := Completed(st, realNavigation, longpolls, url, ramKb, tl);
    forall k | 0 <= k < |st.requests|
      ensures c.requests[k].tsStart == st.requests[k].tsStart && c.requests[k].tsEnd == st.requests[k].tsEnd
    {
      assert c.requests[k] == MarkLongPoll(FillLength(st.requests[k]), longpolls);
    }
  }

  /**
   * When the page end was unset and the page has requests, the derived end covers
   * every request that ended and is not a long poll (long polls keep their own
   * clock and may run past the page).
   */
  lemma CompletedEndCoversRequests(st: PageState, realNavigation: bool, longpolls: seq<string>, url: string,
                                   ramKb: int, tl: Timeline)
    requires st.tsEnd == 0
    ensures var c := Completed(st, realNavigation, longpolls, url, ramKb, tl);
            forall k :: 0 <= k < |st.requests| && st.requests[k].tsEnd != 0 && !c.requests[k].longpoll ==>
              c.requests[k].tsEnd <= c.tsEnd
  {
    var c := Completed(st, realNavigation, longpolls, url, ramKb, tl);
    var a := Aligned(st, realNavigation, longpolls, ramKb, tl);
    forall k | 0 <= k < |st.requests| && st.requests[k].tsEnd != 0 && !c.requests[k].longpoll
      ensures c.requests[k].tsEnd <= c.tsEnd
    {
      assert c.requests[k] == MarkLongPoll(FillLength(a.requests[k]), longpolls);
      assert st.requests[k].tsEnd <= MaxEnd(st.requests);
    }
  }

  // ---------------------------------------------------------------------------
  // Grouping, on values

  /** One step of the grouping loop: r joins the last group if that group takes it, else opens a group. */
  function Place(vs: seq<GroupValue>, r: PageRequest): seq<GroupValue> {
    if vs != [] && Takes(vs[|vs| - 1], r) then vs[..|vs| - 1] + [Joined(vs[|vs| - 1], r)]
    else vs + [Opened(r, 10)]
  }

  /** The grouping loop over rs, continuing after the groups vs. */
  function PlaceAll(vs: seq<GroupValue>, rs: seq<PageRequest>): seq<GroupValue>
    decreases |rs|
  {
    if rs == [] then vs else Place(PlaceAll(vs, rs[..|rs| - 1]), rs[|rs| - 1])
  }

  /** The members of all groups, group after group. */
  function Members(vs: seq<GroupValue>): seq<PageRequest> {
    if vs == [] then [] else Members(vs[..|vs| - 1]) + vs[|vs| - 1].requests
  }

  /** The groups with their windows moved by `offt`. */
  function ShiftedGroups(vs: seq<GroupValue>, offt: int): seq<GroupValue> {
    seq(|vs|, i requires 0 <= i < |vs| => vs[i].(tsStart := vs[i].tsStart + offt, tsEnd := vs[i].tsEnd + offt))
  }

  lemma MembersSnoc(vs: seq<GroupValue>, g: GroupValue)
    ensures Members(vs + [g]) == Members(vs) + g.requests
  {
    assert (vs + [g])[..|vs|] == vs;
  }

  /** Moving the windows keeps every group's members. */
  lemma {:induction false} ShiftedMembers(vs: seq<GroupValue>, offt: int)
    ensures Members(ShiftedGroups(vs, offt)) == Members(vs)
    decreases |vs|
  {
    if vs != [] {
      var ws := ShiftedGroups(vs, offt);
      assert ws[..|ws| - 1] == ShiftedGroups(vs[..|vs| - 1], offt);
      ShiftedMembers(vs[..|vs| - 1], offt);
    }
  }

  /** One grouping step appends exactly r to the members. */
  lemma PlaceMembers(vs: seq<GroupValue>, r: PageRequest)
    ensures Members(Place(vs, r)) == Members(vs) + [r]
  {
    if vs != [] && Takes(vs[|vs| - 1], r) {
      var front := vs[..|vs| - 1];
      assert vs == front + [vs[|vs| - 1]];
      MembersSnoc(front, vs[|vs| - 1]);
      MembersSnoc(front, Joined(vs[|vs| - 1], r));
    } else {
      MembersSnoc(vs, Opened(r, 10));
    }
  }

  /** The grouping loop appends exactly rs, in order, to the members. */
  lemma {:induction false} PlaceAllMembers(vs: seq<GroupValue>, rs: seq<PageRequest>)
    ensures Members(PlaceAll(vs, rs)) == Members(vs) + rs
    decreases |rs|
  {
    if rs != [] {
      var init := rs[..|rs| - 1];
      PlaceAllMembers(vs, init);
      PlaceMembers(PlaceAll(vs, init), rs[|rs| - 1]);
      assert init + [rs[|rs| - 1]] == rs;
    }
  }

  /** The grouping loop never drops a group and touches none but the last one it started with. */
  lemma {:induction false} PlaceAllKeepsEarlier(vs: seq<GroupValue>, rs: seq<PageRequest>)
    ensures |vs| <= |PlaceAll(vs, rs)|
    ensures forall i :: 0 <= i < |vs| - 1 ==> PlaceAll(vs, rs)[i] == vs[i]
    decreases |rs|
  {
    if rs != [] {
      PlaceAllKeepsEarlier(vs, rs[..|rs| - 1]);
    }
  }

  /**
   * The request that opens h starts before g or later than the tolerance past
   * g's end: the group g refused it.
   */
  predicate Apart(g: GroupValue, h: GroupValue) {
    |h.requests| > 0 && (h.requests[0].tsStart < g.tsStart || h.requests[0].tsStart > g.tsEnd + g.thresholdMs)
  }

  /** A group as `complete` opens and grows it: spanning its members, with the default tolerance. */
  predicate DefaultSpans(g: GroupValue) {
    Spans(g) && g.thresholdMs == 10
  }

  /**
   * A grouping stated from its members alone: every group spans its members with
   * the default tolerance of 10 ms, and every group after the first opens with a
   * request the group before it refused.
   */
  predicate Greedy(vs: seq<GroupValue>) {
    && (forall i :: 0 <= i < |vs| ==> DefaultSpans(vs[i]))
    && (forall i :: 0 <= i < |vs| - 1 ==> Apart(vs[i], vs[i + 1]))
  }

  /** A grouping with one more group is greedy iff the shorter one is, the new group spans, and it opened apart. */
  lemma GreedySnoc(vs: seq<GroupValue>, g: GroupValue)
    ensures Greedy(vs + [g]) <==> Greedy(vs) && DefaultSpans(g) && (vs != [] ==> Apart(vs[|vs| - 1], g))
  {
    var ws := vs + [g];
    assert forall i :: 0 <= i < |vs| ==> ws[i] == vs[i];
    assert ws[|vs|] == g;
  }

  /** Joining the last group keeps a grouping of started requests greedy. */
  lemma JoinGreedy(vs: seq<GroupValue>, r: PageRequest)
    requires Greedy(vs) && Started([r]) && vs != [] && Takes(vs[|vs| - 1], r)
    ensures Greedy(vs[..|vs| - 1] + [Joined(vs[|vs| - 1], r)])
  {
    var front, last := vs[..|vs| - 1], vs[|vs| - 1];
    assert vs == front + [last];
    GreedySnoc(front, last);
    JoinedSpans(last, r);
    GreedySnoc(front, Joined(last, r));
  }

  /** Opening a group with a request the last group refused keeps a grouping of started requests greedy. */
  lemma OpenGreedy(vs: seq<GroupValue>, r: PageRequest)
    requires Greedy(vs) && Started([r]) && (vs == [] || !Takes(vs[|vs| - 1], r))
    ensures Greedy(vs + [Opened(r, 10)])
  {
    OpenedSpans(r, 10);
    if vs != [] {
      var last := vs[|vs| - 1];
      assert DefaultSpans(last);
      assert last.tsStart == last.requests[0].tsStart > 0;
    }
    GreedySnoc(vs, Opened(r, 10));
  }

  /** Grouping started requests from no groups gives a greedy grouping. */
  lemma {:induction false} GroupingIsGreedy(rs: seq<PageRequest>)
    requires Started(rs)
    ensures Greedy(PlaceAll([], rs))
    decreases |rs|
  {
    if rs != [] {
      var init, r := rs[..|rs| - 1], rs[|rs| - 1];
      GroupingIsGreedy(init);
      var vs := PlaceAll([], init);
      if vs != [] && Takes(vs[|vs| - 1], r) {
        JoinGreedy(vs, r);
      } else {
        OpenGreedy(vs, r);
      }
    }
  }

  /**
   * The converse: a greedy grouping is the one the grouping loop builds from its
   * members, so the groups, their members and their windows are determined by the
   * members in order.
   */
  lemma {:induction false} GreedyIsGrouping(vs: seq<GroupValue>, ms: seq<PageRequest>)
    requires Greedy(vs) && Members(vs) == ms
    ensures vs == PlaceAll([], ms)
    decreases |ms|
  {
    if vs != [] {
      var front, last := vs[..|vs| - 1], vs[|vs| - 1];
      assert vs == front + [last];
      GreedySnoc(front, last);
      MembersSnoc(front, last);
      if |last.requests| == 1 {
        GreedyIsGrouping(front, Members(front));
        if front != [] {
          GreedyLastStarted(front);
        }
        LastOpened(front, last, Members(front), ms);
      } else {
        var shorter := SpansSplit(last);
        GreedySnoc(front, shorter);
        MembersSnoc(front, shorter);
        var x := last.requests[|last.requests| - 1];
        assert last.requests == shorter.requests + [x];
        GreedyIsGrouping(front + [shorter], Members(front + [shorter]));
        LastJoined(front, last, shorter, Members(front + [shorter]), ms);
      }
    }
  }

  /** A greedy grouping whose last group has one member: that member opened it. */
  lemma LastOpened(front: seq<GroupValue>, last: GroupValue, before: seq<PageRequest>, ms: seq<PageRequest>)
    requires DefaultSpans(last) && |last.requests| == 1
    requires front != [] ==> front[|front| - 1].tsStart > 0 && Apart(front[|front| - 1], last)
    requires front == PlaceAll([], before)
    requires ms == before + last.requests
    ensures front + [last] == PlaceAll([], ms)
  {
    var x := last.requests[0];
    assert last.requests == [x];
    assert ms[..|ms| - 1] == before;
    assert last == Opened(x, 10);
  }

  /** A greedy grouping whose last group has more members: the last member joined it. */
  lemma LastJoined(front: seq<GroupValue>, last: GroupValue, shorter: GroupValue,
                   before: seq<PageRequest>, ms: seq<PageRequest>)
    requires |last.requests| > 1
    requires Takes(shorter, last.requests[|last.requests| - 1])
    requires Joined(shorter, last.requests[|last.requests| - 1]) == last
    requires front + [shorter] == PlaceAll([], before)
    requires ms == before + [last.requests[|last.requests| - 1]]
    ensures front + [last] == PlaceAll([], ms)
  {
    assert ms[..|ms| - 1] == before;
    assert (front + [shorter])[..|front|] == front;
  }

  /** The last group of a greedy grouping has a set start. */
  lemma GreedyLastStarted(vs: seq<GroupValue>)
    requires Greedy(vs) && vs != []
    ensures vs[|vs| - 1].tsStart > 0
  {
    var g := vs[|vs| - 1];
    assert DefaultSpans(g);
    assert g.requests[0] in g.requests;
  }

  /**
   * An instance of the rule: a (100 ms, 5 ms long), b (200 ms, 1000 ms long) and
   * c (210 ms) make two groups, {a} and {b, c}; b starts more than 10 ms after a
   * ended and c starts inside b's window.
   */
  lemma GroupingExample()
    ensures var a := PageRequest(1, "a", 100, 105, 0, 0, 5, NoStatus, "", false, true, false, "");
            var b := PageRequest(2, "b", 200, 1200, 0, 0, 1000, NoStatus, "", false, true, false, "");
            var c := PageRequest(3, "c", 210, 210, 0, 0, 0, NoStatus, "", false, true, false, "");
            PlaceAll([], [a, b, c]) == [GroupValue(10, 100, 105, [a]), GroupValue(10, 200, 1200, [b, c])]
  {
    var a := PageRequest(1, "a", 100, 105, 0, 0, 5, NoStatus, "", false, true, false, "");
    var b := PageRequest(2, "b", 200, 1200, 0, 0, 1000, NoStatus, "", false, true, false, "");
    var c := PageRequest(3, "c", 210, 210, 0, 0, 0, NoStatus, "", false, true, false, "");
    assert [a][..0] == [];
    var g1 := PlaceAll([], [a]);
    assert g1 == [Opened(a, 10)];
    assert [a, b][..1] == [a];
    var g2 := PlaceAll([], [a, b]);
    assert !Takes(g1[0], b);
    assert g2 == [Opened(a, 10), Opened(b, 10)];
    assert [a, b, c][..2] == [a, b];
    assert Takes(g2[1], c);
    assert PlaceAll([], [a, b, c]) == Place(g2, c) == [g2[0], Joined(g2[1], c)];
    assert Joined(g2[1], c) == GroupValue(10, 200, 1200, [b, c]);
  }

  // ---------------------------------------------------------------------------
  // Groups, through the heap

  predicate GroupsDistinct(gs: seq<PageRequestsGroup>) {
    forall i, j :: 0 <= i < j < |gs| ==> gs[i] != gs[j]
  }

  /** The groups' fields, as values. */
  function GroupValues(gs: seq<PageRequestsGroup>): seq<GroupValue>
    reads set g | g in gs
  {
    seq(|gs|, i requires 0 <= i < |gs| reads gs => gs[i].Value())
  }

  lemma PrefixStep(s: seq<PageRequest>, k: nat)
    requires k < |s|
    ensures s[..k + 1] == s[..k] + [s[k]]
  {
  }

  // ---------------------------------------------------------------------------

  class Page {
    var requests: seq<PageRequest>
    var requestsGroups: seq<PageRequestsGroup>
    const longpolls: seq<string>
    var ramUsageKb: int
    var tsStart: int
    var tsEnd: int
    var dur: int
    const url: string
    const name: string
    const cached: bool
    var length: int
    var timeline: Timeline
    const realNavigation: bool
    var data: string

    /** Request ids are unique (the id dictionary mirrors the list) and no group is listed twice. */
    ghost predicate Valid()
      reads this
    {
      UniqueIds(requests) && GroupsDistinct(requestsGroups)
    }

    /**
     * `Page(browser, url, cached, longpolls, name, real_navigation)`; an empty name
     * stands for None. A DOM-click navigation is always treated as cached.
     */
    constructor (url: string, cached: bool, longpolls: seq<string>, name: string, realNavigation: bool)
      ensures Valid()
      ensures requests == [] && requestsGroups == []
      ensures this.longpolls == if longpolls == [] then DefaultLongPolls else longpolls
      ensures this.cached == (cached || !realNavigation)
      ensures tsStart == 0 && tsEnd == 0 && dur == 0 && length == 0 && ramUsageKb == 0
      ensures this.url == url && this.name == name && this.realNavigation == realNavigation
      ensures forall i :: Value(timeline, i) == 0
      ensures data == ""
    {
      requests := [];
      requestsGroups := [];
      this.longpolls := if longpolls == [] then DefaultLongPolls else longpolls;
      ramUsageKb := 0;
      tsStart := 0;
      tsEnd := 0;
      dur := 0;
      this.url := url;
      this.name := name;
      this.cached := cached || !realNavigation;
      length := 0;
      var tl := NewTimeline(map[], 0, 0);
      timeline := tl;
      this.realNavigation := realNavigation;
      data := "";
    }

    /** `add_request`: replace the entry with the same id in place, or append. */
    method AddRequest(req: PageRequest)
      requires Valid()
      modifies `requests
      ensures Valid()
      ensures requests == AddedTo(old(requests), req)
    {
      var k := 0;
      while k < |requests|
        invariant 0 <= k <= |requests|
        invariant forall j :: 0 <= j < k ==> requests[j].id != req.id
      {
        if requests[k].id == req.id {
          requests := requests[k := req];
          AddedToSpec(old(requests), req);
          return;
        }
        k := k + 1;
      }
      requests := requests + [req];
      AddedToSpec(old(requests), req);
    }

    /** `del_request`: remove the entry with the request's id, if there is one. */
    method DelRequest(req: PageRequest)
      requires Valid()
      modifies `requests
      ensures Valid()
      ensures requests == RemovedFrom(old(requests), req.id)
    {
      RemovedFromSpec(requests, req.id);
      var k := 0;
      while k < |requests|
        invariant 0 <= k <= |requests|
        invariant forall j :: 0 <= j < k ==> requests[j].id != req.id
      {
        if requests[k].id == req.id {
          requests := requests[..k] + requests[k + 1..];
          return;
        }
        k := k + 1;
      }
    }

    /** `get_request(id)`. */
    function GetRequest(id: int): (r: Option<PageRequest>)
      reads this
      ensures r.Some? <==> exists k :: 0 <= k < |requests| && requests[k].id == id
      ensures r.Some? ==> r.value.id == id && r.value in requests
    {
      Lookup(requests, id)
    }

    /** `process_activity(name, timestamp)`: widen the window to cover the timestamp. */
    method ProcessActivity(timestamp: int)
      modifies `tsStart, `tsEnd
      ensures tsStart == ActivityStart(old(tsStart), timestamp)
      ensures tsEnd == ActivityEnd(old(tsEnd), timestamp)
      ensures tsStart <= timestamp <= tsEnd
    {
      if tsStart == 0 || tsStart > timestamp {
        tsStart := timestamp;
      }
      if tsEnd == 0 || tsEnd < timestamp {
        tsEnd := timestamp;
      }
    }

    /** `get_incomplete_reqs`. */
    function GetIncompleteReqs(): (s: seq<PageRequest>)
      reads this
      ensures forall r :: multiset(s)[r] == if !r.completed && !IsLongPoll(r, longpolls) then multiset(requests)[r] else 0
      ensures forall r :: r in s <==> r in requests && !r.completed && !IsLongPoll(r, longpolls)
    {
      Incomplete(requests, longpolls)
    }

    /** `get_uncached_reqs`. */
    function GetUncachedReqs(): (s: seq<PageRequest>)
      reads this
      ensures forall r :: multiset(s)[r] == if r.cached then 0 else multiset(requests)[r]
      ensures forall r :: r in s <==> r in requests && !r.cached
    {
      Uncached(requests)
    }

    /**
     * `get_error_reqs` as written: it calls `r.is_ok()`, but the method is named
     * `is_oK`, so any page with a request raises AttributeError.
     */
    function GetErrorReqsAsWritten(): (res: Result<seq<PageRequest>, string>)
      reads this
      ensures res.Ok? <==> requests == []
    {
      if requests == [] then Ok([])
      else Err("AttributeError: 'PageRequest' object has no attribute 'is_ok'")
    }

    /** `get_error_reqs` as intended: the requests whose `is_oK` is false. */
    function GetErrorReqs(): (s: seq<PageRequest>)
      reads this
      ensures forall r :: multiset(s)[r] == if IsOK(r) then 0 else multiset(requests)[r]
      ensures forall r :: r in s <==> r in requests && !IsOK(r)
    {
      ErrorRequests(requests)
    }

    /** `get_repeated_reqs_cnt`: how many uncached requests repeat an earlier url. */
    function GetRepeatedReqsCnt(): (n: int)
      reads this
      ensures var urls := Urls(Uncached(requests));
              n == |set k | 0 <= k < |urls| && urls[k] in urls[..k]|
      ensures n >= 0
      ensures n == 0 <==> Distinct(Urls(Uncached(requests)))
    {
      RepeatedCount(Urls(Uncached(requests)))
    }

    /** `get_full_name(prefix)`: the name, or the url with the prefix length cut off. */
    function GetFullName(prefix: string): (n: string)
      reads this
      ensures name != "" ==> n == name
      ensures name == "" && |prefix| <= |url| ==> n == url[|prefix|..]
      ensures name == "" && StartsWith(url, prefix) ==> prefix + n == url
      ensures name == "" && |prefix| >= |url| ==> n == ""
    {
      if name != "" then name else DropFirst(url, |prefix|)
    }

    /** `get_key()`: the name (or the url before "?bw_id") and the cached flag. */
    function GetKey(): (key: (string, bool))
      reads this
      ensures key.1 == cached
      ensures name != "" ==> key.0 == name
      ensures name == "" ==> StartsWith(url, key.0)
      ensures name == "" && Contains(url, "?bw_id") ==>
        OccursAt(url, "?bw_id", |key.0|) && forall j :: 0 <= j < |key.0| ==> !OccursAt(url, "?bw_id", j)
      ensures name == "" && !Contains(url, "?bw_id") ==> key.0 == url
    {
      (if name != "" then name else BeforeFirst(url, "?bw_id"), cached)
    }

    // ------------------------------------------------------------------------- complete

    /** The offset loop over the requests. */
    method ShiftRequestsBy(offt: int)
      modifies `requests
      ensures requests == ShiftRequests(old(requests), offt, longpolls)
    {
      for k := 0 to |requests|
        invariant |requests| == |old(requests)|
        invariant forall j :: k <= j < |requests| ==> requests[j] == old(requests)[j]
        invariant forall j :: 0 <= j < k ==> requests[j] == ShiftRequest(old(requests)[j], offt, longpolls)
      {
        var r := requests[k];
        r := r.(tsStart := r.tsStart + offt);
        var isLongPoll;
        isLongPoll, r := CheckLongPoll(r, longpolls);
        if isLongPoll {
          // a long poll keeps its end
        } else if r.tsEnd == 0 {
          r := r.(status := Timeout);
        } else {
          r := r.(tsEnd := r.tsEnd + offt);
        }
        requests := requests[k := r];
      }
    }

    /** The offset loop over the existing groups. */
    method ShiftGroupsBy(offt: int)
      requires GroupsDistinct(requestsGroups)
      modifies requestsGroups
      ensures forall i :: 0 <= i < |requestsGroups| ==>
        && requestsGroups[i].tsStart == old(requestsGroups[i].tsStart) + offt
        && requestsGroups[i].tsEnd == old(requestsGroups[i].tsEnd) + offt
        && requestsGroups[i].requests == old(requestsGroups[i].requests)
      ensures GroupValues(requestsGroups) == ShiftedGroups(old(GroupValues(requestsGroups)), offt)
      ensures State() == old(State())
    {
      ghost var vs := GroupValues(requestsGroups);
      ShiftEach(offt);
      assert forall i :: 0 <= i < |requestsGroups| ==> old(requestsGroups[i].Value()) == vs[i];
    }

    /** The loop itself: each group's window moves by the offset, nothing else changes. */
    method ShiftEach(offt: int)
      requires GroupsDistinct(requestsGroups)
      modifies requestsGroups
      ensures forall i :: 0 <= i < |requestsGroups| ==>
        && requestsGroups[i].tsStart == old(requestsGroups[i].tsStart) + offt
        && requestsGroups[i].tsEnd == old(requestsGroups[i].tsEnd) + offt
        && requestsGroups[i].requests == old(requestsGroups[i].requests)
    {
      for i := 0 to |requestsGroups|
        invariant forall j :: 0 <= j < i ==>
          && requestsGroups[j].tsStart == old(requestsGroups[j].tsStart) + offt
          && requestsGroups[j].tsEnd == old(requestsGroups[j].tsEnd) + offt
        invariant forall j :: i <= j < |requestsGroups| ==>
          && requestsGroups[j].tsStart == old(requestsGroups[j].tsStart)
          && requestsGroups[j].tsEnd == old(requestsGroups[j].tsEnd)
        invariant forall j :: 0 <= j < |requestsGroups| ==> requestsGroups[j].requests == old(requestsGroups[j].requests)
      {
        var g := requestsGroups[i];
        g.tsStart := g.tsStart + offt;
        g.tsEnd := g.tsEnd + offt;
      }
    }

    /** The length loop: fill `length` from `content_length` and total the uncached ones. */
    method ComputeLength()
      modifies `requests, `length
      ensures requests == FillLengths(old(requests))
      ensures length == UncachedLength(requests)
    {
      length := 0;
      for k := 0 to |requests|
        invariant |requests| == |old(requests)|
        invariant forall j :: k <= j < |requests| ==> requests[j] == old(requests)[j]
        invariant forall j :: 0 <= j < k ==> requests[j] == FillLength(old(requests)[j])
        invariant length == UncachedLength(requests[..k])
      {
        var r := requests[k];
        if r.contentLength != 0 {
          r := r.(length := r.contentLength);
          requests := requests[k := r];
        }
        assert requests[..k + 1] == requests[..k] + [r];
        UncachedLengthAppend(requests[..k], r);
        if !r.cached {
          length := length + r.length;
        }
      }
      assert requests[..|requests|] == requests;
    }

    /** The last group, the only one a new request can join. */
    function LastGroup(): set<PageRequestsGroup>
      reads this
    {
      if requestsGroups == [] then {} else {requestsGroups[|requestsGroups| - 1]}
    }

    /**
     * One step of the grouping loop: r joins the last group if that group takes
     * it, otherwise r opens a new group of its own. No other group changes.
     */
    method PlaceRequest(r: PageRequest)
      requires GroupsDistinct(requestsGroups)
      modifies `requestsGroups, LastGroup()
      ensures GroupsDistinct(requestsGroups)
      ensures GroupValues(requestsGroups) == Place(old(GroupValues(requestsGroups)), r)
      ensures old(|requestsGroups|) <= |requestsGroups|
      ensures requestsGroups[..old(|requestsGroups|)] == old(requestsGroups)
      ensures forall g :: g in requestsGroups ==> g in old(requestsGroups) || fresh(g)
    {
      ghost var before := GroupValues(requestsGroups);
      var n := |requestsGroups|;
      var accepted := false;
      if n > 0 {
        var last := requestsGroups[n - 1];
        accepted := last.AddRequest(r);
        forall i | 0 <= i < n - 1 ensures requestsGroups[i].Value() == before[i] {
          assert requestsGroups[i] != last;
        }
        if accepted {
          assert GroupValues(requestsGroups) == before[..n - 1] + [Joined(before[n - 1], r)];
        } else {
          assert GroupValues(requestsGroups) == before;
        }
      }
      if !accepted {
        var g := new PageRequestsGroup(r);
        requestsGroups := requestsGroups + [g];
        assert GroupValues(requestsGroups) == before + [Opened(r, 10)];
      }
    }

    /**
     * The grouping loop: the pending requests are placed one after another, after
     * the groups already there. The old groups stay listed first and the new ones
     * are fresh.
     */
    method BuildGroups(pending: seq<PageRequest>)
      requires GroupsDistinct(requestsGroups)
      modifies `requestsGroups, requestsGroups
      ensures GroupsDistinct(requestsGroups)
      ensures GroupValues(requestsGroups) == PlaceAll(old(GroupValues(requestsGroups)), pending)
      ensures old(|requestsGroups|) <= |requestsGroups|
      ensures requestsGroups[..old(|requestsGroups|)] == old(requestsGroups)
      ensures forall g :: g in requestsGroups ==> g in old(requestsGroups) || fresh(g)
      ensures State() == old(State())
    {
      ghost var start := GroupValues(requestsGroups);
      ghost var from := |requestsGroups|;
      for k := 0 to |pending|
        invariant GroupsDistinct(requestsGroups)
        invariant from <= |requestsGroups|
        invariant requestsGroups[..from] == old(requestsGroups)
        invariant forall g :: g in requestsGroups ==> g in old(requestsGroups) || fresh(g)
        invariant GroupValues(requestsGroups) == PlaceAll(start, pending[..k])
      {
        if requestsGroups != [] {
          assert requestsGroups[|requestsGroups| - 1] in requestsGroups;
        }
        ghost var before := requestsGroups;
        PlaceRequest(pending[k]);
        assert requestsGroups[..from] == before[..from];
        assert pending[..k + 1][..k] == pending[..k];
      }
      assert pending[..|pending|] == pending;
    }

    /** The data loop: collect the data of the requests to the page's own url. */
    method AppendPageData()
      modifies `data
      ensures data == old(data) + PageData(requests, url)
    {
      for k := 0 to |requests|
        invariant data == old(data) + PageData(requests[..k], url)
      {
        var r := requests[k];
        PrefixStep(requests, k);
        PageDataAppend(requests[..k], r, url);
        if r.url == url {
          data := data + r.data;
        }
      }
      assert requests[..|requests|] == requests;
    }

    /** The fields `complete` reads and writes, as one value. */
    function State(): PageState
      reads `tsStart, `tsEnd, `ramUsageKb, `timeline, `requests, `length, `dur, `data
    {
      PageState(tsStart, tsEnd, ramUsageKb, timeline, requests, length, dur, data)
    }

    /**
     * The first part of `complete(browser)`: derive an unset end and, on a real
     * navigation with a known navigation start, move the window, the requests and
     * the groups onto the browser clock.
     */
    method AlignToBrowser(ramKb: int, browserTimeline: Timeline)
      requires Valid()
      modifies `tsStart, `tsEnd, `ramUsageKb, `timeline, `requests, requestsGroups
      ensures Valid()
      ensures State() == Aligned(old(State()), realNavigation, longpolls, ramKb, browserTimeline)
      ensures GroupValues(requestsGroups) ==
        ShiftedGroups(old(GroupValues(requestsGroups)), Offset(old(State()), realNavigation, browserTimeline))
    {
      ghost var vs := GroupValues(requestsGroups);
      SettleEnd();
      TakeReadings(ramKb, browserTimeline);
      var moved := false;
      if realNavigation {
        var nav := Value(timeline, NavStrt);
        if nav != 0 {
          MoveToClock(nav);
          moved := true;
        }
      }
      if !moved {
        assert ShiftedGroups(vs, 0) == vs;
      }
    }

    /** The browser's readings: its RAM usage, and its timeline on a real navigation. */
    method TakeReadings(ramKb: int, browserTimeline: Timeline)
      modifies `ramUsageKb, `timeline
      ensures State() == old(State()).(ramUsageKb := ramKb,
                                       timeline := if realNavigation then browserTimeline else old(timeline))
    {
      ramUsageKb := ramKb;
      if realNavigation {
        timeline := browserTimeline;
      }
    }

    /** An unset end becomes the latest request end, or the timeline's ajaxEnd. */
    method SettleEnd()
      modifies `tsEnd
      ensures State() == old(State()).(tsEnd := EndAtCompletion(old(tsEnd), requests, timeline))
    {
      if tsEnd == 0 {
        if |requests| > 0 {
          tsEnd := MaxEnd(requests);
        } else {
          tsEnd := Value(timeline, AjaxEnd);
        }
      }
    }

    /**
     * Move the page window, its requests and its groups so that the page starts
     * at the browser's navigation start.
     */
    method MoveToClock(nav: int)
      requires Valid()
      modifies `tsStart, `tsEnd, `requests, requestsGroups
      ensures Valid()
      ensures State() == Moved(old(State()), nav, longpolls)
      ensures GroupValues(requestsGroups) ==
        ShiftedGroups(old(GroupValues(requestsGroups)), ClockOffset(nav, old(tsStart), old(requests)))
    {
      var offt: int;
      if |requests| > 0 {
        offt := nav - tsStart;
      } else {
        offt := 0;
        tsStart := nav;
      }
      tsStart := tsStart + offt;
      tsEnd := tsEnd + offt;
      ShiftRequestsBy(offt);
      ShiftGroupsBy(offt);
    }

    /**
     * The second part of `complete(browser)`: lengths are filled and totalled, the
     * duration covers both the window and the timeline, every request's long-poll
     * flag is brought up to date, and the data of the requests to the page url is
     * appended to the page data.
     */
    method FinishRequests()
      modifies `requests, `length, `dur, `data
      ensures State() == Finished(old(State()), longpolls, url)
    {
      ComputeLength();
      dur := Max(tsEnd - tsStart, timeline.totalDur);
      ghost var filled := requests;
      requests := MarkLongPolls(requests, longpolls);
      MarkKeepsUncachedLength(filled, longpolls);
      // The data of the page url does not depend on the groups, so it is
      // gathered here, before the grouping rather than after it.
      AppendPageData();
      ghost var st := old(State());
      ghost var rs := MarkLongPolls(FillLengths(st.requests), longpolls);
      assert requests == rs && length == UncachedLength(rs);
      assert State() == st.(requests := rs, length := UncachedLength(rs),
                            dur := Max(st.tsEnd - st.tsStart, st.timeline.totalDur),
                            data := st.data + PageData(rs, url));
    }

    /**
     * The steps of `complete(browser)` before the grouping loop: the page fields
     * end as Completed says and the existing groups are moved by the offset.
     */
    method AlignAndFinish(ramKb: int, browserTimeline: Timeline)
      requires Valid()
      modifies `tsStart, `tsEnd, `ramUsageKb, `timeline, `requests, `length, `dur, `data, requestsGroups
      ensures Valid()
      ensures State() == Completed(old(State()), realNavigation, longpolls, url, ramKb, browserTimeline)
      ensures GroupValues(requestsGroups) ==
        ShiftedGroups(old(GroupValues(requestsGroups)), Offset(old(State()), realNavigation, browserTimeline))
    {
      AlignToBrowser(ramKb, browserTimeline);
      ghost var shifted := GroupValues(requestsGroups);
      FinishRequests();
      assert GroupValues(requestsGroups) == shifted;
    }

    /**
     * `complete(browser)`, with the browser's answers (its RAM usage and its
     * navigation timeline) passed in: the page fields end as Completed says, the
     * groups present before are kept in front and moved by the same offset, and
     * the grouping loop places the non-long-poll requests, sorted by start, after
     * them; the members gained are exactly those requests in that order.
     */
    method Complete(ramKb: int, browserTimeline: Timeline)
      requires Valid()
      modifies this, requestsGroups
      ensures Valid()
      ensures State() == Completed(old(State()), realNavigation, longpolls, url, ramKb, browserTimeline)
      ensures old(|requestsGroups|) <= |requestsGroups|
      ensures requestsGroups[..old(|requestsGroups|)] == old(requestsGroups)
      ensures GroupValues(requestsGroups) ==
        PlaceAll(ShiftedGroups(old(GroupValues(requestsGroups)), Offset(old(State()), realNavigation, browserTimeline)),
                 SortByStart(NonLongPoll(requests)))
      ensures Members(GroupValues(requestsGroups)) == Members(old(GroupValues(requestsGroups))) + SortByStart(NonLongPoll(requests))
    {
      ghost var vs := GroupValues(requestsGroups);
      ghost var offt := Offset(State(), realNavigation, browserTimeline);
      AlignAndFinish(ramKb, browserTimeline);
      ghost var shifted := GroupValues(requestsGroups);
      var pending := SortByStart(NonLongPoll(requests));
      BuildGroups(pending);
      PlaceAllMembers(shifted, pending);
      ShiftedMembers(vs, offt);
    }
  }
}
