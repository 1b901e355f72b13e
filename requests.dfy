/**
 * PageRequest: one network request seen while a page loads, with its
 * timestamps (integer milliseconds, 0 when unset), sizes, HTTP status and
 * flags, plus the predicates and helpers the page model applies to it.
 */
module Requests {
  import opened Py

  /** `status` is an HTTP code, None, or the synthetic "timeout" string. */
  datatype Status = NoStatus | Code(code: int) | Timeout

  datatype PageRequest = PageRequest(
    id: int,
    url: string,
    tsStart: int,
    tsEnd: int,
    contentLength: int,
    length: int,
    dur: int,
    status: Status,
    rtype: string,
    cached: bool,
    completed: bool,
    longpoll: bool,
    data: string)

  /** `PageRequest.types`, in order. */
  const Types: seq<string> := ["Image", "Stylesheet", "Script", "XHR", "Document", "Other"]

  /** Some configured long-poll pattern is a substring of the url. */
  predicate MatchesLongPoll(url: string, longpolls: seq<string>) {
    exists k | 0 <= k < |longpolls| :: Contains(url, longpolls[k])
  }

  /** What `is_long_poll` answers: the sticky flag, or a pattern match. */
  predicate IsLongPoll(r: PageRequest, longpolls: seq<string>) {
    r.longpoll || MatchesLongPoll(r.url, longpolls)
  }

  /** The request after `is_long_poll` has run on it: the flag sticks once a pattern matched. */
  function MarkLongPoll(r: PageRequest, longpolls: seq<string>): (m: PageRequest)
    ensures m.longpoll <==> r.longpoll || exists k | 0 <= k < |longpolls| :: Contains(r.url, longpolls[k])
    ensures m.(longpoll := r.longpoll) == r
  {
    r.(longpoll := IsLongPoll(r, longpolls))
  }

  /**
   * `is_long_poll(longpolls)`: returns whether the request is a long poll and the
   * request with its `longpoll` flag updated.
   */
  method CheckLongPoll(r: PageRequest, longpolls: seq<string>) returns (isLongPoll: bool, r': PageRequest)
    ensures isLongPoll <==> r.longpoll || MatchesLongPoll(r.url, longpolls)
    ensures r' == r.(longpoll := isLongPoll)
  {
    if r.longpoll {
      return true, r;
    }
    if |longpolls| == 0 {
      return false, r;
    }
    for k := 0 to |longpolls|
      invariant forall j :: 0 <= j < k ==> !Contains(r.url, longpolls[j])
    {
      if Contains(r.url, longpolls[k]) {
        return true, r.(longpoll := true);
      }
    }
    return false, r;
  }

  /**
   * `is_oK` (the callers spell it `is_ok`): a long poll is always fine; otherwise
   * the status must be an int whose `int(status / 100)` is 0, 2 or 3.
   */
  function IsOK(r: PageRequest): (ok: bool)
    ensures ok <==> r.longpoll
                    || (r.status.Code? && (-100 < r.status.code < 100 || 200 <= r.status.code < 400))
  {
    if r.longpoll then true
    else match r.status
      case Code(c) =>
        var base := TruncDiv(c, 100);
        base == 0 || base == 2 || base == 3
      case _ => false
  }

  /** `pretty_type(type)`: the request's display type from its MIME type and url suffix. */
  function PrettyType(r: PageRequest, mime: string): (t: string)
    ensures t in Types
    ensures mime != "" && EndsWith(Lower(r.url), ".js") ==> t == "Script"
    ensures var tail := Tail(Lower(r.url), 6);
            (mime != "" && mime in Types && !EndsWith(tail, ".js") && !EndsWith(tail, ".css")
             && !IsImageSuffix(tail)) ==> t == mime
  {
    if mime == "" then "Other"
    else
      var tail := Tail(Lower(r.url), 6);
      if EndsWith(tail, ".js") then "Script"
      else if EndsWith(tail, ".css") then "Stylesheet"
      else if IsImageSuffix(tail) then "Image"
      else if mime in Types then mime
      else if StartsWith(mime, "text/html") || EndsWith(tail, ".html") then "Document"
      else "Other"
  }

  predicate IsImageSuffix(tail: string) {
    EndsWith(tail, ".png") || EndsWith(tail, ".gif") || EndsWith(tail, ".jpg") || EndsWith(tail, ".ico")
  }

  /** `get_url(domain)`: the url with a leading domain removed. */
  function GetUrl(r: PageRequest, domain: string): (u: string)
    ensures StartsWith(r.url, domain) ==> domain + u == r.url
    ensures !StartsWith(r.url, domain) ==> u == r.url
  {
    if StartsWith(r.url, domain) then r.url[|domain|..] else r.url
  }

  /** `PageRequest.complete(ts)` with the end time given. */
  function CompleteAt(r: PageRequest, ts: int): (c: PageRequest)
    ensures c.completed && c.tsEnd == ts && c.tsStart + c.dur == ts
    ensures c.(tsEnd := r.tsEnd, dur := r.dur, completed := r.completed) == r
  {
    r.(tsEnd := ts, dur := ts - r.tsStart, completed := true)
  }

  /**
   * The members of `rs` that are not served from the cache, in order: each
   * uncached request as often as in `rs`, no cached one.
   */
  function Uncached(rs: seq<PageRequest>): (u: seq<PageRequest>)
    ensures |u| <= |rs|
    ensures forall r :: multiset(u)[r] == if r.cached then 0 else multiset(rs)[r]
    ensures forall r :: r in u <==> r in rs && !r.cached
  {
    if rs == [] then []
    else
      assert rs == [rs[0]] + rs[1..];
      if rs[0].cached then Uncached(rs[1..])
      else [rs[0]] + Uncached(rs[1..])
  }

  /** Filtering distributes over concatenation, so the order of `rs` is kept. */
  lemma {:induction false} UncachedAppend(a: seq<PageRequest>, b: seq<PageRequest>)
    ensures Uncached(a + b) == Uncached(a) + Uncached(b)
  {
    if a == [] {
      assert a + b == b;
    } else {
      var x, t := a[0], a[1..];
      var h := if x.cached then [] else [x];
      HeadSplit(a, b);
      calc {
        Uncached(a + b);
        { UncachedCons(x, t + b); }
        h + Uncached(t + b);
        { UncachedAppend(t, b); }
        h + (Uncached(t) + Uncached(b));
        { Assoc(h, Uncached(t), Uncached(b)); }
        (h + Uncached(t)) + Uncached(b);
        { UncachedCons(x, t); }
        Uncached(a) + Uncached(b);
      }
    }
  }

  lemma UncachedCons(x: PageRequest, t: seq<PageRequest>)
    ensures Uncached([x] + t) == (if x.cached then [] else [x]) + Uncached(t)
  {
    assert ([x] + t)[0] == x && ([x] + t)[1..] == t;
  }

  lemma HeadSplit(a: seq<PageRequest>, b: seq<PageRequest>)
    requires a != []
    ensures a == [a[0]] + a[1..]
    ensures a + b == [a[0]] + (a[1..] + b)
  {
  }

  lemma Assoc(p: seq<PageRequest>, q: seq<PageRequest>, r: seq<PageRequest>)
    ensures (p + q) + r == p + (q + r)
  {
  }
}
