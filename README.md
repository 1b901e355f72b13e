# perftracker-client, modelled in Dafny

This project models four parts of the perftracker-client Python library.

- **Page timing** (`perftrackerlib/browser/page.py`):
  - the navigation timeline of a page and its six deltas;
  - the network requests captured while a page loads;
  - the page's request table, keyed by id;
  - the activity window;
  - `Page.complete`, which moves the page onto the browser's navigation clock, fills and totals lengths, fixes the duration and clusters the requests into groups;
  - the per-page statistics that average several iterations.
- **Menu discovery** (`perftrackerlib/browser/cp_engine.py`):
  - the control-panel menu tree, whose "seen" set lives at its root;
  - tag stripping for titles;
  - the depth-first `_populate_menu` walk;
  - the flattening of the tree into `(title, target)` pairs.
- **Crawler helpers** (`perftrackerlib/browser/cp_crawler.py`):
  - the `prefix{from-to}suffix` user-range expansion;
  - round-robin assignment of users to browsers and the choice of browser class;
  - detection of the control-panel engine;
  - the checks `crawl` makes before it starts the browsers.
- **Result data model** (`lib/perftracker_client.py`):
  - tests, environment nodes, components and suites;
  - their `validate` rules;
  - the attribute filter of the JSON encoder;
  - command-line overrides and the API URL.

How the source maps onto Dafny:

- **Objects updated in place** are classes: `Page`, `PageRequestsGroup`, `PageStats`, `CPMenuItem`, `CPEngineBase`, `CPBrowserRunner`, `CPCrawler`, `PtTest`, `PtEnvNode` and `PtSuite`. Loops and in-place updates are methods, proved against specification functions.
- **Values** are datatypes: a request, a timeline, a menu locator, the crawl options, and the Python values the client's objects hold.
- **Selenium** is an oracle, the `Driver` datatype. It gives the answers to element searches, attribute reads, ancestor walks and clicks as functions of an abstract DOM state.
- **Clock, uuid, RAM and timeline readings** are parameters: the current time, a freshly generated uuid, the browser's RAM usage and the browser's timeline.
- **Unset values:** a timestamp of 0 stands for both 0 and None, because the code tests these with `if not x`. An empty string stands for a None string option. The places where Python 3 would raise TypeError on a None instead are listed under "Left out".

Modules:

- `Wrappers`: Option and Result.
- `Py`: Python string and integer helpers, including truncating division.
- `Timelines`, `Requests`, `RequestGroups`, `Pages`, `Stats`: page.py.
- `MenuItems`, `MenuEngine`: cp_engine.py.
- `Crawler`: cp_crawler.py.
- `Client`: perftracker_client.py.

## Model

| member | source | states |
|---|---|---|
| Timelines.NewTimeline | perftrackerlib/browser/page.py:39-64 | A missing instant reads as 0. With a page end set and no ajaxEnd supplied, ajaxEnd is ts_end − ts_start + navStrt. ajaxEnd is then raised to onloadEnd if it is below it. Each delta is the difference of consecutive instants, ajax_start is domEnd − navStrt and total_dur is onloadEnd − navStrt. |
| Timelines.DeltasPrefixSum | perftrackerlib/browser/page.py:60-61 | The first k deltas add up to instant k minus navStrt. |
| Timelines.DeltasSum | perftrackerlib/browser/page.py:60-61 | The six deltas add up to ajaxEnd − navStrt. |
| Requests.CheckLongPoll | perftrackerlib/browser/page.py:208-218 | The request is a long poll iff its flag is already set or a configured pattern is a substring of its url. The flag is set afterwards exactly when the answer is yes (it sticks). |
| Requests.MarkLongPoll | perftrackerlib/browser/page.py:208-218 | The flag ends set iff it was already set or some configured pattern is a substring of the url. No other field changes. |
| Requests.IsOK | perftrackerlib/browser/page.py:220-227 | OK iff the request is a long poll, or its status is an int whose truncated hundreds are 0, 2 or 3 (−100 < c < 100 or 200 ≤ c < 400). None and "timeout" are not OK. |
| Requests.PrettyType | perftrackerlib/browser/page.py:169-184 | The result is always one of the six request types. A url ending in .js is a Script for any non-empty type. A known type passes through when the url tail is not a script, stylesheet or image. |
| Requests.GetUrl | perftrackerlib/browser/page.py:164-167 | A url starting with the domain loses exactly that prefix. Any other url comes back unchanged. |
| Requests.CompleteAt | perftrackerlib/browser/page.py:194-199 | The request becomes completed with ts_end = ts and start + dur = ts. Nothing else changes. |
| Requests.Uncached | perftrackerlib/browser/page.py:340-341 | Exactly the requests not served from the cache: each uncached request occurs as often as in the input, and no other request occurs. |
| Requests.UncachedCons | perftrackerlib/browser/page.py:340-341 | A request in front contributes itself iff it is uncached. |
| Requests.UncachedAppend | perftrackerlib/browser/page.py:340-341 | The filter distributes over concatenation, so the order of the requests is kept. |
| RequestGroups.PageRequestsGroup.constructor | perftrackerlib/browser/page.py:80-84 | The group holds the one request, with threshold 10 by default. The window is the request's start and start + dur, or unset when the start is unset. The group's value is Opened(r), and the window invariant holds. |
| RequestGroups.PageRequestsGroup.Add | perftrackerlib/browser/page.py:86-93 | The request is appended. A set start becomes the min with the request's start and a set end the max with its end. Unset bounds stay unset. The group's value is Joined(old value, r). |
| RequestGroups.PageRequestsGroup.AddRequest | perftrackerlib/browser/page.py:95-102 | Accepted iff the start is unset or start ≤ r.ts_start ≤ ts_end + threshold (Takes). On acceptance r is appended, a set start becomes min(start, r.ts_start) and a set end max(ts_end, r.ts_start + r.dur), while an unset bound stays unset; the value is Joined. On rejection nothing changes. The window invariant is preserved. |
| RequestGroups.PageRequestsGroup.GetUncachedReqs | perftrackerlib/browser/page.py:104-105 | Exactly the group's uncached members, each as often as in the group. |
| RequestGroups.ReachIsLatestEnd | perftrackerlib/browser/page.py:92 | The reach of a member list (the running max of start + dur) bounds every member's end, and one member attains it. |
| RequestGroups.OpenedSpans | perftrackerlib/browser/page.py:80-84 | A group opened by a started request spans it: its start is the opener's, its end is the reach, and its members are chained. |
| RequestGroups.JoinedSpans | perftrackerlib/browser/page.py:95-102 | A spanning group that takes a started request still spans after the join. |
| RequestGroups.SpansSplit | perftrackerlib/browser/page.py:95-102 | A spanning group of several members is the join of its last member onto the group of the others, which spans and takes that member. |
| Pages.IndexOfId | perftrackerlib/browser/page.py:305-309 | The first position holding the id, or −1 iff no entry has it. |
| Pages.Lookup | perftrackerlib/browser/page.py:323-326 | A request is found iff some entry has the id, and then it is an entry with that id. |
| Pages.AddedToSpec | perftrackerlib/browser/page.py:304-313 | Adding keeps ids unique and makes the request the answer for its id. Other ids keep their answers. A known id is replaced at its own position with the length unchanged; a new id grows the list by one. |
| Pages.RemovedFromSpec | perftrackerlib/browser/page.py:315-321 | Deleting keeps ids unique and removes exactly the entry with the id (length − 1), or does nothing when the id is absent. Other ids keep their answers. |
| Pages.ActivityWindowIsMinMax | perftrackerlib/browser/page.py:328-335 | Over a series of non-zero timestamps starting from an unset window, the window ends at exactly their minimum and maximum. |
| Pages.ActivityWindow | perftrackerlib/browser/page.py:328-335 | Each bound of the window after a series of calls is the bound it started with or one of the timestamps. |
| Pages.MaxEnd | perftrackerlib/browser/page.py:443-445 | The largest ts_end over the requests: an upper bound that one of them attains. |
| Pages.ShiftRequest | perftrackerlib/browser/page.py:465-474 | The start moves by the offset. A long poll keeps its end and status. A non-long-poll request without an end gets status "timeout". Any other end moves by the offset. Id, url and cache flag are kept. |
| Pages.ShiftRequests | perftrackerlib/browser/page.py:465-474 | Every request is shifted in place, and unique ids stay unique. |
| Pages.FillLength | perftrackerlib/browser/page.py:481-482 | A non-zero content_length becomes length. Nothing else changes. |
| Pages.FillLengths | perftrackerlib/browser/page.py:480-482 | FillLength is applied to every request, keeping the order and unique ids. |
| Pages.MarkLongPolls | perftrackerlib/browser/page.py:488 | Every request's long-poll flag is brought up to date, keeping the order and unique ids. |
| Pages.UncachedLengthAppend | perftrackerlib/browser/page.py:483-484 | One more request adds its length to the total iff it is uncached. |
| Pages.UncachedLengthOnlyUncached | perftrackerlib/browser/page.py:479-484 | The page length depends only on the uncached requests. |
| Pages.MarkKeepsUncachedLength | perftrackerlib/browser/page.py:479-488 | Updating long-poll flags does not change the uncached total. |
| Pages.NonLongPoll | perftrackerlib/browser/page.py:488 | Exactly the requests whose long-poll flag is clear, each as often as in the input. |
| Pages.NonLongPollCons | perftrackerlib/browser/page.py:488 | A request in front contributes itself iff its long-poll flag is clear. |
| Pages.NonLongPollAppend | perftrackerlib/browser/page.py:488 | The filter distributes over concatenation, so the order of the requests is kept. |
| Pages.SortedCons | perftrackerlib/browser/page.py:488 | A request no later than a sorted list's head keeps the list sorted by start. |
| Pages.InsertByStart | perftrackerlib/browser/page.py:488 | Insertion into a start-sorted list keeps it sorted and adds exactly that request. |
| Pages.SortByStart | perftrackerlib/browser/page.py:488 | `sorted(..., key=ts_start)` is sorted by start and a permutation of its input. |
| Pages.SortByStartStable | perftrackerlib/browser/page.py:488 | The sort is stable: for every start t, the requests starting at t come out in their input order. |
| Pages.PageDataAppend | perftrackerlib/browser/page.py:493-498 | One more request appends its data iff its url is the page url. |
| Pages.PageData | perftrackerlib/browser/page.py:493-498 | Empty when no request is to the page url; its partner PageDataAppend states how each request adds to it. |
| Pages.Incomplete | perftrackerlib/browser/page.py:337-338 | Exactly the requests that are neither completed nor long polls, each as often as in the input. |
| Pages.IncompleteCons | perftrackerlib/browser/page.py:337-338 | A request in front contributes itself iff it is neither completed nor a long poll. |
| Pages.IncompleteAppend | perftrackerlib/browser/page.py:337-338 | The filter distributes over concatenation, so the order of the requests is kept. |
| Pages.ErrorRequests | perftrackerlib/browser/page.py:343-344 | Exactly the requests that are not OK, each as often as in the input. |
| Pages.ErrorRequestsCons | perftrackerlib/browser/page.py:343-344 | A request in front contributes itself iff it is not OK. |
| Pages.ErrorRequestsAppend | perftrackerlib/browser/page.py:343-344 | The filter distributes over concatenation, so the order of the requests is kept. |
| Pages.Urls | perftrackerlib/browser/page.py:347 | The url of each request, position by position. |
| Pages.SetOfCard | perftrackerlib/browser/page.py:348 | A list has no more distinct elements than entries, and exactly as many iff it has no repeats. |
| Pages.SetOfSnoc | perftrackerlib/browser/page.py:348 | One more url adds exactly that url to the set of urls. |
| Pages.RepeatsSnoc | perftrackerlib/browser/page.py:348 | One more url is a repeat exactly when it occurred before. |
| Pages.RepeatsCount | perftrackerlib/browser/page.py:348 | Every position is either the first occurrence of a distinct url or a repeat, so len(urls) = len(set(urls)) + the number of repeats. |
| Pages.RepeatedCount | perftrackerlib/browser/page.py:348 | len(urls) − len(set(urls)) equals the number of positions whose url already occurred earlier. It is never negative, and it is zero iff no url repeats. |
| Pages.CompletedDuration | perftrackerlib/browser/page.py:486 | After complete, dur is at least ts_end − ts_start and at least the timeline's total, and equals one of them. |
| Pages.CompletedKeepsRequests | perftrackerlib/browser/page.py:442-498 | Complete keeps the same requests in the same order, with their ids, urls and cache flags, so ids stay unique. |
| Pages.CompletedLength | perftrackerlib/browser/page.py:479-484 | Each request's length is its content_length when that is non-zero. The page length is the sum over uncached requests only. |
| Pages.CompletedOnBrowserClock | perftrackerlib/browser/page.py:449-477 | On a real navigation with navStrt set, the page starts at navStrt and its window length is preserved. Every request start moves by the same offset. Non-long-poll requests without an end become "timeout", and the end of any other non-long-poll request moves by that offset. Long polls keep their unshifted end. |
| Pages.CompletedInPlace | perftrackerlib/browser/page.py:449-451 | Without a real navigation or without navStrt, no start or end moves. |
| Pages.CompletedEndCoversRequests | perftrackerlib/browser/page.py:443-445 | When the end was unset and there are requests, the derived end is at or after the end of every non-long-poll request. |
| Pages.ClockOffset | perftrackerlib/browser/page.py:453-459 | With requests, the offset moves the page start exactly onto navStrt. Without requests it is 0. |
| Pages.Moved | perftrackerlib/browser/page.py:451-477 | The page starts at navStrt. With requests the window length is kept; without them the end and the requests stay. The number of requests and every other field are kept. |
| Pages.Aligned | perftrackerlib/browser/page.py:443-477 | The RAM usage is the browser's, and the timeline is the browser's on a real navigation. Length, dur and data are kept, and so is the number of requests. Without a real navigation or without navStrt, the start and the requests are kept. |
| Pages.Finished | perftrackerlib/browser/page.py:479-498 | The window, the RAM usage and the timeline are kept, and so is the number of requests. dur covers both the window and the timeline's total. The old data is a prefix of the new. |
| Pages.Completed | perftrackerlib/browser/page.py:442-498 | The RAM usage and (on a real navigation) the timeline come from the browser. The number of requests is kept and the old data is a prefix of the new. |
| Pages.MembersSnoc | perftrackerlib/browser/page.py:488-490 | The members of one more group are the old members followed by that group's. |
| Pages.ShiftedMembers | perftrackerlib/browser/page.py:475-477 | Moving the groups by an offset does not change their members. |
| Pages.PlaceMembers | perftrackerlib/browser/page.py:489-490 | Placing a request adds exactly it at the end of the members. |
| Pages.PlaceAllMembers | perftrackerlib/browser/page.py:488-490 | Placing a list of requests adds exactly that list, in order, at the end of the members. |
| Pages.PlaceAllKeepsEarlier | perftrackerlib/browser/page.py:488-490 | Placing requests never removes a group, and only the last old group can change. |
| Pages.GreedySnoc | perftrackerlib/browser/page.py:488-490 | A grouping with one more group is greedy iff the shorter one is, the new group spans its members with threshold 10, and it opens outside the window of the group before it. |
| Pages.JoinGreedy | perftrackerlib/browser/page.py:489 | Joining a started request that the last group takes keeps a greedy grouping greedy. |
| Pages.OpenGreedy | perftrackerlib/browser/page.py:490 | Opening a group for a started request that the last group refuses keeps a greedy grouping greedy. |
| Pages.GroupingIsGreedy | perftrackerlib/browser/page.py:488-490 | When every request has started, the grouping loop yields a greedy grouping: each group spans its members (start of the opener, end the running max of start + dur, each member within threshold of the reach before it), and each next opener lies outside the previous group's window. |
| Pages.GreedyLastStarted | perftrackerlib/browser/page.py:488-490 | The last group of a non-empty greedy grouping has a set start. |
| Pages.LastOpened | perftrackerlib/browser/page.py:490 | A one-member group apart from the previous one is exactly what placing its request after the shorter grouping gives. |
| Pages.LastJoined | perftrackerlib/browser/page.py:489 | A group that is the join of its last member onto a shorter group is exactly what placing that member gives. |
| Pages.GreedyIsGrouping | perftrackerlib/browser/page.py:488-490 | Conversely, every greedy grouping is the one the loop builds from its own members, so the loop's partition is the only greedy one. |
| Pages.GroupingExample | perftrackerlib/browser/page.py:488-490 | Requests at 100 (dur 5), 200 (dur 1000) and 210 give the groups {100} and {200, 210}, with windows 100–105 and 200–1200. |
| Pages.PrefixStep | perftrackerlib/browser/page.py:488-490 | A prefix one longer is the shorter prefix plus the next element (grouping bookkeeping). |
| Pages.Page.constructor | perftrackerlib/browser/page.py:244-276 | No requests and no groups. The default long-poll patterns apply when none are given. A DOM-click page is always cached. Timestamps, dur, length, RAM and data start empty, and the timeline is all zeros. |
| Pages.Page.AddRequest | perftrackerlib/browser/page.py:304-313 | The request list becomes AddedTo (replace in place or append), and ids stay unique. |
| Pages.Page.DelRequest | perftrackerlib/browser/page.py:315-321 | The request list becomes RemovedFrom, and ids stay unique. |
| Pages.Page.GetRequest | perftrackerlib/browser/page.py:323-326 | Found iff some request has the id, and then it is a request with that id. |
| Pages.Page.ProcessActivity | perftrackerlib/browser/page.py:328-335 | An unset or later start is replaced and an unset or earlier end is replaced, so start ≤ timestamp ≤ end. |
| Pages.Page.GetIncompleteReqs | perftrackerlib/browser/page.py:337-338 | Exactly the requests that are neither completed nor long polls, each as often as in the page. |
| Pages.Page.GetUncachedReqs | perftrackerlib/browser/page.py:340-341 | Exactly the uncached requests, each as often as in the page. |
| Pages.Page.GetErrorReqsAsWritten | perftrackerlib/browser/page.py:343-344 | As written, the method answers iff the page has no request; otherwise AttributeError. |
| Pages.Page.GetErrorReqs | perftrackerlib/browser/page.py:343-344 | Exactly the requests that are not OK, each as often as in the page. |
| Pages.Page.GetRepeatedReqsCnt | perftrackerlib/browser/page.py:346-348 | The number of uncached requests whose url occurred in an earlier uncached request. Never negative, and zero iff no uncached url repeats. |
| Pages.Page.GetFullName | perftrackerlib/browser/page.py:500-503 | The name if set. Otherwise the url with its first len(prefix) characters cut off, whether or not it starts with the prefix; empty when the prefix is at least as long as the url. |
| Pages.Page.GetKey | perftrackerlib/browser/page.py:505-506 | The name paired with the cached flag. Without a name, the url up to the first occurrence of "?bw_id" (the whole url when there is none). |
| Pages.Page.ShiftRequestsBy | perftrackerlib/browser/page.py:465-474 | The offset loop leaves the requests as ShiftRequests of the old list. |
| Pages.Page.ShiftGroupsBy | perftrackerlib/browser/page.py:475-477 | Every existing group's start and end move by the offset, and its members stay. The group values become ShiftedGroups of the old ones. The page fields are unchanged. |
| Pages.Page.ShiftEach | perftrackerlib/browser/page.py:475-477 | The loop over the groups moves every start and end by the offset and keeps every member list. |
| Pages.Page.ComputeLength | perftrackerlib/browser/page.py:479-484 | Lengths are filled, and the page length is the uncached total. |
| Pages.Page.PlaceRequest | perftrackerlib/browser/page.py:489-490 | The group values become Place(old values, r): r joins the last group if that group takes it, otherwise a fresh group opened by r is appended. Earlier groups are untouched. |
| Pages.Page.BuildGroups | perftrackerlib/browser/page.py:488-490 | The group values become PlaceAll(old values, pending): the pending requests placed one by one in order. The old groups stay in front and new groups are fresh. |
| Pages.Page.AppendPageData | perftrackerlib/browser/page.py:493-498 | The data of the requests to the page url is appended in request order. |
| Pages.Page.AlignToBrowser | perftrackerlib/browser/page.py:443-477 | The page fields become Aligned: an unset end is derived and the browser readings are taken. On a real navigation with navStrt set, the page and its requests move by one offset, and the group values become ShiftedGroups by that same offset. |
| Pages.Page.TakeReadings | perftrackerlib/browser/page.py:447-450 | The RAM usage is recorded, and on a real navigation the browser's timeline. |
| Pages.Page.SettleEnd | perftrackerlib/browser/page.py:443-445 | An unset end becomes the latest request end, or the timeline's ajaxEnd when there are no requests. |
| Pages.Page.MoveToClock | perftrackerlib/browser/page.py:451-477 | The page starts at navStrt. Its end, requests and groups move by ClockOffset (none when there are no requests); the group values become ShiftedGroups. |
| Pages.Page.FinishRequests | perftrackerlib/browser/page.py:479-498 | Lengths are filled and totalled, dur = max(window, total_dur), long-poll flags are updated and the page data is appended. |
| Pages.Page.AlignAndFinish | perftrackerlib/browser/page.py:443-498 | The steps before the grouping loop: the page fields become Completed, and the group values become ShiftedGroups by the alignment offset. |
| Pages.Page.Complete | perftrackerlib/browser/page.py:442-498 | The page fields end as Completed says. Existing groups stay in front, moved by the alignment offset. The group values are then PlaceAll of the moved groups over the non-long-poll requests sorted by start, and the members appended are exactly those requests in that order. |
| Stats.AddDeltas | perftrackerlib/browser/page.py:728-729 | Pointwise sum of two six-delta lists. |
| Stats.DeltaSums | perftrackerlib/browser/page.py:726-729 | Six column sums. |
| Stats.Averaged | perftrackerlib/browser/page.py:724-736 | The iteration count and six deltas. |
| Stats.DeltaSumBounds | perftrackerlib/browser/page.py:726-729 | If every sample's delta d lies in [lo, hi], the column sum lies in [n·lo, n·hi]. |
| Stats.DurSumBounds | perftrackerlib/browser/page.py:730 | The same for the duration sum. |
| Stats.TruncDivBetween | perftrackerlib/browser/page.py:733-734 | A truncated mean of values in [lo, hi] stays in [lo, hi]. |
| Stats.AverageDeltaBetween | perftrackerlib/browser/page.py:732-733 | Each averaged delta lies between the smallest and largest sample delta, so agreeing samples average to their common value. |
| Stats.AverageDurBetween | perftrackerlib/browser/page.py:734 | The averaged duration lies between the smallest and largest duration. |
| Stats.PageStats.constructor | perftrackerlib/browser/page.py:554-556 | No iterations, and the given id. |
| Stats.PageStats.AddIteration | perftrackerlib/browser/page.py:701-702 | The page's timeline, duration and RAM are recorded last. |
| Stats.PageStats.GetAvg | perftrackerlib/browser/page.py:718-736 | An empty argument falls back to the recorded iterations. None iff fewer than two. Otherwise the sums truncated-divided by the count. |
| MenuItems.TagClose | perftrackerlib/browser/cp_engine.py:28 | The first '>' from j before any newline, or −1. |
| MenuItems.RemoveHtmlTags | perftrackerlib/browser/cp_engine.py:28-32 | Never longer than the input. |
| MenuItems.NoTagsUnchanged | perftrackerlib/browser/cp_engine.py:28-32 | Text without '<' comes back unchanged. |
| MenuItems.TagCloseSkips | perftrackerlib/browser/cp_engine.py:28 | The lazy `.*?` stops at the first '>'. |
| MenuItems.TagCloseNone | perftrackerlib/browser/cp_engine.py:28 | With no '>' before the end of the line, `.*?>` finds no close. |
| MenuItems.TagAtFront | perftrackerlib/browser/cp_engine.py:28-32 | A leading tag is dropped whole. |
| MenuItems.KeepsFirst | perftrackerlib/browser/cp_engine.py:31-32 | A first character other than '<' is kept. |
| MenuItems.KeepsPlainPrefix | perftrackerlib/browser/cp_engine.py:31-32 | A prefix without '<' is kept and the rest is stripped. |
| MenuItems.RemovesShortestTag | perftrackerlib/browser/cp_engine.py:28-32 | Text a, then the tag <b>, then c: a is kept, the shortest tag is removed and c is stripped in turn. |
| MenuItems.KeepsUnclosed | perftrackerlib/browser/cp_engine.py:28-32 | The rest of a line that holds no '>' is kept, its '<'s included, because `.` does not match a newline; the text after the line is stripped in turn. |
| MenuItems.IndexOfKey | perftrackerlib/browser/cp_engine.py:96-99 | The position of a dict key, or −1 iff it is absent. |
| MenuItems.SetItem | perftrackerlib/browser/cp_engine.py:96-99 | `items[key] = [len(items), ...]`: a new key is appended with index len(items). An existing key keeps its place and the keys are unchanged. |
| MenuItems.ApplyAppend | perftrackerlib/browser/cp_engine.py:94-100 | Stores applied in two batches equal the stores applied at once. |
| MenuItems.Numbered | perftrackerlib/browser/cp_engine.py:96-99 | Entry i of fresh stores has index start + i. |
| MenuItems.StoreFresh | perftrackerlib/browser/cp_engine.py:96-99 | A fresh key is appended with index len(items). |
| MenuItems.ApplyFresh | perftrackerlib/browser/cp_engine.py:94-100 | Distinct fresh keys are appended in order, each indexed by its position. |
| MenuItems.InsertByIndex | perftrackerlib/browser/cp_engine.py:286 | Insertion into an index-sorted list keeps it sorted and adds exactly that entry. |
| MenuItems.SortByIndex | perftrackerlib/browser/cp_engine.py:286 | `sorted(..., key=x[0])` is sorted by index and a permutation. |
| MenuItems.SortByIndexStable | perftrackerlib/browser/cp_engine.py:286 | The sort is stable: for every index n, the entries with index n come out in their input order. |
| MenuItems.SortSortedIdentity | perftrackerlib/browser/cp_engine.py:286 | Sorting an already sorted list changes nothing. |
| MenuItems.TitlesAndTargets | perftrackerlib/browser/cp_engine.py:286 | The (title, target) pair of each entry, in order. |
| MenuItems.WalkKeepsStoreOrder | perftrackerlib/browser/cp_engine.py:282-286 | When no key is stored twice, the walk's result is exactly the stores' (title, target) pairs in the order they were made. |
| MenuItems.CPMenuItem.constructor | perftrackerlib/browser/cp_engine.py:46-63 | A child's title is parent title + " -> " + title. No children, an empty seen set, and the given level, link, xpath and flags. |
| MenuItems.CPMenuItem.IsScanned | perftrackerlib/browser/cp_engine.py:68-71 | Asked from any item, true iff the key is in the root's set. |
| MenuItems.CPMenuItem.MarkAsScanned | perftrackerlib/browser/cp_engine.py:73-77 | The root's set gains exactly the key. |
| MenuItems.CPMenuItem.AddChild | perftrackerlib/browser/cp_engine.py:79-88 | One fresh child is appended at the end of the children. Its level is one more, its title is title + " -> " + the title, and its flags are the parent's flags ANDed with the locator's. The root's set gains exactly the raw title and the link. |
| MenuItems.Emitted | perftrackerlib/browser/cp_engine.py:95-99 | The stores for a child are a url entry iff the parent's url flag is set, then a "link^xpath" DOM-click entry iff the parent's DOM flag is set and the child has an xpath. |
| MenuItems.ChildInTree | perftrackerlib/browser/cp_engine.py:94 | A child of a tree item is in the tree, created after its parent. |
| MenuItems.ChildStep | perftrackerlib/browser/cp_engine.py:94-100 | One loop turn: child i's stores, then its subtree's, then the rest. |
| MenuItems.ApplyEmitted | perftrackerlib/browser/cp_engine.py:95-99 | The two stores for one child, applied in order. |
| MenuItems.StoreChild | perftrackerlib/browser/cp_engine.py:95-99 | The dict after a child's stores. |
| MenuItems.GetItems | perftrackerlib/browser/cp_engine.py:90-101 | The dict after the pre-order stores of the whole subtree. |
| MenuItems.GetChildItems | perftrackerlib/browser/cp_engine.py:94-100 | One turn of the loop, as ChildStep. |
| MenuEngine.LinkOf | perftrackerlib/browser/cp_engine.py:219-220 | A missing href is replaced by the element's innerHTML. |
| MenuEngine.TitleOf | perftrackerlib/browser/cp_engine.py:224-233 | No title iff the title xpath finds nothing or an empty first element. Otherwise the tag-stripped innerHTML, which is always in the driver's finite title set. |
| MenuEngine.GetCurrentUrl | perftrackerlib/browser/cp_engine.py:123-126 | A non-empty url without "javascript" (any case) is kept. Otherwise the driver's current URL. |
| MenuEngine.FetchAt | perftrackerlib/browser/cp_engine.py:207-217 | A stale element makes the list be searched again. The list shrinking ends the loop; a second stale element raises. Otherwise the href comes from the new list. |
| MenuEngine.Screen | perftrackerlib/browser/cp_engine.py:224-244 | A candidate is clicked iff it has a title, the title is unseen, the link is not the void link and skip_menu_item declines. No title is the first rule. |
| MenuEngine.XpathStopsAtId | perftrackerlib/browser/cp_engine.py:140-150 | Ancestors above the first one with an id do not change the xpath. |
| MenuEngine.XpathEndsWithBelow | perftrackerlib/browser/cp_engine.py:135-154 | The built xpath ends with the part already built. |
| MenuEngine.XpathFrom | perftrackerlib/browser/cp_engine.py:135-154 | The built xpath is never shorter than the part below, and is longer iff there is an ancestor to write. |
| MenuEngine.LinkXpath | perftrackerlib/browser/cp_engine.py:131-155 | The link xpath starts with "//" and ends with "a". It is longer than "//a" iff the link has an ancestor. |
| MenuEngine.UnseenShrinks | perftrackerlib/browser/cp_engine.py:270-271 | Adding a fresh title shrinks the unseen-title count, the walk's termination measure. |
| MenuEngine.UnseenNoGrowth | perftrackerlib/browser/cp_engine.py:270-272 | Seeing more titles never increases the unseen count. |
| MenuEngine.Browser.constructor | perftrackerlib/browser/cp_engine.py:110-111 | The driver, the DOM state and an empty history. |
| MenuEngine.CPEngineBase.constructor | perftrackerlib/browser/cp_engine.py:110-118 | The root is a level-0 item titled with the engine type, with no link and the engine's flags. No current frame. |
| MenuEngine.CPEngineBase.GetCurrentXpath | perftrackerlib/browser/cp_engine.py:131-155 | The loop builds `//` + XpathFrom(ancestors, "a"), which ends in "a". |
| MenuEngine.CPEngineBase.SwitchToDefaultContent | perftrackerlib/browser/cp_engine.py:177-179 | No current frame. |
| MenuEngine.CPEngineBase.SwitchToFrame | perftrackerlib/browser/cp_engine.py:160-175 | Found iff a frame is named and it exists. No frame changes nothing. A named frame resets to the top document, then enters the frame if it was found. |
| MenuEngine.CPEngineBase.Consider | perftrackerlib/browser/cp_engine.py:219-273 | A screened-out candidate changes nothing. A BrowserExc click moves only the DOM. Any other click, including a WebDriverException, appends the current URL to the history, and the candidate is skipped iff that URL is already seen. |
| MenuEngine.CPEngineBase.Descend | perftrackerlib/browser/cp_engine.py:264-273 | A seen URL changes nothing. Otherwise exactly one child with the parent's level + 1, the arrowed title, the URL and the xpath is added, and the title and URL become seen. |
| MenuEngine.CPEngineBase.Explore | perftrackerlib/browser/cp_engine.py:271-272 | The walk goes into the child, then rescans the item; the tree, seen set and history only grow. |
| MenuEngine.CPEngineBase.MenuItemClick | perftrackerlib/browser/cp_engine.py:184-189 | The DOM moves to the state the driver's click gives. |
| MenuEngine.CPEngineBase.ScanLocator | perftrackerlib/browser/cp_engine.py:204-273 | The candidate loop with cursor i keeps the tree and seen set growing only, and terminates on a finite page. |
| MenuEngine.CPEngineBase.PopulateMenu | perftrackerlib/browser/cp_engine.py:191-196 | A level without locators changes nothing. Otherwise every locator is scanned in turn; the tree, seen set and history only grow. |
| MenuEngine.CPEngineBase.ScanInFrame | perftrackerlib/browser/cp_engine.py:196-201 | A missing frame skips the locator and changes nothing. After a scan in a frame, the engine is back at the top document. |
| MenuEngine.CPEngineBase.DoMenuWalk | perftrackerlib/browser/cp_engine.py:278-286 | On success, the (title, target) pairs of the tree's pre-order stores, sorted by insertion index. A failure is always the stale-element exception. |
| Crawler.DigitsEnd | perftrackerlib/browser/cp_crawler.py:328 | `\d+` is greedy: the end of the digit run. |
| Crawler.RangeAt | perftrackerlib/browser/cp_crawler.py:328 | `{digits-digits}` at p, with its positions. |
| Crawler.FirstRange | perftrackerlib/browser/cp_crawler.py:328 | The leftmost position where the range part matches. |
| Crawler.LineStart | perftrackerlib/browser/cp_crawler.py:328 | The start of p's line (`.` does not match a newline). |
| Crawler.LineEnd | perftrackerlib/browser/cp_crawler.py:328 | The end of the line from i. |
| Crawler.MatchRange | perftrackerlib/browser/cp_crawler.py:328 | `re.search`: both bounds are non-empty digit strings. |
| Crawler.DigitsEndAt | perftrackerlib/browser/cp_crawler.py:328 | The digit run ends at the first non-digit. |
| Crawler.FirstRangeSkips | perftrackerlib/browser/cp_crawler.py:328 | The search passes over positions without a match. |
| Crawler.MatchAt | perftrackerlib/browser/cp_crawler.py:328 | A range part with no '{' or newline before it and no newline after it gives the four groups around it. |
| Crawler.MatchOnLine | perftrackerlib/browser/cp_crawler.py:328 | The first range part on a single line gives its four groups. |
| Crawler.MatchRangeIs | perftrackerlib/browser/cp_crawler.py:328 | The groups are those around the first range part. |
| Crawler.LineStartFirst | perftrackerlib/browser/cp_crawler.py:328 | With no newline before p, the line starts at 0. |
| Crawler.LineEndLast | perftrackerlib/browser/cp_crawler.py:328 | With no newline after i, the line ends at the end of the text. |
| Crawler.MatchRangeOf | perftrackerlib/browser/cp_crawler.py:328 | `pfx{from-to}sfx` on one line, with no '{' in pfx, matches with exactly those groups. |
| Crawler.Reassemble | perftrackerlib/browser/cp_crawler.py:328 | A string cut at its '{', '-' and '}' reassembles. |
| Crawler.MatchOneLine | perftrackerlib/browser/cp_crawler.py:328 | On one line the groups are the text around the first range part. |
| Crawler.MatchRangeParts | perftrackerlib/browser/cp_crawler.py:328 | On one line a match splits the text into prefix{from-to}suffix, with no range part starting in the prefix. |
| Crawler.ParseNatLeadingZero | perftrackerlib/browser/cp_crawler.py:332 | `int` ignores a leading zero. |
| Crawler.UserNames | perftrackerlib/browser/cp_crawler.py:332-333 | hi − lo names (none when lo > hi), the k-th being pfx + str(lo + k) + sfx. |
| Crawler.MiddleEqual | perftrackerlib/browser/cp_crawler.py:333 | Equal strings with the same prefix and suffix have equal middles. |
| Crawler.UserNamesDistinct | perftrackerlib/browser/cp_crawler.py:332-333 | The names of a range are pairwise distinct. |
| Crawler.ExpandPiece | perftrackerlib/browser/cp_crawler.py:327-335 | A piece without '{' is kept as itself. An error only comes from a piece with '{', and carries the message. |
| Crawler.MalformedRefused | perftrackerlib/browser/cp_crawler.py:327-331 | A piece raises iff it holds '{' and `{digits-digits}` matches nowhere in it. |
| Crawler.ExpandsMatch | perftrackerlib/browser/cp_crawler.py:332-333 | A matching piece stands for the users from..to inclusive. |
| Crawler.ExpandsRange | perftrackerlib/browser/cp_crawler.py:327-333 | `pfx{a-b}sfx` expands to pfx + str(n) + sfx for n = a..b ascending. |
| Crawler.LeadingZeroLost | perftrackerlib/browser/cp_crawler.py:332 | A leading zero in the lower bound is lost: `u{01-3}` expands as `u{1-3}`. |
| Crawler.PiecesAppend | perftrackerlib/browser/cp_crawler.py:325-326 | The comma pieces of two argument lists concatenate. |
| Crawler.ErrorSticks | perftrackerlib/browser/cp_crawler.py:329-331 | Once a piece raised, later pieces change nothing. |
| Crawler.FirstBadPieceDecides | perftrackerlib/browser/cp_crawler.py:325-331 | The expansion fails iff some piece fails, and then the first failing piece gives the error. |
| Crawler.PlainPiecesKept | perftrackerlib/browser/cp_crawler.py:334-335 | Pieces without '{' are appended verbatim in order. |
| Crawler.PlainArgumentsKept | perftrackerlib/browser/cp_crawler.py:324-336 | Arguments without '{' give exactly their comma pieces. |
| Crawler.AddPiece | perftrackerlib/browser/cp_crawler.py:327-335 | The loop for one piece extends the users by ExpandPiece, or raises its error. |
| Crawler.ExpandPiecesNext | perftrackerlib/browser/cp_crawler.py:326 | One more piece extends the users by that piece's users. |
| Crawler.PiecesNext | perftrackerlib/browser/cp_crawler.py:325-326 | One more argument adds its comma pieces at the end. |
| Crawler.ExpandPieces | perftrackerlib/browser/cp_crawler.py:326-335 | Every user produced comes from the expansion of one of the pieces. |
| Crawler.GenUsersOf | perftrackerlib/browser/cp_crawler.py:320-336 | None iff there are no arguments. An error names a comma piece that holds "{". |
| Crawler.GenUsers | perftrackerlib/browser/cp_crawler.py:320-336 | None for no arguments. Otherwise the nested loops give GenUsersOf: every piece expanded in order, or the first error. |
| Crawler.ErrorAfter | perftrackerlib/browser/cp_crawler.py:329-331 | A failing piece of argument i fails the whole call. |
| Crawler.PiecesAround | perftrackerlib/browser/cp_crawler.py:325-326 | The pieces before, of and after argument i. |
| Crawler.PiecesCut | perftrackerlib/browser/cp_crawler.py:325-326 | The pieces of a list cut in two. |
| Crawler.ErrorInPart | perftrackerlib/browser/cp_crawler.py:329-331 | An error in a part survives whatever follows it. |
| Crawler.UserFor | perftrackerlib/browser/cp_crawler.py:68 | None iff there are no users. Otherwise one of the users. |
| Crawler.UsersInTurn | perftrackerlib/browser/cp_crawler.py:68 | Browsers 1..n take users 1..n in order. |
| Crawler.UsersRepeat | perftrackerlib/browser/cp_crawler.py:68 | The assignment repeats every n browsers. |
| Crawler.BrowserZeroTakesLast | perftrackerlib/browser/cp_crawler.py:68 | Browser 0 takes the last user (Python's `%` is never negative). |
| Crawler.ModUnique | perftrackerlib/browser/cp_crawler.py:68 | A quotient and remainder in range determine `%`. |
| Crawler.SelectBrowser | perftrackerlib/browser/cp_crawler.py:70-74 | The first browser class whose engine is the one asked for, or BROWSERS[0] when none is. |
| Crawler.SearchFrame | perftrackerlib/browser/cp_crawler.py:114-115 | The frame searched is the locator's frame iff it is unnamed or exists; otherwise the top document. |
| Crawler.FirstDetected | perftrackerlib/browser/cp_crawler.py:106-120 | The first engine that detects the page, or the count when none does. |
| Crawler.ProbeLocators | perftrackerlib/browser/cp_crawler.py:112-118 | Hit iff some level-0 locator's link xpath finds an element in the frame it is searched in. The engine is back at the top document afterwards. |
| Crawler.FirstDetectedIs | perftrackerlib/browser/cp_crawler.py:106-120 | An index before which nothing detects and at which the engine detects is FirstDetected. |
| Crawler.CPBrowserRunner.constructor | perftrackerlib/browser/cp_crawler.py:61-74 | The user is UserFor(users, browser_id). The search loop picks SelectBrowser's class. |
| Crawler.CPBrowserRunner.DetectCpType | perftrackerlib/browser/cp_crawler.py:106-120 | None iff no engine detects the page. Otherwise a fresh engine of the first detecting kind, back at the top document. |
| Crawler.CPCrawler.constructor | perftrackerlib/browser/cp_crawler.py:313-318 | No options yet. |
| Crawler.CPCrawler.InitOpts | perftrackerlib/browser/cp_crawler.py:442-445 | The options `crawl` reads are set. |
| Crawler.CPCrawler.Crawl | perftrackerlib/browser/cp_crawler.py:439-449 | No options raises. A bad user range raises its error. More than one user and more users than browsers raises the count error. Otherwise the engines (CPEngineBase alone when none) and the users. |
| Crawler.EveryUserGetsABrowser | perftrackerlib/browser/cp_crawler.py:447-449 | When crawl accepts several users, browsers 1..real_browsers between them take every user. |
| Client.OrElse | lib/perftracker_client.py:83 | `x if x else fallback`. |
| Client.Names | lib/perftracker_client.py:36 | The attribute names, in order. |
| Client.Put | lib/perftracker_client.py:42 | OrderedDict store: a new key goes last; a known key keeps its place. |
| Client.Encoded | lib/perftracker_client.py:36-43 | Never longer than the object's attributes. |
| Client.EncodedAppend | lib/perftracker_client.py:36-43 | Encoding distributes over concatenation, so kept attributes keep their order. |
| Client.EncodedMembers | lib/perftracker_client.py:36-43 | An attribute is emitted iff it is the object's, public and truthy. |
| Client.EncodedOmits | lib/perftracker_client.py:37-41 | A name starting with "_" or a falsy value is never emitted. |
| Client.EncodedIdempotent | lib/perftracker_client.py:36-43 | Encoding an encoding changes nothing. |
| Client.EncodedNames | lib/perftracker_client.py:36-43 | Every emitted name is one of the object's. |
| Client.NamesAppend | lib/perftracker_client.py:36 | The names of two attribute lists concatenate. |
| Client.Default | lib/perftracker_client.py:27-43 | The loop builds exactly Encoded(attrs). |
| Client.TestDefaults | lib/perftracker_client.py:72-88 | uuid, begin and end are filled when missing; links default to {}. Nothing else changes. |
| Client.ValidateTest | lib/perftracker_client.py:96-106 | Passes iff links, errors, warnings, scores, loops, deviations, begin and end have the types checked, deviations come with equally many scores, and status is one of the five statuses. |
| Client.DefaultTestValid | lib/perftracker_client.py:47-106 | `ptTest(tag)` with defaults always validates. |
| Client.TestRefusals | lib/perftracker_client.py:101-106 | An unknown status, deviations without scores, and float loops are refused. |
| Client.PtTest.constructor | lib/perftracker_client.py:71-92 | seq_num 1, the defaulted arguments, and the raw begin and end kept as `_auto_begin`/`_auto_end`. |
| Client.PtTest.Attributes | lib/perftracker_client.py:71-92 | The `__dict__` has distinct names. |
| Client.NewTest | lib/perftracker_client.py:47-106 | No test iff validation fails. Otherwise a fresh test with seq_num 1 and the defaulted arguments. |
| Client.EncodedTest | lib/perftracker_client.py:71-92 | A valid test emits its status and a non-zero seq_num, and never its `_auto_*` fields. |
| Client.Times1024 | lib/perftracker_client.py:138 | `x * 1024` for int, float and bool; None raises TypeError. |
| Client.RamMbOf | lib/perftracker_client.py:138 | ram_mb when truthy; otherwise ram_gb × 1024. |
| Client.ValidateNode | lib/perftracker_client.py:146-150 | Passes iff cpus, ram_mb and disk_gb are None or int and links is None or a dict. |
| Client.RamInGigabytes | lib/perftracker_client.py:127-150 | Whole gigabytes build a node with gb·1024 MB. A float or None ram_gb is refused. |
| Client.PtEnvNode.constructor | lib/perftracker_client.py:129-144 | The given fields, a fresh uuid, links defaulting to {} and no children. |
| Client.PtEnvNode.AddNode | lib/perftracker_client.py:152-155 | The node is appended to the children and returned. |
| Client.PtEnvNode.Attributes | lib/perftracker_client.py:129-144 | The `__dict__` has distinct names. |
| Client.NewEnvNode | lib/perftracker_client.py:127-150 | A node is built iff the RAM is computable and validation passes. Its ram_mb is RamMbOf and its links default to {}. |
| Client.NewComponentAsWritten | lib/perftracker_client.py:177-182 | As written, the component always has empty links, its own version and node type "service". |
| Client.NewComponent | lib/perftracker_client.py:177-182 | With links passed on, the component keeps its links. |
| Client.ComponentLinks | lib/perftracker_client.py:177-182 | The links a component ends with, with and without forwarding. |
| Client.ComponentDropsLinks | lib/perftracker_client.py:177-182 | A component given a link loses it as written and keeps it when it is forwarded. |
| Client.Handled | lib/perftracker_client.py:298-308 | The options are kept. pt_uuid, pt_title and pt_version override when given. The project name comes from pt_project only when it is unset. |
| Client.HandledIdempotent | lib/perftracker_client.py:298-308 | Handling the same options twice changes nothing more. |
| Client.GenApiUrl | lib/perftracker_client.py:258-261 | Fails iff options or pt_url are missing. Otherwise `<pt_url>/api/v1.0/<path>`. |
| Client.GenApiUrlInjective | lib/perftracker_client.py:258-261 | Different paths give different URLs. |
| Client.PtSuite.constructor | lib/perftracker_client.py:192-229 | The given fields. The quoted argv when there is no cmdline, a generated uuid when there is none, and no nodes, tests or options. |
| Client.PtSuite.AddNode | lib/perftracker_client.py:236-239 | The node is appended to the environment and returned. |
| Client.PtSuite.AddLink | lib/perftracker_client.py:241-246 | The name maps to the url, replacing an earlier one. Other links are kept. |
| Client.PtSuite.AddTest | lib/perftracker_client.py:248-251 | The test is appended with seq_num = previous count + 1. A new test keeps the suite numbered 1..n, and re-adding a test breaks the numbering. |
| Client.PtSuite.HandleOptions | lib/perftracker_client.py:298-308 | The settings become Handled. Tests, nodes and links are unchanged. |
| Client.PtSuite.ApiUrl | lib/perftracker_client.py:258-261 | `_genApiUrl` on the suite's options: succeeds iff options with a pt_url are set. |
| Py.Lower | perftrackerlib/browser/cp_engine.py:124 | `lower()` keeps the length and lowers each ASCII letter in place. |
| Py.Find | perftrackerlib/browser/cp_engine.py:124 | `find` is −1 iff the substring does not occur. Otherwise the substring occurs there and at no earlier position. |
| Py.BeforeFirst | perftrackerlib/browser/page.py:506 | `split(sep)[0]` is a prefix of the string that ends exactly at the first occurrence of sep, or the whole string when sep does not occur. |
| Py.Split | perftrackerlib/browser/cp_crawler.py:326 | `split(c)` gives at least one piece, and no piece holds c. |
| Py.JoinSplit | perftrackerlib/browser/cp_crawler.py:326 | Joining the pieces of `split(c)` with c gives back the string. |
| Py.ParseNat | perftrackerlib/browser/cp_crawler.py:332 | `int(s)` on ASCII digits is 0 iff every digit is 0. |
| Py.NatToString | perftrackerlib/browser/cp_crawler.py:333 | `str(n)` is a non-empty string of digits without a leading zero. |
| Py.ParseNatToString | perftrackerlib/browser/cp_crawler.py:332-333 | `int(str(n)) == n`. |
| Py.TruncDiv | perftrackerlib/browser/page.py:224 | `int(a / n)` truncates toward zero: for a ≥ 0, q·n ≤ a < q·n + n; for a < 0, q·n − n < a ≤ q·n. |

## Left out

- Selenium and the browser are an oracle (the `Driver` datatype over an abstract DOM state). This covers element searches, attribute reads, frame switching, clicks and waiting for staleness. The browser's RAM usage and navigation timeline are parameters of `Complete`.
- `get_current_xpath` walks an abstract list of ancestors, nearest first. The driver's `..` traversal and the `if not link_el` guard are not modelled.
- The `ElementNotVisibleException` branch of `_populate_menu` is unreachable: Selenium's `ElementNotVisibleException` is a subclass of `WebDriverException`, which is caught first. It is not modelled.
- Termination of the menu walk assumes a finite page. Element lists are bounded by `maxElements`, and every title comes from the finite set `titles` (`DriverOk`). A driver that breaks either is outside the model.
- MenuEngine.CPEngineBase.ScanLocator, PopulateMenu and Explore: beyond the growth invariant, their contracts do not state the whole resulting tree. That tree depends on the whole oracle run. The single-step contracts of Consider and Descend state the per-candidate rules.
- Logging, `print` calls and report formatting are not modelled. This covers `print_page_requests_stats`, `print_page_req_groups_stats`, `print_summary`, `print_page_timeline*` and `TextTable`.
- `Page.serialize`/`deserialize` (pickle, base64 and the text format), `__deepcopy__` and `PageRequest.duplicate` are not modelled. They are library copies and encodings.
- `time.time()` defaults in `start`/`complete` are not modelled. Timestamps are always passed in.
- Pages.Page.AppendPageData treats `data` as text. The UTF-8 decoding of bytes data is not modelled.
- Stats.Averaged computes the RAM average as an exact real quotient. Python's float division and rounding are not modelled.
- `get_foreign_reqs` and `get_common_url_prefix` are not modelled. They depend on `parse_url` from a utils module that is not part of this model.
- `PageEvent` is not modelled. It refers to an undefined `args` and an unimported `json`.
- `validate_response` and `update_netloc` are not modelled. They are re-execution helpers that depend on `parse_url` and `BrowserExc`.
- Pages.Page.MoveToClock treats an unset page start as 0 when the page has requests. In Python that case is logged as a bug and then raises `TypeError` (page.py:454-456).
- Pages.Page.Complete puts the page data step before the grouping step. Neither step reads what the other writes.
- Pages.Page.Complete: the group members are compared by value, because requests are values here. Python's groups share the request objects with the page. Whether the sharing is observable after completion is not modelled.
- Requests.PrettyType: the contract states the script rule and the pass-through rule. The stylesheet, image and Document fallbacks are in its body but not in its ensures.
- Requests.CheckLongPoll changes the request value, not a shared object. `get_incomplete_reqs`, which sets the sticky flag as a side effect, is modelled without that side effect.
- The orchestration of `cp_crawler.py` is not modelled: `CPBrowserRunner.init`/`run`/`_run`/`fini`, processes, queues, polling, stdout redirection, `add_options`, the file reading in `init_opts` and the random shuffle. `CPCrawler.InitOpts` only stores the options `crawl` reads.
- Crawler.CPBrowserRunner.DetectCpType models an engine's `init_context` as a function of the DOM state.
- `upload`, `toJson` and `addOptions` are not modelled. They do HTTP, file output and JSON serialisation.
- `uuid.uuid1()`, `datetime.now()` and `pipes.quote(sys.argv)` are not modelled. They are parameters (`newUuid`, `now`, `argv`).
- Client.Default covers the encoder's object branch only. The `datetime`/`UUID` branches and the `json.dumps` fallback are not modelled.
- Client.PtSuite.constructor does not model the suite's `begin`, `end`, `_auto_end` and `_id2node` fields, or `ptSuite.validate`'s type checks on `begin`, `end` and `links` (perftracker_client.py:215-234). Only `toJson` and `upload` read those fields, and both are left out (above). The `links` the model takes is already a dictionary.
- Client.PtSuite.AddLink: `str(name)` and `str(url)` are the identity on the strings the model takes. Other argument types are not modelled.
- Client.PtSuite.AddNode and Client.PtEnvNode.AddNode take a `PtEnvNode`, so the `isinstance` assertion holds by typing. Client.PtSuite.AddTest takes a `PtTest` for the same reason.
- `ptTest.execute` is not modelled, because it always raises first. `ptHost`, `ptVM` and `ptProduct` are not modelled; they only set fields.
- Pages.MaxEnd and Pages.Page.SettleEnd read a request that never completed (its `ts_end` is None, page.py:126) as 0. In Python 3, `max(ends)` over such a None mixed with ints raises TypeError (page.py:444-445).
- Pages.ShiftRequest and Pages.Page.ShiftRequestsBy read an unset request start as 0. In Python 3, `r.ts_start += offt` on a None start raises TypeError (page.py:466).
- Pages.Page.FinishRequests and Pages.Finished compute `ts_end - ts_start` with an unset page start read as 0. Without a real navigation that start can still be None, and Python 3 then raises TypeError (page.py:486).
- Pages.SortByStart sorts an unset start as 0. In Python 3, `sorted(key=ts_start)` raises TypeError as soon as it compares a None start with an int or with another None (page.py:488).
- RequestGroups.PageRequestsGroup.AddRequest reads a request that never started (its `ts_start` is None, page.py:125) as starting at 0, so a group whose start is set rejects it. In Python 3, `self.ts_start <= request.ts_start` then raises TypeError instead (page.py:99).
- Timelines.NewTimeline reads an unset page start (`ts_start` is None until `start()`, page.py:259) as 0. So a page with an end, whose timeline gives no `ajaxEnd`, gets `ajaxEnd = pageEnd + navStrt`. In Python 3, `page.ts_end - page.ts_start` then raises TypeError (page.py:53).
- Requests.CompleteAt reads an unset request start (page.py:125) as 0 and gives `dur == ts`. In Python 3, `self.ts_end - self.ts_start` then raises TypeError (page.py:197).
- Pages.ShiftedGroups, Pages.Page.ShiftGroupsBy and Pages.Page.ShiftEach move an unset group bound from 0 to `offt`. A group opened by a request that never started has a None start and a None end (page.py:81-82), and in Python 3 `g.ts_start += offt` then raises TypeError (page.py:476-477).
- Pages.GroupingIsGreedy requires every grouped request to have a set start and a non-negative duration. With an unset start the sort raises in Python (the line above), and a negative duration needs an end before the start.
- Py.IsDigit and Py.ParseNat accept ASCII `0`-`9` only. Python 3's `\d` (cp_crawler.py:328) and `int()` also accept other Unicode decimal digits.
- Client.Times1024 refuses a str or list `ram_gb` with TypeError. Python's `x * 1024` repeats such a value instead, and `validate` then refuses the node because `ram_mb` is not an int, so only the reason for the refusal differs.
- Stats.PageStats.AddIteration records a snapshot of the page's timeline, duration and RAM usage. Python appends the page object itself, so later changes to that page would show in the statistics; that aliasing is not modelled.

## Findings

| source | as written | input that shows it | evidently intended | confidence | as-written member | corrected member |
|---|---|---|---|---|---|---|
| perftrackerlib/browser/page.py:343-344 | `get_error_reqs` calls `r.is_ok()`, but the method is defined as `is_oK` (page.py:220), so it raises AttributeError | a page with one request | the requests for which `is_oK` is false | high (not executed) | Pages.Page.GetErrorReqsAsWritten | Pages.Page.GetErrorReqs |
| lib/perftracker_client.py:177-182 | `ptComponent.__init__` takes `links` in its own signature and does not pass it on to `ptEnvNode.__init__`, so every component's links are `{}` | `ptComponent("db", links={"logs": "http://x"})` | the component keeps the links it was given | high (not executed) | Client.NewComponentAsWritten | Client.NewComponent |
