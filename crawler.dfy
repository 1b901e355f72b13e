/**
 * The control-panel crawler's bookkeeping: expanding the `--user` arguments,
 * the user and browser class each browser runner gets, the check `crawl`
 * makes before it starts any browser, and the detection of which control
 * panel engine a page belongs to.
 */
module Crawler {
  import opened Wrappers
  import opened Py
  import opened MenuItems
  import opened MenuEngine

  // ---------------------------------------------------------------------------
  // _gen_users: the pattern `(?P<pfx>.*?){(?P<from>\d+)-(?P<to>\d+)}(?P<sfx>.*)`

  /** The end of the run of digits that starts at i. */
  function DigitsEnd(u: string, i: nat): (j: nat)
    requires i <= |u|
    ensures i <= j <= |u| && (j == |u| || !IsDigit(u[j]))
    ensures forall m :: i <= m < j ==> IsDigit(u[m])
    decreases |u| - i
  {
    if i == |u| || !IsDigit(u[i]) then i else DigitsEnd(u, i + 1)
  }

  /** Where `{from-to}` matches: the positions of its '{', '-' and '}'. */
  datatype Range = Range(open: nat, dash: nat, close: nat)

  /**
   * The range part of the pattern at p: '{', one or more digits, '-', one or
   * more digits, '}'. A digit run cannot give back a character, so the match
   * at p is unique.
   */
  function RangeAt(u: string, p: nat): (r: Option<Range>)
    requires p <= |u|
    ensures r.Some? ==>
              && r.value.open == p && p + 1 < r.value.dash && r.value.dash + 1 < r.value.close < |u|
              && u[p] == '{' && u[r.value.dash] == '-' && u[r.value.close] == '}'
              && (forall m :: p < m < r.value.dash ==> IsDigit(u[m]))
              && (forall m :: r.value.dash < m < r.value.close ==> IsDigit(u[m]))
  {
    if p == |u| || u[p] != '{' then None
    else
      var dash := DigitsEnd(u, p + 1);
      if dash == p + 1 || dash == |u| || u[dash] != '-' then None
      else
        var close := DigitsEnd(u, dash + 1);
        if close == dash + 1 || close == |u| || u[close] != '}' then None
        else Some(Range(p, dash, close))
  }

  /** The first position from p on where the range part matches. */
  function FirstRange(u: string, p: nat): (r: Option<Range>)
    requires p <= |u|
    ensures r.Some? ==> p <= r.value.open <= |u| && RangeAt(u, r.value.open) == r
    ensures r.Some? ==> forall q :: p <= q < r.value.open ==> RangeAt(u, q).None?
    ensures r.None? ==> forall q :: p <= q <= |u| ==> RangeAt(u, q).None?
    decreases |u| - p
  {
    if p == |u| then None
    else if RangeAt(u, p).Some? then RangeAt(u, p)
    else FirstRange(u, p + 1)
  }

  /** The start of the line holding position p: just after the last newline before it. */
  function LineStart(u: string, p: nat): (s: nat)
    requires p <= |u|
    ensures s <= p && (s == 0 || u[s - 1] == '\n')
    ensures forall m :: s <= m < p ==> u[m] != '\n'
  {
    if p == 0 || u[p - 1] == '\n' then p else LineStart(u, p - 1)
  }

  /** The end of the line from position i on: the first newline, or the end. */
  function LineEnd(u: string, i: nat): (e: nat)
    requires i <= |u|
    ensures i <= e <= |u| && (e == |u| || u[e] == '\n')
    ensures forall m :: i <= m < e ==> u[m] != '\n'
    decreases |u| - i
  {
    if i == |u| || u[i] == '\n' then i else LineEnd(u, i + 1)
  }

  /** The groups of a users range: prefix, bounds and suffix. */
  datatype UserRange = UserRange(pfx: string, from: string, to: string, sfx: string)

  /**
   * `re.search` with the users-range pattern. The leftmost match starts at the
   * line of the first range part ('.' does not match a newline, so an earlier
   * start cannot reach it); the lazy prefix stops at that range part, and the
   * greedy suffix runs to the end of the line.
   */
  function MatchRange(u: string): (m: Option<UserRange>)
    ensures m.Some? ==>
              && |m.value.from| > 0 && AllDigits(m.value.from)
              && |m.value.to| > 0 && AllDigits(m.value.to)
  {
    match FirstRange(u, 0)
    case None => None
    case Some(r) => Some(Groups(u, r))
  }

  /** The groups around the range part r: its line before it, the bounds, its line after it. */
  function Groups(u: string, r: Range): UserRange
    requires r.open < r.dash < r.close < |u|
  {
    GroupsWithin(u, r, LineStart(u, r.open), LineEnd(u, r.close + 1))
  }

  /** The groups around the range part r, within the line from s to e. */
  function GroupsWithin(u: string, r: Range, s: nat, e: nat): UserRange
    requires s <= r.open < r.dash < r.close < e <= |u|
  {
    UserRange(u[s..r.open], u[r.open + 1..r.dash], u[r.dash + 1..r.close], u[r.close + 1..e])
  }

  /** DigitsEnd stops at the first non-digit. */
  lemma DigitsEndAt(u: string, i: nat, j: nat)
    requires i <= j <= |u| && (j == |u| || !IsDigit(u[j]))
    requires forall m :: i <= m < j ==> IsDigit(u[m])
    ensures DigitsEnd(u, i) == j
  {
  }

  /** The search passes over positions where no range part matches. */
  lemma FirstRangeSkips(u: string, q: nat, p: nat)
    requires q <= p <= |u| && RangeAt(u, p).Some?
    requires forall m :: q <= m < p ==> RangeAt(u, m).None?
    ensures FirstRange(u, q) == RangeAt(u, p)
  {
  }

  /**
   * A range part at p with no '{' and no newline before it, and no newline
   * after it: the groups are the text before, the two bounds and the text after.
   */
  lemma MatchAt(u: string, p: nat, dash: nat, close: nat)
    requires p <= |u| && RangeAt(u, p) == Some(Range(p, dash, close))
    requires forall m :: 0 <= m < p ==> u[m] != '{' && u[m] != '\n'
    requires forall m :: close < m < |u| ==> u[m] != '\n'
    ensures MatchRange(u) == Some(UserRange(u[..p], u[p + 1..dash], u[dash + 1..close], u[close + 1..]))
  {
    forall m | 0 <= m < p
      ensures RangeAt(u, m).None?
    {
    }
    FirstRangeSkips(u, 0, p);
    MatchOnLine(u, p, dash, close);
  }

  /** The first range part, with no newline before or after it, gives the four groups. */
  lemma MatchOnLine(u: string, p: nat, dash: nat, close: nat)
    requires p < dash < close < |u| && FirstRange(u, 0) == Some(Range(p, dash, close))
    requires forall m :: 0 <= m < p ==> u[m] != '\n'
    requires forall m :: close < m < |u| ==> u[m] != '\n'
    ensures MatchRange(u) == Some(UserRange(u[..p], u[p + 1..dash], u[dash + 1..close], u[close + 1..]))
  {
    MatchRangeIs(u, p, dash, close);
    LineGroups(u, p, dash, close);
  }

  /** With no newline before or after the range part, its groups are the text around it. */
  lemma LineGroups(u: string, p: nat, dash: nat, close: nat)
    requires p < dash < close < |u|
    requires forall m :: 0 <= m < p ==> u[m] != '\n'
    requires forall m :: close < m < |u| ==> u[m] != '\n'
    ensures Groups(u, Range(p, dash, close)) == UserRange(u[..p], u[p + 1..dash], u[dash + 1..close], u[close + 1..])
  {
    var r := Range(p, dash, close);
    LineStartFirst(u, p);
    LineEndLast(u, close + 1);
    assert Groups(u, r) == GroupsWithin(u, r, 0, |u|);
    WholeLineGroups(u, r);
  }

  /** The groups within the whole text are the text around the range part. */
  lemma WholeLineGroups(u: string, r: Range)
    requires r.open < r.dash < r.close < |u|
    ensures GroupsWithin(u, r, 0, |u|) == UserRange(u[..r.open], u[r.open + 1..r.dash], u[r.dash + 1..r.close], u[r.close + 1..])
  {
    assert u[0..r.open] == u[..r.open] && u[r.close + 1..|u|] == u[r.close + 1..];
  }

  /** The groups of the first range part: its line's text before it, its bounds, its line's text after it. */
  lemma MatchRangeIs(u: string, p: nat, dash: nat, close: nat)
    requires FirstRange(u, 0) == Some(Range(p, dash, close))
    ensures p < dash < close < |u|
    ensures MatchRange(u) == Some(Groups(u, Range(p, dash, close)))
  {
  }

  /** With no newline before p, p's line starts the text. */
  lemma LineStartFirst(u: string, p: nat)
    requires p <= |u| && forall m :: 0 <= m < p ==> u[m] != '\n'
    ensures LineStart(u, p) == 0
  {
  }

  /** With no newline from i on, i's line ends the text. */
  lemma LineEndLast(u: string, i: nat)
    requires i <= |u| && forall m :: i <= m < |u| ==> u[m] != '\n'
    ensures LineEnd(u, i) == |u|
  {
  }

  /**
   * Text laid out as the pattern describes, with a prefix free of '{' and
   * newlines and a suffix free of newlines, gives back its four groups.
   */
  lemma MatchRangeOf(pfx: string, from: string, to: string, sfx: string)
    requires '{' !in pfx && '\n' !in pfx && '\n' !in sfx
    requires |from| > 0 && AllDigits(from) && |to| > 0 && AllDigits(to)
    ensures MatchRange(pfx + "{" + from + "-" + to + "}" + sfx) == Some(UserRange(pfx, from, to, sfx))
  {
    var u := pfx + "{" + from + "-" + to + "}" + sfx;
    var p := |pfx|;
    var dash := p + 1 + |from|;
    var close := dash + 1 + |to|;
    assert u[..p] == pfx;
    assert u[p + 1..dash] == from;
    assert u[dash + 1..close] == to;
    assert u[close + 1..] == sfx;
    assert u[p] == '{' && u[dash] == '-' && u[close] == '}';
    forall m | p < m < dash
      ensures IsDigit(u[m])
    {
      assert u[m] == from[m - p - 1];
    }
    forall m | dash < m < close
      ensures IsDigit(u[m])
    {
      assert u[m] == to[m - dash - 1];
    }
    DigitsEndAt(u, p + 1, dash);
    DigitsEndAt(u, dash + 1, close);
    forall m | 0 <= m < p
      ensures u[m] != '{' && u[m] != '\n'
    {
      assert u[m] == pfx[m];
    }
    forall m | close < m < |u|
      ensures u[m] != '\n'
    {
      assert u[m] == sfx[m - close - 1];
    }
    MatchAt(u, p, dash, close);
  }

  /** A string cut around its '{', '-' and '}' and put back together. */
  lemma Reassemble(u: string, o: nat, d: nat, c: nat)
    requires o < d < c < |u| && u[o] == '{' && u[d] == '-' && u[c] == '}'
    ensures u == u[..o] + "{" + u[o + 1..d] + "-" + u[d + 1..c] + "}" + u[c + 1..]
  {
    assert u[..o] + "{" == u[..o + 1];
    assert u[..o + 1] + u[o + 1..d] == u[..d];
    assert u[..d] + "-" == u[..d + 1];
    assert u[..d + 1] + u[d + 1..c] == u[..c];
    assert u[..c] + "}" == u[..c + 1];
    assert u[..c + 1] + u[c + 1..] == u;
  }

  /** On one line, the groups are the text around the first range part and its bounds. */
  lemma MatchOneLine(u: string, p: nat, dash: nat, close: nat)
    requires '\n' !in u && FirstRange(u, 0) == Some(Range(p, dash, close))
    ensures p < dash < close < |u|
    ensures MatchRange(u) == Some(UserRange(u[..p], u[p + 1..dash], u[dash + 1..close], u[close + 1..]))
  {
    assert RangeAt(u, p) == Some(Range(p, dash, close));
    MatchOnLine(u, p, dash, close);
  }

  /**
   * On one line, a match splits the text into its four groups around the
   * range, and no range part starts inside the prefix.
   */
  lemma MatchRangeParts(u: string, m: UserRange)
    requires '\n' !in u && MatchRange(u) == Some(m)
    ensures u == m.pfx + "{" + m.from + "-" + m.to + "}" + m.sfx
    ensures forall q :: 0 <= q < |m.pfx| ==> RangeAt(u, q).None?
  {
    var r := MatchCut(u);
    ReassembleGroups(u, r, m);
    NoRangeBefore(u, r);
  }

  /** The range part a one-line match cuts the text at. */
  lemma MatchCut(u: string) returns (r: Range)
    requires '\n' !in u && FirstRange(u, 0).Some?
    ensures FirstRange(u, 0) == Some(r)
    ensures r.open < r.dash < r.close < |u| && u[r.open] == '{' && u[r.dash] == '-' && u[r.close] == '}'
    ensures MatchRange(u) == Some(UserRange(u[..r.open], u[r.open + 1..r.dash], u[r.dash + 1..r.close], u[r.close + 1..]))
  {
    r := FirstRange(u, 0).value;
    MatchOneLine(u, r.open, r.dash, r.close);
  }

  /** No range part starts before the first one. */
  lemma NoRangeBefore(u: string, r: Range)
    requires FirstRange(u, 0) == Some(r)
    ensures forall q :: 0 <= q < r.open ==> RangeAt(u, q).None?
  {
  }

  /** The groups around a range part put back together give the text. */
  lemma ReassembleGroups(u: string, r: Range, m: UserRange)
    requires r.open < r.dash < r.close < |u| && u[r.open] == '{' && u[r.dash] == '-' && u[r.close] == '}'
    requires m == UserRange(u[..r.open], u[r.open + 1..r.dash], u[r.dash + 1..r.close], u[r.close + 1..])
    ensures u == m.pfx + "{" + m.from + "-" + m.to + "}" + m.sfx && |m.pfx| == r.open
  {
    Reassemble(u, r.open, r.dash, r.close);
  }

  /** `int` drops a leading zero. */
  lemma {:induction false} ParseNatLeadingZero(s: string)
    requires AllDigits(s)
    ensures AllDigits("0" + s) && ParseNat("0" + s) == ParseNat(s)
    decreases |s|
  {
    if s != [] {
      var t := "0" + s;
      assert t[..|t| - 1] == "0" + s[..|s| - 1];
      assert t[|t| - 1] == s[|s| - 1];
      ParseNatLeadingZero(s[..|s| - 1]);
    }
  }

  // ---------------------------------------------------------------------------
  // _gen_users: the expansion

  /** `[pfx + str(n) + sfx for n in range(lo, hi)]`. */
  function UserNames(pfx: string, lo: nat, hi: nat, sfx: string): (names: seq<string>)
    ensures |names| == if lo <= hi then hi - lo else 0
    ensures forall k :: 0 <= k < |names| ==> names[k] == pfx + NatToString(lo + k) + sfx
  {
    if hi <= lo then [] else seq(hi - lo, k requires 0 <= k < hi - lo => pfx + NatToString(lo + k) + sfx)
  }

  /** The middle of two strings with the same prefix and suffix decides their equality. */
  lemma MiddleEqual(p: string, a: string, b: string, s: string)
    requires p + a + s == p + b + s
    ensures a == b
  {
    var x := p + a + s;
    var y := p + b + s;
    assert |a| == |b|;
    assert x[|p|..|p| + |a|] == a;
    assert y[|p|..|p| + |b|] == b;
  }

  /** The names of a range are pairwise distinct: `str` is one-to-one. */
  lemma UserNamesDistinct(pfx: string, lo: nat, hi: nat, sfx: string)
    ensures var names := UserNames(pfx, lo, hi, sfx);
            forall i, j :: 0 <= i < j < |names| ==> names[i] != names[j]
  {
    var names := UserNames(pfx, lo, hi, sfx);
    forall i, j | 0 <= i < j < |names|
      ensures names[i] != names[j]
    {
      if names[i] == names[j] {
        MiddleEqual(pfx, NatToString(lo + i), NatToString(lo + j), sfx);
        ParseNatToString(lo + i);
        ParseNatToString(lo + j);
      }
    }
  }

  /** The message `_gen_users` raises for a piece it cannot parse. */
  function RangeError(u: string): string {
    "can't parse users range from '" + u + "',valid pattern is 'prefix{from-to}suffix'"
  }

  /**
   * One comma-separated piece: kept as it is without '{'; with '{', the users
   * its range stands for, or the error when the pattern does not match.
   */
  function ExpandPiece(u: string): (r: Result<seq<string>, string>)
    ensures '{' !in u ==> r == Ok([u])
    ensures r.Err? ==> '{' in u && r.error == RangeError(u)
  {
    if '{' !in u then Ok([u])
    else
      match MatchRange(u)
      case None => Err(RangeError(u))
      case Some(m) => Ok(UserNames(m.pfx, ParseNat(m.from), ParseNat(m.to) + 1, m.sfx))
  }

  /**
   * A piece is refused exactly when it holds '{' and the range part
   * `{digits-digits}` matches nowhere in it.
   */
  lemma MalformedRefused(u: string)
    ensures ExpandPiece(u).Err? <==> '{' in u && forall q :: 0 <= q <= |u| ==> RangeAt(u, q).None?
  {
    match FirstRange(u, 0)
    case None =>
    case Some(r) =>
      assert RangeAt(u, r.open).Some?;
  }

  /** A piece with '{' that matches stands for the users of its range. */
  lemma ExpandsMatch(u: string, pfx: string, from: string, to: string, sfx: string)
    requires '{' in u && MatchRange(u) == Some(UserRange(pfx, from, to, sfx))
    requires AllDigits(from) && AllDigits(to)
    ensures ExpandPiece(u) == Ok(UserNames(pfx, ParseNat(from), ParseNat(to) + 1, sfx))
  {
  }

  /** `prefix{from-to}suffix` on one line stands for prefix + n + suffix, n = from..to. */
  lemma ExpandsRange(pfx: string, from: string, to: string, sfx: string)
    requires '{' !in pfx && '\n' !in pfx && '\n' !in sfx
    requires |from| > 0 && AllDigits(from) && |to| > 0 && AllDigits(to)
    ensures ExpandPiece(pfx + "{" + from + "-" + to + "}" + sfx)
            == Ok(UserNames(pfx, ParseNat(from), ParseNat(to) + 1, sfx))
  {
    var u := pfx + "{" + from + "-" + to + "}" + sfx;
    assert '{' in u by {
      assert u[|pfx|] == '{';
    }
    MatchRangeOf(pfx, from, to, sfx);
    ExpandsMatch(u, pfx, from, to, sfx);
  }

  /** A leading zero in the lower bound is lost: `user{01-3}` means `user{1-3}`. */
  lemma LeadingZeroLost(pfx: string, from: string, to: string, sfx: string)
    requires '{' !in pfx && '\n' !in pfx && '\n' !in sfx
    requires |from| > 0 && AllDigits(from) && |to| > 0 && AllDigits(to)
    ensures ExpandPiece(pfx + "{" + ("0" + from) + "-" + to + "}" + sfx)
            == ExpandPiece(pfx + "{" + from + "-" + to + "}" + sfx)
  {
    ParseNatLeadingZero(from);
    ExpandsRange(pfx, "0" + from, to, sfx);
    ExpandsRange(pfx, from, to, sfx);
  }

  /** Every comma-separated piece of the arguments, in order. */
  function Pieces(args: seq<string>): seq<string> {
    if args == [] then [] else Pieces(args[..|args| - 1]) + Split(args[|args| - 1], ',')
  }

  lemma {:induction false} PiecesAppend(xs: seq<string>, ys: seq<string>)
    ensures Pieces(xs + ys) == Pieces(xs) + Pieces(ys)
    decreases |ys|
  {
    if ys == [] {
      assert xs + ys == xs;
    } else {
      var zs := xs + ys;
      var init := ys[..|ys| - 1];
      var last := Split(ys[|ys| - 1], ',');
      assert zs[..|zs| - 1] == xs + init;
      assert zs[|zs| - 1] == ys[|ys| - 1];
      assert Pieces(zs) == Pieces(xs + init) + last;
      assert Pieces(ys) == Pieces(init) + last;
      PiecesAppend(xs, init);
      ConcatAssoc(Pieces(xs), Pieces(init), last);
    }
  }

  /** How one piece expands: to its users, or to the error that stops `_gen_users`. */
  type Expander = string -> Result<seq<string>, string>

  /**
   * The users of a list of pieces, in order, each piece expanded by `expand`;
   * the first piece that fails decides the error.
   */
  function ExpandPieces(expand: Expander, ps: seq<string>): (r: Result<seq<string>, string>)
    ensures r.Ok? ==> forall u :: u in r.value ==>
              exists k :: 0 <= k < |ps| && expand(ps[k]).Ok? && u in expand(ps[k]).value
  {
    if ps == [] then Ok([])
    else
      var init := ps[..|ps| - 1];
      match ExpandPieces(expand, init)
      case Err(e) => Err(e)
      case Ok(us) =>
        match expand(ps[|ps| - 1])
        case Err(e) => Err(e)
        case Ok(vs) => Ok(us + vs)
  }

  /** Once a prefix has failed, the pieces after it change nothing. */
  lemma {:induction false} ErrorSticks(expand: Expander, ps: seq<string>, qs: seq<string>)
    requires ExpandPieces(expand, ps).Err?
    ensures ExpandPieces(expand, ps + qs) == ExpandPieces(expand, ps)
    decreases |qs|
  {
    if qs == [] {
      assert ps + qs == ps;
    } else {
      var zs := ps + qs;
      assert zs[..|zs| - 1] == ps + qs[..|qs| - 1];
      ErrorSticks(expand, ps, qs[..|qs| - 1]);
    }
  }

  /**
   * The pieces fail exactly when one of them fails, and then the first one
   * that fails gives the error.
   */
  lemma {:induction false} FirstBadPieceDecides(expand: Expander, ps: seq<string>)
    ensures ExpandPieces(expand, ps).Err? <==> exists k :: 0 <= k < |ps| && expand(ps[k]).Err?
    ensures ExpandPieces(expand, ps).Err? ==>
              exists k :: 0 <= k < |ps| && ExpandPieces(expand, ps) == expand(ps[k]) &&
                forall j :: 0 <= j < k ==> expand(ps[j]).Ok?
  {
    if ps != [] {
      var init := ps[..|ps| - 1];
      FirstBadPieceDecides(expand, init);
      assert forall k :: 0 <= k < |init| ==> init[k] == ps[k];
      if ExpandPieces(expand, init).Err? {
        var k :| 0 <= k < |init| && ExpandPieces(expand, init) == expand(init[k]) &&
                 forall j :: 0 <= j < k ==> expand(init[j]).Ok?;
        assert ExpandPieces(expand, ps) == expand(ps[k]);
      } else if expand(ps[|ps| - 1]).Err? {
        assert forall j :: 0 <= j < |ps| - 1 ==> expand(ps[j]).Ok?;
      }
    }
  }

  /** Pieces without '{' are the users themselves. */
  lemma {:induction false} PlainPiecesKept(ps: seq<string>)
    requires forall k :: 0 <= k < |ps| ==> '{' !in ps[k]
    ensures ExpandPieces(ExpandPiece, ps) == Ok(ps)
  {
    if ps != [] {
      var init := ps[..|ps| - 1];
      assert forall k :: 0 <= k < |init| ==> init[k] == ps[k];
      PlainPiecesKept(init);
      assert ps == init + [ps[|ps| - 1]];
    }
  }

  /** What `_gen_users(users_ar)` returns: None for no arguments, else the users or the error. */
  function GenUsersOf(args: seq<string>): (r: Result<Option<seq<string>>, string>)
    ensures r == Ok(None) <==> args == []
    ensures r.Err? ==> exists k :: 0 <= k < |Pieces(args)| && '{' in Pieces(args)[k] && r.error == RangeError(Pieces(args)[k])
  {
    if args == [] then Ok(None)
    else
      FirstBadPieceDecides(ExpandPiece, Pieces(args));
      match ExpandPieces(ExpandPiece, Pieces(args))
      case Err(e) => Err(e)
      case Ok(us) => Ok(Some(us))
  }

  /** Arguments whose pieces hold no '{' give exactly those pieces. */
  lemma PlainArgumentsKept(args: seq<string>)
    requires args != []
    requires forall k :: 0 <= k < |Pieces(args)| ==> '{' !in Pieces(args)[k]
    ensures GenUsersOf(args) == Ok(Some(Pieces(args)))
  {
    PlainPiecesKept(Pieces(args));
  }

  /** The users so far, extended by a piece's users, or the piece's error. */
  function Extend(users: seq<string>, r: Result<seq<string>, string>): Result<seq<string>, string> {
    match r
    case Err(e) => Err(e)
    case Ok(vs) => Ok(users + vs)
  }

  /**
   * One comma-separated piece in the loop of `_gen_users`: without '{' it is
   * appended; with '{' its range is parsed and each of its users appended,
   * or the error raised.
   */
  method AddPiece(users: seq<string>, u: string) returns (r: Result<seq<string>, string>)
    ensures r == Extend(users, ExpandPiece(u))
  {
    if '{' !in u {
      return Ok(users + [u]);
    }
    var m := MatchRange(u);
    if m.None? {
      return Err(RangeError(u));
    }
    var pfx, lo, hi, sfx := m.value.pfx, ParseNat(m.value.from), ParseNat(m.value.to) + 1, m.value.sfx;
    var all := users;
    var n := lo;
    while n < hi
      invariant lo <= n <= if lo <= hi then hi else lo
      invariant all == users + UserNames(pfx, lo, n, sfx)
    {
      all := all + [pfx + NatToString(n) + sfx];
      n := n + 1;
    }
    assert UserNames(pfx, lo, n, sfx) == UserNames(pfx, lo, hi, sfx);
    return Ok(all);
  }

  /** One more piece: the users so far extended by that piece's users. */
  lemma ExpandPiecesNext(expand: Expander, done: seq<string>, parts: seq<string>, j: nat)
    requires j < |parts| && ExpandPieces(expand, done + parts[..j]).Ok?
    ensures ExpandPieces(expand, done + parts[..j + 1])
            == Extend(ExpandPieces(expand, done + parts[..j]).value, expand(parts[j]))
  {
    var zs := done + parts[..j + 1];
    assert zs[..|zs| - 1] == done + parts[..j];
    assert zs[|zs| - 1] == parts[j];
  }

  /** One more argument: its comma-separated pieces follow those before it. */
  lemma PiecesNext(args: seq<string>, i: nat)
    requires i < |args|
    ensures Pieces(args[..i + 1]) == Pieces(args[..i]) + Split(args[i], ',')
  {
    var a := args[..i + 1];
    assert a[..|a| - 1] == args[..i];
  }

  /**
   * `_gen_users(users_ar)`: each argument is split on commas; a piece with '{'
   * is expanded through the range pattern, any other piece is kept.
   */
  method GenUsers(args: seq<string>) returns (r: Result<Option<seq<string>>, string>)
    ensures r == GenUsersOf(args)
  {
    if args == [] {
      return Ok(None);
    }
    var users: seq<string> := [];
    for i := 0 to |args|
      invariant ExpandPieces(ExpandPiece, Pieces(args[..i])) == Ok(users)
    {
      var parts := Split(args[i], ',');
      ghost var done := Pieces(args[..i]);
      PiecesNext(args, i);
      assert done + parts[..0] == done;
      for j := 0 to |parts|
        invariant ExpandPieces(ExpandPiece, done + parts[..j]) == Ok(users)
      {
        ExpandPiecesNext(ExpandPiece, done, parts, j);
        var next := AddPiece(users, parts[j]);
        if next.Err? {
          ErrorAfter(ExpandPiece, args, i, parts, j);
          return Err(next.error);
        }
        users := next.value;
      }
      assert parts[..|parts|] == parts;
    }
    assert args[..|args|] == args;
    return Ok(Some(users));
  }

  /** A piece that fails in argument i fails the whole argument list. */
  lemma ErrorAfter(expand: Expander, args: seq<string>, i: nat, parts: seq<string>, j: nat)
    requires i < |args| && parts == Split(args[i], ',') && j < |parts|
    requires ExpandPieces(expand, Pieces(args[..i]) + parts[..j + 1]).Err?
    ensures ExpandPieces(expand, Pieces(args)) == ExpandPieces(expand, Pieces(args[..i]) + parts[..j + 1])
  {
    PiecesAround(args, i);
    ErrorInPart(expand, Pieces(args), Pieces(args[..i]), parts, j, Pieces(args[i + 1..]));
  }

  /** The pieces of the arguments before i, of argument i, and of those after it. */
  lemma PiecesAround(args: seq<string>, i: nat)
    requires i < |args|
    ensures Pieces(args) == Pieces(args[..i]) + Split(args[i], ',') + Pieces(args[i + 1..])
  {
    PiecesCut(args, args[..i + 1], args[i + 1..]);
    PiecesNext(args, i);
  }

  /** The pieces of a list cut in two are the pieces of each part. */
  lemma PiecesCut(args: seq<string>, a: seq<string>, b: seq<string>)
    requires args == a + b
    ensures Pieces(args) == Pieces(a) + Pieces(b)
  {
    PiecesAppend(a, b);
  }

  /** An error in the first j + 1 pieces of a part survives whatever follows them. */
  lemma ErrorInPart(expand: Expander, whole: seq<string>, done: seq<string>, parts: seq<string>, j: nat, rest: seq<string>)
    requires j < |parts| && whole == done + parts + rest
    requires ExpandPieces(expand, done + parts[..j + 1]).Err?
    ensures ExpandPieces(expand, whole) == ExpandPieces(expand, done + parts[..j + 1])
  {
    assert whole == (done + parts[..j + 1]) + (parts[j + 1..] + rest) by {
      assert parts == parts[..j + 1] + parts[j + 1..];
    }
    ErrorSticks(expand, done + parts[..j + 1], parts[j + 1..] + rest);
  }

  // ---------------------------------------------------------------------------
  // CPBrowserRunner: the user and the browser class of one runner

  /**
   * `users[(browser_id - 1) % len(users)] if users else None`. Python's `%`
   * with a positive divisor is never negative, as Dafny's is.
   */
  function UserFor(users: Option<seq<string>>, browserId: int): (u: Option<string>)
    ensures u.None? <==> users.None? || users.value == []
    ensures u.Some? ==> u.value in users.value
  {
    if users.None? || users.value == [] then None
    else Some(users.value[(browserId - 1) % |users.value|])
  }

  /** Browsers 1 to n take the n users in order. */
  lemma UsersInTurn(users: seq<string>, k: int)
    requires 1 <= k <= |users|
    ensures UserFor(Some(users), k) == Some(users[k - 1])
  {
  }

  /** The assignment repeats every n browsers. */
  lemma UsersRepeat(users: seq<string>, k: int)
    requires users != []
    ensures UserFor(Some(users), k + |users|) == UserFor(Some(users), k)
  {
    var n := |users|;
    var a := k - 1;
    ModUnique(a + n, n, a / n + 1, a % n);
  }

  /** The in-process runner, browser 0, takes the last user. */
  lemma BrowserZeroTakesLast(users: seq<string>)
    requires users != []
    ensures UserFor(Some(users), 0) == Some(users[|users| - 1])
  {
    ModUnique(-1, |users|, -1, |users| - 1);
  }

  /** Euclidean division is unique: a quotient and a remainder in range are the ones. */
  lemma ModUnique(x: int, n: int, q: int, r: int)
    requires n > 0 && 0 <= r < n && x == q * n + r
    ensures x % n == r
  {
    var q0, r0 := x / n, x % n;
    assert x == q0 * n + r0;
    if q0 < q {
      MulMono(q0 + 1, q, n);
    } else if q < q0 {
      MulMono(q + 1, q0, n);
    }
  }

  lemma MulMono(a: int, b: int, n: int)
    requires a <= b && n > 0
    ensures a * n <= b * n
  {
  }

  /** The browser classes, in the order they are tried. */
  datatype BrowserKind = BrowserChrome | BrowserFirefox | BrowserPython

  const Browsers: seq<BrowserKind> := [BrowserChrome, BrowserFirefox, BrowserPython]

  /**
   * The class of the first browser whose engine name is the one asked for,
   * or the first class when none is. `engine` gives each class's `engine`
   * attribute.
   */
  function SelectBrowser(engine: BrowserKind -> string, wanted: string): (b: BrowserKind)
    ensures (exists i :: 0 <= i < |Browsers| && engine(Browsers[i]) == wanted) ==>
              && engine(b) == wanted
              && (exists i :: 0 <= i < |Browsers| && Browsers[i] == b &&
                    forall j :: 0 <= j < i ==> engine(Browsers[j]) != wanted)
    ensures (forall i :: 0 <= i < |Browsers| ==> engine(Browsers[i]) != wanted) ==> b == Browsers[0]
  {
    assert Browsers[0] == BrowserChrome && Browsers[1] == BrowserFirefox && Browsers[2] == BrowserPython;
    if engine(BrowserChrome) == wanted then BrowserChrome
    else if engine(BrowserFirefox) == wanted then BrowserFirefox
    else if engine(BrowserPython) == wanted then BrowserPython
    else BrowserChrome
  }

  /**
   * A control panel engine class: its type name, click flags, menu locators,
   * `skip_menu_item` hook and `init_context` check.
   */
  datatype EngineKind = EngineKind(
    typeName: string, menuUrlClicks: bool, menuDomClicks: bool,
    menuXpaths: seq<seq<Locator>>,
    skipMenuItem: (DomState, Element, string) -> bool,
    initContext: DomState -> bool)

  /** CPEngineBase's own class attributes. */
  const BaseEngine: EngineKind :=
    EngineKind("A control panel", true, true, [], (dom: DomState, el: Element, t: string) => false,
               (dom: DomState) => true)

  /** The frame a freshly reset engine searches in after `switch_to_frame(frame)`. */
  function SearchFrame(d: Driver, dom: DomState, frame: string): (f: string)
    ensures f == "" || f == frame
    ensures f == frame <==> frame == "" || d.hasFrame(dom, frame)
  {
    if frame != "" && d.hasFrame(dom, frame) then frame else ""
  }

  /** A level-0 locator whose link xpath finds something. */
  predicate LocatorHits(d: Driver, dom: DomState, x: Locator) {
    d.find(dom, SearchFrame(d, dom, x.frame), x.linkXpath) != []
  }

  /** The engine recognises the page. */
  predicate Detects(d: Driver, dom: DomState, k: EngineKind) {
    && k.initContext(dom)
    && |k.menuXpaths| > 0
    && exists i :: 0 <= i < |k.menuXpaths[0]| && LocatorHits(d, dom, k.menuXpaths[0][i])
  }

  /** The index of the first engine that recognises the page, or the count of engines. */
  function FirstDetected(d: Driver, dom: DomState, kinds: seq<EngineKind>): (i: nat)
    ensures i <= |kinds|
    ensures forall j :: 0 <= j < i ==> !Detects(d, dom, kinds[j])
    ensures i < |kinds| ==> Detects(d, dom, kinds[i])
  {
    if kinds == [] then 0
    else if Detects(d, dom, kinds[0]) then 0
    else 1 + FirstDetected(d, dom, kinds[1..])
  }

  class CPBrowserRunner {
    const cpEngines: seq<EngineKind>
    const browserId: int
    const user: Option<string>
    const browserClass: BrowserKind

    /**
     * `CPBrowserRunner(cp_engines, opts, ..., users, browser_id, ...)`: the user
     * in turn for this browser, and the browser class chosen by `opts.browser`.
     */
    constructor (cpEngines: seq<EngineKind>, users: Option<seq<string>>, browserId: int,
                 wanted: string, engine: BrowserKind -> string)
      ensures this.cpEngines == cpEngines && this.browserId == browserId
      ensures user == UserFor(users, browserId)
      ensures browserClass == SelectBrowser(engine, wanted)
    {
      this.cpEngines := cpEngines;
      this.browserId := browserId;
      user := if users.None? || users.value == [] then None
              else Some(users.value[(browserId - 1) % |users.value|]);
      var chosen := Browsers[0];
      var i := 0;
      while i < |Browsers|
        invariant i <= |Browsers|
        invariant forall j :: 0 <= j < i ==> engine(Browsers[j]) != wanted
        invariant chosen == Browsers[0]
      {
        if engine(Browsers[i]) == wanted {
          chosen := Browsers[i];
          break;
        }
        i := i + 1;
      }
      browserClass := chosen;
    }

    /**
     * `_detect_cp_type`: each engine in turn is built on the browser; one whose
     * context fails or that has no menu locators is passed over; otherwise its
     * level-0 locators are tried, each in its frame, and the first that finds
     * a link makes this engine the answer.
     */
    method DetectCpType(browser: Browser) returns (c: CPEngineBase?)
      requires DriverOk(browser.driver)
      ensures var i := FirstDetected(browser.driver, browser.dom, cpEngines);
              && (c == null <==> i == |cpEngines|)
              && (c != null ==>
                    && fresh(c) && c.browser == browser && c.Valid() && c.currentFrame == ""
                    && c.typeName == cpEngines[i].typeName && c.menuXpaths == cpEngines[i].menuXpaths)
    {
      var d := browser.driver;
      for k := 0 to |cpEngines|
        invariant forall j :: 0 <= j < k ==> !Detects(d, browser.dom, cpEngines[j])
      {
        var kind := cpEngines[k];
        c := new CPEngineBase(browser, kind.typeName, kind.menuXpaths, kind.menuUrlClicks,
                              kind.menuDomClicks, kind.skipMenuItem);
        if !kind.initContext(browser.dom) || |kind.menuXpaths| == 0 {
          continue;
        }
        var hit := ProbeLocators(c, kind.menuXpaths[0]);
        if hit {
          assert Detects(d, browser.dom, kind);
          FirstDetectedIs(d, browser.dom, cpEngines, k);
          return c;
        }
      }
      FirstDetectedIs(d, browser.dom, cpEngines, |cpEngines|);
      return null;
    }
  }

  /**
   * The loop over an engine's level-0 locators in `_detect_cp_type`: each is
   * searched for in its frame, and the engine goes back to the top document
   * after every search.
   */
  method ProbeLocators(c: CPEngineBase, xs: seq<Locator>) returns (hit: bool)
    requires c.currentFrame == ""
    modifies c`currentFrame
    ensures c.currentFrame == ""
    ensures hit <==> exists q :: 0 <= q < |xs| && LocatorHits(c.browser.driver, c.browser.dom, xs[q])
  {
    for m := 0 to |xs|
      invariant c.currentFrame == ""
      invariant forall q :: 0 <= q < m ==> !LocatorHits(c.browser.driver, c.browser.dom, xs[q])
    {
      var found := c.SwitchToFrame(xs[m].frame);
      var hits := c.browser.driver.find(c.browser.dom, c.currentFrame, xs[m].linkXpath);
      c.SwitchToDefaultContent();
      if hits != [] {
        return true;
      }
    }
    return false;
  }

  /** FirstDetected is the first index that detects. */
  lemma FirstDetectedIs(d: Driver, dom: DomState, kinds: seq<EngineKind>, k: nat)
    requires k <= |kinds|
    requires forall j :: 0 <= j < k ==> !Detects(d, dom, kinds[j])
    requires k < |kinds| ==> Detects(d, dom, kinds[k])
    ensures FirstDetected(d, dom, kinds) == k
  {

  }

  // ---------------------------------------------------------------------------
  // CPCrawler: the checks `crawl` makes before starting the browsers

  /** The options `crawl` reads: the `--user` arguments, the browser count and the browser engine. */
  datatype CrawlOpts = CrawlOpts(user: seq<string>, realBrowsers: int, browser: string)

  /** What the browsers are started with: the engines to try and the users. */
  datatype CrawlPlan = CrawlPlan(engines: seq<EngineKind>, users: Option<seq<string>>)

  /** `"%d" % n`. */
  function IntToString(n: int): string {
    if n < 0 then "-" + NatToString(-n) else NatToString(n)
  }

  const InitOptsMissing := "the init_opts() method must be called before run()"

  function TooManyUsers(users: nat, browsers: int): string {
    "ERROR: number of users (" + NatToString(users) + ") can't be higher than number of browsers ("
    + IntToString(browsers) + ")"
  }

  class CPCrawler {
    var opts: Option<CrawlOpts>

    constructor ()
      ensures opts == None
    {
      opts := None;
    }

    /** `init_opts(opts, urls)`, as far as `crawl` depends on it. */
    method InitOpts(o: CrawlOpts)
      modifies `opts
      ensures opts == Some(o)
    {
      opts := Some(o);
    }

    /**
     * The start of `crawl(cp_engines)`: no engines means CPEngineBase alone;
     * `init_opts` must have been called; the users are expanded; and more
     * than one user needs at least as many browsers.
     */
    method Crawl(cpEngines: seq<EngineKind>) returns (r: Result<CrawlPlan, string>)
      ensures opts.None? ==> r == Err(InitOptsMissing)
      ensures opts.Some? && GenUsersOf(opts.value.user).Err? ==> r == Err(GenUsersOf(opts.value.user).error)
      ensures opts.Some? && GenUsersOf(opts.value.user).Ok? ==>
                var users := GenUsersOf(opts.value.user).value;
                var tooMany := users.Some? && |users.value| > 1 && |users.value| > opts.value.realBrowsers;
                && (tooMany ==> r == Err(TooManyUsers(|users.value|, opts.value.realBrowsers)))
                && (!tooMany ==> r == Ok(CrawlPlan(if cpEngines == [] then [BaseEngine] else cpEngines, users)))
    {
      var engines := cpEngines;
      if engines == [] {
        engines := [BaseEngine];
      }
      if opts.None? {
        return Err(InitOptsMissing);
      }
      var u := GenUsers(opts.value.user);
      if u.Err? {
        return Err(u.error);
      }
      var users := u.value;
      if users.Some? && |users.value| > 1 && |users.value| > opts.value.realBrowsers {
        return Err(TooManyUsers(|users.value|, opts.value.realBrowsers));
      }
      return Ok(CrawlPlan(engines, users));
    }
  }

  /**
   * When `crawl` accepts several users, browsers 1 to `real_browsers` between
   * them take every user: browser i + 1 takes user i.
   */
  lemma EveryUserGetsABrowser(o: CrawlOpts, users: seq<string>)
    requires GenUsersOf(o.user) == Ok(Some(users))
    requires |users| > 1 && |users| <= o.realBrowsers
    ensures forall i :: 0 <= i < |users| ==> i + 1 <= o.realBrowsers && UserFor(Some(users), i + 1) == Some(users[i])
  {
    forall i | 0 <= i < |users|
      ensures UserFor(Some(users), i + 1) == Some(users[i])
    {
      UsersInTurn(users, i + 1);
    }
  }
}
