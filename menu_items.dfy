/**
 * The control-panel menu tree: HTML tag stripping for titles, the per-level
 * menu locators, and the menu items whose "seen" set lives at the root.
 */
module MenuItems {
  import opened Py

  // ---------------------------------------------------------------------------
  // remove_html_tags: `re.sub('<.*?>', '', text)`

  /**
   * Searching from j, the position of the '>' that closes a tag: the first '>'
   * before any newline ('.' does not match a newline), or -1.
   */
  function TagClose(s: string, j: nat): (k: int)
    requires j <= |s|
    ensures k == -1 || (j <= k < |s| && s[k] == '>')
    ensures k != -1 ==> forall m :: j <= m < k ==> s[m] != '>' && s[m] != '\n'
    decreases |s| - j
  {
    if j == |s| then -1
    else if s[j] == '>' then j
    else if s[j] == '\n' then -1
    else TagClose(s, j + 1)
  }

  /**
   * Every shortest `<...>` span on one line is deleted; scanning resumes after it.
   * A '<' that opens no such span is kept.
   */
  function RemoveHtmlTags(s: string): (r: string)
    ensures |r| <= |s|
    decreases |s|
  {
    if s == [] then []
    else if s[0] == '<' && TagClose(s, 1) >= 0 then
      var k := TagClose(s, 1);
      assert s == s[..k + 1] + s[k + 1..];
      RemoveHtmlTags(s[k + 1..])
    else
      assert s == [s[0]] + s[1..];
      [s[0]] + RemoveHtmlTags(s[1..])
  }

  /** Text without '<' comes back unchanged. */
  lemma {:induction false} NoTagsUnchanged(s: string)
    requires forall i :: 0 <= i < |s| ==> s[i] != '<'
    ensures RemoveHtmlTags(s) == s
  {
    if s != [] {
      NoTagsUnchanged(s[1..]);
      assert s == [s[0]] + s[1..];
    }
  }

  /** With no '>' or newline in b, the tag `<b>` is the first span TagClose finds. */
  lemma {:induction false} TagCloseSkips(s: string, j: nat, k: nat)
    requires j <= k < |s| && s[k] == '>'
    requires forall m :: j <= m < k ==> s[m] != '>' && s[m] != '\n'
    ensures TagClose(s, j) == k
    decreases k - j
  {
    if j < k {
      TagCloseSkips(s, j + 1, k);
    }
  }

  /** A tag at the front is dropped whole. */
  lemma TagAtFront(b: string, c: string)
    requires forall i :: 0 <= i < |b| ==> b[i] != '>' && b[i] != '\n'
    ensures RemoveHtmlTags("<" + b + ">" + c) == RemoveHtmlTags(c)
  {
    var s := "<" + b + ">" + c;
    TagCloseSkips(s, 1, |b| + 1);
    assert s[|b| + 2..] == c;
  }

  /** A first character other than '<' is kept. */
  lemma KeepsFirst(s: string)
    requires s != [] && s[0] != '<'
    ensures RemoveHtmlTags(s) == [s[0]] + RemoveHtmlTags(s[1..])
  {
  }

  /** Text without '<' in front of s is kept, and s is stripped in turn. */
  lemma {:induction false} KeepsPlainPrefix(a: string, s: string)
    requires forall i :: 0 <= i < |a| ==> a[i] != '<'
    ensures RemoveHtmlTags(a + s) == a + RemoveHtmlTags(s)
    decreases |a|
  {
    if a == [] {
      assert a + s == s;
    } else {
      var t := a + s;
      assert t[0] == a[0] && t[1..] == a[1..] + s;
      KeepsFirst(t);
      KeepsPlainPrefix(a[1..], s);
      assert a == [a[0]] + a[1..];
    }
  }

  /** Searching from j, no tag closes when no '>' comes before the end of the line at e. */
  lemma {:induction false} TagCloseNone(s: string, j: nat, e: nat)
    requires j <= e <= |s|
    requires forall m :: j <= m < e ==> s[m] != '>' && s[m] != '\n'
    requires e == |s| || s[e] == '\n'
    ensures TagClose(s, j) == -1
    decreases e - j
  {
    if j < e {
      TagCloseNone(s, j + 1, e);
    }
  }

  /**
   * The rest b of a line that holds no '>' is kept, even its '<'s ('.' does
   * not match the newline that may start c); c is stripped in turn.
   */
  lemma {:induction false} KeepsUnclosed(b: string, c: string)
    requires forall i :: 0 <= i < |b| ==> b[i] != '>' && b[i] != '\n'
    requires c == [] || c[0] == '\n'
    ensures RemoveHtmlTags(b + c) == b + RemoveHtmlTags(c)
    decreases |b|
  {
    if b != [] {
      var s := b + c;
      assert forall m :: 0 <= m < |b| ==> s[m] == b[m];
      assert |b| < |s| ==> s[|b|] == c[0];
      TagCloseNone(s, 1, |b|);
      assert s[1..] == b[1..] + c;
      assert RemoveHtmlTags(s) == [s[0]] + RemoveHtmlTags(s[1..]);
      KeepsUnclosed(b[1..], c);
      calc {
        RemoveHtmlTags(s);
        [b[0]] + RemoveHtmlTags(b[1..] + c);
        [b[0]] + (b[1..] + RemoveHtmlTags(c));
        { assert b == [b[0]] + b[1..]; }
        b + RemoveHtmlTags(c);
      }
    } else {
      assert b + c == c;
    }
  }

  /**
   * Text a (without '<') followed by the tag `<b>` (b without '>' or newline)
   * and the rest c: a is kept, the tag is dropped, and c is stripped in turn.
   */
  lemma RemovesShortestTag(a: string, b: string, c: string)
    requires forall i :: 0 <= i < |a| ==> a[i] != '<'
    requires forall i :: 0 <= i < |b| ==> b[i] != '>' && b[i] != '\n'
    ensures RemoveHtmlTags(a + ("<" + b + ">") + c) == a + RemoveHtmlTags(c)
  {
    var t := "<" + b + ">" + c;
    assert a + ("<" + b + ">") + c == a + t;
    KeepsPlainPrefix(a, t);
    TagAtFront(b, c);
  }

  // ---------------------------------------------------------------------------
  // Menu locators and items

  /**
   * CPMenuItemXpath: where the items of one menu level are found (an empty frame
   * or title xpath stands for None) and which click kinds to collect below it.
   */
  datatype Locator = Locator(
    level: int, frame: string, linkXpath: string, titleXpath: string,
    menuUrlClicks: bool, menuDomClicks: bool)

  /** One `items` value of `get_items`: insertion index, title and click target. */
  datatype Entry = Entry(index: int, title: string, target: string)

  function Keys(items: seq<(string, Entry)>): (ks: seq<string>)
    ensures |ks| == |items|
    ensures forall i :: 0 <= i < |items| ==> ks[i] == items[i].0
  {
    seq(|items|, i requires 0 <= i < |items| => items[i].0)
  }

  function Values(items: seq<(string, Entry)>): (vs: seq<Entry>)
    ensures |vs| == |items|
    ensures forall i :: 0 <= i < |items| ==> vs[i] == items[i].1
  {
    seq(|items|, i requires 0 <= i < |items| => items[i].1)
  }

  /** Python dict keys are distinct. */
  predicate UniqueKeys(items: seq<(string, Entry)>) {
    forall i, j :: 0 <= i < j < |items| ==> items[i].0 != items[j].0
  }

  /** A Python dict in insertion order: distinct keys, each with its entry. */
  type Items = items: seq<(string, Entry)> | UniqueKeys(items)

  function IndexOfKey(items: seq<(string, Entry)>, key: string): (k: int)
    ensures -1 <= k < |items|
    ensures k >= 0 ==> items[k].0 == key
    ensures k == -1 <==> key !in Keys(items)
  {
    if items == [] then -1
    else if items[0].0 == key then 0
    else
      assert Keys(items) == [items[0].0] + Keys(items[1..]);
      var k := IndexOfKey(items[1..], key);
      if k < 0 then -1 else k + 1
  }

  /**
   * `items[key] = [len(items), title, target]`: a new key is appended with the
   * current size as its index; an existing key keeps its place and gets the new
   * value, whose index is then the unchanged size.
   */
  function SetItem(items: Items, key: string, title: string, target: string): (r: Items)
    ensures key !in Keys(items) ==> r == items + [(key, Entry(|items|, title, target))]
    ensures key in Keys(items) ==> |r| == |items| && Keys(r) == Keys(items)
    ensures key in Keys(items) ==> forall i :: 0 <= i < |items| ==>
              r[i] == if items[i].0 == key then (key, Entry(|items|, title, target)) else items[i]
  {
    var k := IndexOfKey(items, key);
    var e := Entry(|items|, title, target);
    if k < 0 then items + [(key, e)]
    else
      items[k := (key, e)]
  }

  /** A pending `items[key] = ...` store. */
  datatype Insertion = Insertion(key: string, title: string, target: string)

  /** The stores applied one after another. */
  function Apply(items: Items, ins: seq<Insertion>): Items
    decreases |ins|
  {
    if ins == [] then items
    else Apply(SetItem(items, ins[0].key, ins[0].title, ins[0].target), ins[1..])
  }

  lemma {:induction false} ApplyAppend(items: Items, xs: seq<Insertion>, ys: seq<Insertion>)
    ensures Apply(items, xs + ys) == Apply(Apply(items, xs), ys)
    decreases |xs|
  {
    if xs == [] {
      assert xs + ys == ys;
    } else {
      var next := SetItem(items, xs[0].key, xs[0].title, xs[0].target);
      assert (xs + ys)[0] == xs[0];
      assert (xs + ys)[1..] == xs[1..] + ys;
      ApplyAppend(next, xs[1..], ys);
    }
  }

  predicate DistinctKeys(ins: seq<Insertion>) {
    forall i, j :: 0 <= i < j < |ins| ==> ins[i].key != ins[j].key
  }

  /** The entries stores with fresh keys produce, numbered from `start`. */
  function Numbered(ins: seq<Insertion>, start: int): (r: seq<(string, Entry)>)
    ensures |r| == |ins|
    ensures forall i :: 0 <= i < |ins| ==> r[i] == (ins[i].key, Entry(start + i, ins[i].title, ins[i].target))
  {
    seq(|ins|, i requires 0 <= i < |ins| => (ins[i].key, Entry(start + i, ins[i].title, ins[i].target)))
  }

  /**
   * Stores whose keys are distinct and new to the dict append their entries in
   * order, and each entry's index is its position in the dict.
   */
  /** A store with a new key appends one entry; its key joins the dict's keys. */
  lemma StoreFresh(items: Items, x: Insertion)
    requires x.key !in Keys(items)
    ensures SetItem(items, x.key, x.title, x.target) == items + [(x.key, Entry(|items|, x.title, x.target))]
    ensures Keys(SetItem(items, x.key, x.title, x.target)) == Keys(items) + [x.key]
  {
  }

  lemma NumberedCons(ins: seq<Insertion>, start: int)
    requires ins != []
    ensures Numbered(ins, start) == [(ins[0].key, Entry(start, ins[0].title, ins[0].target))] + Numbered(ins[1..], start + 1)
  {
  }

  lemma ConcatAssoc<T>(a: seq<T>, b: seq<T>, c: seq<T>)
    ensures a + b + c == a + (b + c)
  {
  }

  lemma {:induction false} ApplyFresh(items: Items, ins: seq<Insertion>)
    requires DistinctKeys(ins)
    requires forall i :: 0 <= i < |ins| ==> ins[i].key !in Keys(items)
    ensures Apply(items, ins) == items + Numbered(ins, |items|)
    decreases |ins|
  {
    if ins != [] {
      var x := ins[0];
      var next := SetItem(items, x.key, x.title, x.target);
      StoreFresh(items, x);
      var rest := ins[1..];
      assert DistinctKeys(rest) && forall i :: 0 <= i < |rest| ==> rest[i].key !in Keys(next) by {
        forall i | 0 <= i < |rest| ensures rest[i] == ins[i + 1] { }
      }
      ApplyFresh(next, rest);
      NumberedCons(ins, |items|);
      ConcatAssoc(items, [(x.key, Entry(|items|, x.title, x.target))], Numbered(rest, |items| + 1));
    }
  }

  // ---------------------------------------------------------------------------
  // Python's `sorted(items.values(), key=lambda x: x[0])`, a stable sort

  predicate SortedByIndex(s: seq<Entry>) {
    forall i, j :: 0 <= i < j < |s| ==> s[i].index <= s[j].index
  }

  lemma SortedPrepend(x: Entry, s: seq<Entry>)
    requires SortedByIndex(s)
    requires s == [] || x.index <= s[0].index
    ensures SortedByIndex([x] + s)
  {
    forall i, j | 0 <= i < j < |s| + 1 ensures ([x] + s)[i].index <= ([x] + s)[j].index {
      if i > 0 { assert ([x] + s)[i] == s[i - 1]; }
      assert ([x] + s)[j] == s[j - 1];
    }
  }

  /** Insert e in front of the first entry whose index is not smaller. */
  function InsertByIndex(e: Entry, s: seq<Entry>): (t: seq<Entry>)
    requires SortedByIndex(s)
    ensures SortedByIndex(t)
    ensures multiset(t) == multiset(s) + multiset{e}
    ensures |t| == |s| + 1
    ensures t[0] == e || (|s| > 0 && t[0] == s[0])
  {
    if s == [] then [e]
    else if e.index <= s[0].index then
      SortedPrepend(e, s);
      [e] + s
    else
      var rest := InsertByIndex(e, s[1..]);
      assert s == [s[0]] + s[1..];
      assert |s| > 1 ==> s[0].index <= s[1].index;
      SortedPrepend(s[0], rest);
      [s[0]] + rest
  }

  function SortByIndex(s: seq<Entry>): (t: seq<Entry>)
    ensures SortedByIndex(t)
    ensures multiset(t) == multiset(s)
    ensures |t| == |s|
  {
    if s == [] then []
    else
      assert s == [s[0]] + s[1..];
      InsertByIndex(s[0], SortByIndex(s[1..]))
  }

  /** The entries with index n, in list order. */
  function WithIndex(s: seq<Entry>, n: int): seq<Entry> {
    if s == [] then [] else (if s[0].index == n then [s[0]] else []) + WithIndex(s[1..], n)
  }

  /** Inserting e puts it in front of every entry with the same index. */
  lemma {:induction false} InsertByIndexStable(e: Entry, s: seq<Entry>, n: int)
    requires SortedByIndex(s)
    ensures WithIndex(InsertByIndex(e, s), n) == (if e.index == n then [e] else []) + WithIndex(s, n)
  {
    var u := InsertByIndex(e, s);
    if s == [] {
      assert u[1..] == [];
    } else if e.index <= s[0].index {
      assert u[1..] == s;
    } else {
      assert SortedByIndex(s[1..]) by {
        forall i, j | 0 <= i < j < |s| - 1 ensures s[1..][i].index <= s[1..][j].index {
          assert s[1..][i] == s[i + 1] && s[1..][j] == s[j + 1];
        }
      }
      var rest := InsertByIndex(e, s[1..]);
      assert u == [s[0]] + rest && u[1..] == rest;
      InsertByIndexStable(e, s[1..], n);
      var head := if s[0].index == n then [s[0]] else [];
      var mine := if e.index == n then [e] else [];
      assert head == [] || mine == [];
      calc {
        WithIndex(u, n);
        head + WithIndex(rest, n);
        head + (mine + WithIndex(s[1..], n));
        { SwapEmpty(head, mine, WithIndex(s[1..], n)); }
        mine + (head + WithIndex(s[1..], n));
        mine + WithIndex(s, n);
      }
    }
  }

  /** The sort is stable: entries with equal indices come out in the order they went in. */
  lemma {:induction false} SortByIndexStable(s: seq<Entry>, n: int)
    ensures WithIndex(SortByIndex(s), n) == WithIndex(s, n)
  {
    if s != [] {
      SortByIndexStable(s[1..], n);
      InsertByIndexStable(s[0], SortByIndex(s[1..]), n);
    }
  }

  /** Sorting keeps a list that is already in index order as it is. */
  lemma {:induction false} SortSortedIdentity(s: seq<Entry>)
    requires SortedByIndex(s)
    ensures SortByIndex(s) == s
  {
    if s != [] {
      assert SortedByIndex(s[1..]) by {
        forall i, j | 0 <= i < j < |s[1..]| ensures s[1..][i].index <= s[1..][j].index {
          assert s[1..][i] == s[i + 1] && s[1..][j] == s[j + 1];
        }
      }
      SortSortedIdentity(s[1..]);
      assert s == [s[0]] + s[1..];
    }
  }

  /** The (title, target) pairs `do_menu_walk` returns for a list of entries. */
  function TitlesAndTargets(es: seq<Entry>): (ps: seq<(string, string)>)
    ensures |ps| == |es|
    ensures forall i :: 0 <= i < |es| ==> ps[i] == (es[i].title, es[i].target)
  {
    seq(|es|, i requires 0 <= i < |es| => (es[i].title, es[i].target))
  }

  /**
   * When no key is stored twice, the menu walk's sorted items are exactly the
   * stores' titles and targets in the order they were made.
   */
  lemma WalkKeepsStoreOrder(ins: seq<Insertion>)
    requires DistinctKeys(ins)
    ensures var ps := TitlesAndTargets(SortByIndex(Values(Apply([], ins))));
            |ps| == |ins| && forall i :: 0 <= i < |ins| ==> ps[i] == (ins[i].title, ins[i].target)
  {
    ApplyFresh([], ins);
    var numbered := Numbered(ins, 0);
    assert Apply([], ins) == numbered by {
      assert [] + numbered == numbered;
    }
    var vs := Values(numbered);
    assert forall i :: 0 <= i < |vs| ==> vs[i] == Entry(i, ins[i].title, ins[i].target);
    SortSortedIdentity(vs);
  }

  // ---------------------------------------------------------------------------
  // The tree

  class CPMenuItem {
    const level: int
    const title: string
    var link: string
    const xpath: string
    var children: seq<CPMenuItem>
    var scanned: set<string>
    const parent: CPMenuItem?
    const menuUrlClicks: bool
    const menuDomClicks: bool
    /** The parent chain, nearest first. */
    ghost const ancestors: seq<CPMenuItem>
    /** Creation order: the position of this item in its root's `tree`. */
    ghost const order: nat
    /** At the root: every item of the tree, in creation order. */
    ghost var tree: seq<CPMenuItem>

    /** The parent chain is the parent followed by the parent's own chain. */
    ghost predicate Linked()
      decreases |ancestors|
    {
      if parent == null then ancestors == []
      else ancestors == [parent] + parent.ancestors && parent.Linked()
    }

    ghost function Root(): CPMenuItem
      requires Linked()
    {
      if parent == null then this else ancestors[|ancestors| - 1]
    }

    /** Every item of the tree reaches this root through its parents. */
    ghost predicate Rooted()
      reads `tree
    {
      forall i :: 0 <= i < |tree| ==> tree[i].Linked() && tree[i].Root() == this
    }

    /**
     * The root holds the tree: items are listed in creation order, and every
     * child is in the tree and was created after its parent.
     */
    ghost predicate TreeOk()
      reads `tree, (set n | n in tree)`children
    {
      && parent == null
      && |tree| > 0 && tree[0] == this
      && (forall i :: 0 <= i < |tree| ==> tree[i].order == i)
      && (forall i, j :: 0 <= i < |tree| && 0 <= j < |tree[i].children| ==>
            tree[i].children[j] in tree && tree[i].children[j].order > i)
    }

    /**
     * `CPMenuItem(level, title, link, xpath, parent, ...)`: a child's title is the
     * parent's title, an arrow and its own title. `order` is its creation index.
     */
    constructor (level: int, title: string, link: string, xpath: string, parent: CPMenuItem?,
                 menuUrlClicks: bool, menuDomClicks: bool, ghost order: nat)
      requires parent != null ==> parent.Linked()
      ensures this.level == level && this.link == link && this.xpath == xpath && this.parent == parent
      ensures this.title == if parent != null then parent.title + " -> " + title else title
      ensures this.menuUrlClicks == menuUrlClicks && this.menuDomClicks == menuDomClicks
      ensures children == [] && scanned == {}
      ensures Linked()
      ensures parent == null ==> this.order == 0 && tree == [this] && Root() == this
      ensures parent != null ==> this.order == order && tree == [] && Root() == parent.Root()
    {
      this.level := level;
      this.link := link;
      this.xpath := xpath;
      this.children := [];
      this.scanned := {};
      this.parent := parent;
      this.title := if parent != null then parent.title + " -> " + title else title;
      this.menuUrlClicks := menuUrlClicks;
      this.menuDomClicks := menuDomClicks;
      this.ancestors := if parent != null then [parent] + parent.ancestors else [];
      this.order := if parent != null then order else 0;
      new;
      this.tree := if parent != null then [] else [this];
    }

    /** `is_scanned`: asked from any item, the answer is the root's set. */
    function IsScanned(key: string): (b: bool)
      requires Linked()
      reads Root()
      ensures b <==> key in Root().scanned
      decreases |ancestors|
    {
      if parent != null then parent.IsScanned(key) else key in scanned
    }

    /** `mark_as_scanned`: walk up to the root and add the key to its set. */
    method MarkAsScanned(key: string)
      requires Linked()
      modifies Root()`scanned
      ensures Root().scanned == old(Root().scanned) + {key}
    {
      var p: CPMenuItem := this;
      while p.parent != null
        invariant p.Linked() && p.Root() == Root()
        decreases |p.ancestors|
      {
        p := p.parent;
      }
      p.scanned := p.scanned + {key};
    }

    /** Append ch, an item created last, to the children and to the tree. */
    method Attach(ghost root: CPMenuItem, ch: CPMenuItem)
      requires root.TreeOk() && root.Rooted() && this in root.tree
      requires ch.Linked() && ch.Root() == root && ch.order == |root.tree| && ch.children == []
      modifies this`children, root`tree
      ensures children == old(children) + [ch]
      ensures root.tree == old(root.tree) + [ch]
      ensures root.TreeOk() && root.Rooted()
    {
      assert root.tree[order] == this;
      children := children + [ch];
      root.tree := root.tree + [ch];
      assert root.TreeOk() by {
        var tree := root.tree;
        forall i, j | 0 <= i < |tree| - 1 && 0 <= j < |tree[i].children|
          ensures tree[i].children[j] in tree && tree[i].children[j].order > i
        {
          assert tree[i] == old(root.tree)[i];
          if tree[i] != this || j < |old(children)| {
            assert old(tree[i].children)[j] in old(root.tree);
          }
        }
      }
    }

    /**
     * `add_child`: one new item at the end of the children, a level deeper, whose
     * click flags are this item's flags narrowed by the locator's; its raw title
     * and its link become seen for the whole tree.
     */
    method AddChild(ghost root: CPMenuItem, title: string, link: string, xpath: string, x: Locator)
      returns (ch: CPMenuItem)
      requires root.TreeOk() && root.Rooted() && this in root.tree
      modifies this`children, root`scanned, root`tree
      ensures fresh(ch)
      ensures ch.level == level + 1 && ch.title == this.title + " -> " + title
      ensures ch.link == link && ch.xpath == xpath && ch.parent == this && ch.children == []
      ensures ch.menuUrlClicks == (menuUrlClicks && x.menuUrlClicks)
      ensures ch.menuDomClicks == (menuDomClicks && x.menuDomClicks)
      ensures children == old(children) + [ch]
      ensures root.scanned == old(root.scanned) + {title, link}
      ensures root.tree == old(root.tree) + [ch]
      ensures root.TreeOk() && root.Rooted() && ch in root.tree
    {
      ch := new CPMenuItem(level + 1, title, link, xpath, this,
                           menuUrlClicks && x.menuUrlClicks, menuDomClicks && x.menuDomClicks,
                           |root.tree|);
      assert root.tree[order] == this;
      Attach(root, ch);
      MarkAsScanned(title);
      MarkAsScanned(link);
    }
  }

  // ---------------------------------------------------------------------------
  // get_items, as the stores it makes

  /** The stores for child c of item n: the flags consulted are n's, not c's. */
  function Emitted(n: CPMenuItem, c: CPMenuItem): (ins: seq<Insertion>)
    reads c`link
    ensures |ins| == (if n.menuUrlClicks then 1 else 0) + (if n.menuDomClicks && c.xpath != "" then 1 else 0)
    ensures n.menuUrlClicks ==> ins[0] == Insertion(c.link, c.title, c.link)
    ensures (n.menuDomClicks && c.xpath != "") ==>
              ins[|ins| - 1] == Insertion(c.link + "^" + c.xpath, c.title + " (DOM click)", c.link + "^" + c.xpath)
  {
    var dom := c.link + "^" + c.xpath;
    (if n.menuUrlClicks then [Insertion(c.link, c.title, c.link)] else [])
    + (if n.menuDomClicks && c.xpath != "" then [Insertion(dom, c.title + " (DOM click)", dom)] else [])
  }

  /** The stores `get_items` makes below item n: pre-order over its subtree. */
  ghost function Insertions(root: CPMenuItem, n: CPMenuItem): seq<Insertion>
    requires root.TreeOk() && n in root.tree
    reads root`tree, (set m | m in root.tree)`children, (set m | m in root.tree)`link
    decreases |root.tree| - n.order, |n.children| + 1
  {
    ChildInsertions(root, n, 0)
  }

  /** The stores for the children of n from the i-th on. */
  ghost function ChildInsertions(root: CPMenuItem, n: CPMenuItem, i: nat): seq<Insertion>
    requires root.TreeOk() && n in root.tree && i <= |n.children|
    reads root`tree, (set m | m in root.tree)`children, (set m | m in root.tree)`link
    decreases |root.tree| - n.order, |n.children| - i
  {
    if i == |n.children| then []
    else
      var c := n.children[i];
      assert c in root.tree && c.order > n.order by {
        assert root.tree[n.order] == n;
      }
      Emitted(n, c) + Insertions(root, c) + ChildInsertions(root, n, i + 1)
  }

  /** A child of an item in the tree is in the tree too, created after its parent. */
  lemma ChildInTree(root: CPMenuItem, n: CPMenuItem, i: nat)
    requires root.TreeOk() && n in root.tree && i < |n.children|
    ensures n.children[i] in root.tree && n.children[i].order > n.order
  {
    assert root.tree[n.order] == n;
  }

  /** The stores for children i.. are those of child i, its subtree, then the rest. */
  lemma ChildStep(root: CPMenuItem, n: CPMenuItem, i: nat, before: Items, mid: Items, after: Items)
    requires root.TreeOk() && n in root.tree && i < |n.children|
    requires mid == Apply(before, Emitted(n, n.children[i]))
    requires after == Apply(mid, Insertions(root, n.children[i]))
    ensures Apply(before, ChildInsertions(root, n, i)) == Apply(after, ChildInsertions(root, n, i + 1))
  {
    var c := n.children[i];
    ChildInTree(root, n, i);
    assert ChildInsertions(root, n, i) == Emitted(n, c) + Insertions(root, c) + ChildInsertions(root, n, i + 1);
    ApplyAppend(before, Emitted(n, c) + Insertions(root, c), ChildInsertions(root, n, i + 1));
    ApplyAppend(before, Emitted(n, c), Insertions(root, c));
  }

  /** The stores for one child, one after the other. */
  lemma ApplyEmitted(n: CPMenuItem, c: CPMenuItem, items: Items)
    ensures var dom := c.link + "^" + c.xpath;
            var afterUrl := if n.menuUrlClicks then SetItem(items, c.link, c.title, c.link) else items;
            Apply(items, Emitted(n, c))
            == if n.menuDomClicks && c.xpath != "" then SetItem(afterUrl, dom, c.title + " (DOM click)", dom) else afterUrl
  {
    var e := Emitted(n, c);
    var dom := c.link + "^" + c.xpath;
    var url := Insertion(c.link, c.title, c.link);
    var domClick := Insertion(dom, c.title + " (DOM click)", dom);
    if n.menuUrlClicks && n.menuDomClicks && c.xpath != "" {
      assert e == [url, domClick];
      var first := SetItem(items, url.key, url.title, url.target);
      assert Apply(items, e) == Apply(first, [domClick]);
      assert Apply(first, [domClick]) == Apply(SetItem(first, domClick.key, domClick.title, domClick.target), []);
    } else if n.menuUrlClicks {
      assert e == [url];
      assert Apply(items, e) == Apply(SetItem(items, url.key, url.title, url.target), []);
    } else if n.menuDomClicks && c.xpath != "" {
      assert e == [domClick];
      assert Apply(items, e) == Apply(SetItem(items, domClick.key, domClick.title, domClick.target), []);
    } else {
      assert e == [];
    }
  }

  function StoreChild(n: CPMenuItem, c: CPMenuItem, items: Items): (r: Items)
    reads c`link
    ensures r == Apply(items, Emitted(n, c))
  {
    var dom := c.link + "^" + c.xpath;
    var afterUrl := if n.menuUrlClicks then SetItem(items, c.link, c.title, c.link) else items;
    ApplyEmitted(n, c, items);
    if n.menuDomClicks && c.xpath != "" then SetItem(afterUrl, dom, c.title + " (DOM click)", dom) else afterUrl
  }

  /**
   * `get_items(items)`: the dict after the stores of the whole subtree, made in
   * pre-order with this item's flags deciding for its own children.
   */
  method GetItems(ghost root: CPMenuItem, n: CPMenuItem, items: Items) returns (r: Items)
    requires root.TreeOk() && n in root.tree
    ensures r == Apply(items, Insertions(root, n))
    decreases |root.tree| - n.order, 1
  {
    ghost var want := Apply(items, Insertions(root, n));
    r := items;
    for i := 0 to |n.children|
      invariant root.TreeOk() && n in root.tree
      invariant Apply(r, ChildInsertions(root, n, i)) == want
    {
      r := GetChildItems(root, n, i, r);
    }
  }

  /** One turn of the loop of `get_items`: the stores for child i, then its subtree. */
  method GetChildItems(ghost root: CPMenuItem, n: CPMenuItem, i: nat, items: Items) returns (r: Items)
    requires root.TreeOk() && n in root.tree && i < |n.children|
    ensures Apply(items, ChildInsertions(root, n, i)) == Apply(r, ChildInsertions(root, n, i + 1))
    decreases |root.tree| - n.order, 0
  {
    var c := n.children[i];
    r := StoreChild(n, c, items);
    ghost var mid: Items := r;
    ChildInTree(root, n, i);
    r := GetItems(root, c, r);
    ChildStep(root, n, i, items, mid, r);
  }
}
