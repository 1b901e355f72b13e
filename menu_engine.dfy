/**
 * CPEngineBase: the depth-first discovery of a control panel's menu through a
 * browser. The Selenium driver is an oracle: every query it answers is a
 * function of the current DOM state, and a click yields the next DOM state.
 */
module MenuEngine {
  import opened Wrappers
  import opened Py
  import opened MenuItems

  /** A DOM state, as far as the driver tells them apart. */
  type DomState = nat

  /** A handle on a DOM element found by the driver. */
  type Element = nat

  /** One step up the DOM from an element: the parent's tag name and its id ("" for none). */
  datatype Ancestor = Ancestor(tag: string, id: string)

  /** `get_attribute('href')`: the value ("" for None), or a stale element. */
  datatype Href = Stale | Href(value: string)

  /** How a menu click ends: normally, with a WebDriverException, or with a BrowserExc. */
  datatype ClickOutcome = Clicked | WebDriverError | BrowserError

  /**
   * The driver's answers in a DOM state: the elements an xpath finds inside a
   * frame ("" for the top document), whether a frame element exists, an
   * element's href and innerHTML, the elements a relative xpath finds under an
   * element, an element's ancestors (nearest first), the result of clicking an
   * element, and the current URL. `maxElements` bounds every element list and
   * `titles` holds every title a menu element can show.
   */
  datatype Driver = Driver(
    find: (DomState, string, string) -> seq<Element>,
    hasFrame: (DomState, string) -> bool,
    href: (DomState, Element) -> Href,
    innerHtml: (DomState, Element) -> string,
    findWithin: (DomState, Element, string) -> seq<Element>,
    ancestors: (DomState, Element) -> seq<Ancestor>,
    click: (DomState, Element) -> (ClickOutcome, DomState),
    currentUrl: DomState -> string,
    maxElements: nat,
    titles: set<string>)

  /** A finite page: element lists are bounded and menu titles come from a finite set. */
  ghost predicate DriverOk(d: Driver) {
    && (forall s, f, xp :: |d.find(s, f, xp)| <= d.maxElements)
    && (forall s, e :: RemoveHtmlTags(d.innerHtml(s, e)) in d.titles)
  }

  // ---------------------------------------------------------------------------
  // The decisions `_populate_menu` makes about one candidate element

  /** `if not link: link = innerHTML`: an element without href is named by its HTML. */
  function LinkOf(d: Driver, dom: DomState, el: Element, href: string): (link: string)
    ensures href != "" ==> link == href
    ensures href == "" ==> link == d.innerHtml(dom, el)
  {
    if href != "" then href else d.innerHtml(dom, el)
  }

  /**
   * The candidate's title: the tag-stripped innerHTML of the first element the
   * locator's title xpath finds under it, or of the element itself when the
   * locator has no title xpath; None when that title element is missing or empty.
   */
  function TitleOf(d: Driver, dom: DomState, x: Locator, el: Element): (t: Option<string>)
    ensures x.titleXpath == "" ==> t == Some(RemoveHtmlTags(d.innerHtml(dom, el)))
    ensures x.titleXpath != "" ==>
              var els := d.findWithin(dom, el, x.titleXpath);
              (t.None? <==> els == [] || d.innerHtml(dom, els[0]) == "")
              && (t.Some? ==> t.value == RemoveHtmlTags(d.innerHtml(dom, els[0])))
    ensures DriverOk(d) && t.Some? ==> t.value in d.titles
  {
    if x.titleXpath == "" then Some(RemoveHtmlTags(d.innerHtml(dom, el)))
    else
      var els := d.findWithin(dom, el, x.titleXpath);
      if els == [] || d.innerHtml(dom, els[0]) == "" then None
      else Some(RemoveHtmlTags(d.innerHtml(dom, els[0])))
  }

  /**
   * `get_current_url(url)`: a non-empty url without "javascript" in any case
   * is taken as it is; otherwise the driver's current URL in DOM state dom.
   */
  function GetCurrentUrl(d: Driver, dom: DomState, url: string): (r: string)
    ensures url != "" && !Contains(Lower(url), "javascript") ==> r == url
    ensures url == "" || Contains(Lower(url), "javascript") ==> r == d.currentUrl(dom)
  {
    if url != "" && Find(Lower(url), "javascript") < 0 then url
    else d.currentUrl(dom)
  }

  /** A candidate's href as `_populate_menu` reads it. */
  datatype Fetched = Got(el: Element, href: string, elems: seq<Element>) | Shrunk(elems: seq<Element>) | StaleTwice

  /**
   * The href of candidate i. A stale element makes the list be searched again
   * with the same locator: if it no longer has an i-th element the candidate
   * loop is over; if the new i-th element is stale too, the exception escapes.
   */
  function FetchAt(d: Driver, dom: DomState, frame: string, xpath: string, elems: seq<Element>, i: nat): (f: Fetched)
    requires i < |elems|
    ensures d.href(dom, elems[i]).Href? ==> f == Got(elems[i], d.href(dom, elems[i]).value, elems)
    ensures d.href(dom, elems[i]).Stale? ==>
              var again := d.find(dom, frame, xpath);
              && (f.Shrunk? <==> i >= |again|)
              && (f.Shrunk? ==> f.elems == again)
              && (f.StaleTwice? <==> i < |again| && d.href(dom, again[i]).Stale?)
              && (f.Got? ==> f == Got(again[i], d.href(dom, again[i]).value, again))
  {
    match d.href(dom, elems[i])
    case Href(link) => Got(elems[i], link, elems)
    case Stale =>
      var again := d.find(dom, frame, xpath);
      if i >= |again| then Shrunk(again)
      else match d.href(dom, again[i])
        case Href(link) => Got(again[i], link, again)
        case Stale => StaleTwice
  }

  /** What happens to a candidate before any click. */
  datatype Verdict = NoTitle | TitleSeen | VoidLink | SkipHook | Click(title: string)

  const VoidHref: string := "javascript:void(0);"

  /**
   * The skip rules, in order: no title, a title already seen, a void link, and
   * the engine's own `skip_menu_item`. A candidate is clicked iff none applies.
   */
  function Screen(d: Driver, dom: DomState, x: Locator, el: Element, link: string,
                  seen: set<string>, skip: (DomState, Element, string) -> bool): (v: Verdict)
    ensures v.Click? <==>
              && TitleOf(d, dom, x, el).Some?
              && TitleOf(d, dom, x, el).value !in seen
              && link != VoidHref
              && !skip(dom, el, TitleOf(d, dom, x, el).value)
    ensures v.Click? ==> v.title == TitleOf(d, dom, x, el).value
    ensures v == NoTitle <==> TitleOf(d, dom, x, el).None?
  {
    match TitleOf(d, dom, x, el)
    case None => NoTitle
    case Some(title) =>
      if title in seen then TitleSeen
      else if link == VoidHref then VoidLink
      else if skip(dom, el, title) then SkipHook
      else Click(title)
  }

  /**
   * The xpath `get_current_xpath` builds from a link's ancestors (nearest
   * first), below the part already built: each ancestor's tag is prefixed,
   * and the first ancestor with an id is written `tag[@id='id']` and ends it.
   */
  function XpathFrom(ancestors: seq<Ancestor>, below: string): (x: string)
    ensures |x| >= |below|
    ensures |x| > |below| <==> ancestors != []
  {
    if ancestors == [] then below
    else
      var a := ancestors[0];
      if a.id != "" then a.tag + "[@id='" + a.id + "']/" + below
      else XpathFrom(ancestors[1..], a.tag + "/" + below)
  }

  /** The absolute xpath of a link element: `//` and the path down to `a`. */
  function LinkXpath(ancestors: seq<Ancestor>): (x: string)
    ensures StartsWith(x, "//") && EndsWith(x, "a")
    ensures |x| > 3 <==> ancestors != []
  {
    XpathEndsWithBelow(ancestors, "a");
    "//" + XpathFrom(ancestors, "a")
  }

  /** Ancestors above the first one with an id do not change the xpath. */
  lemma {:induction false} XpathStopsAtId(ancestors: seq<Ancestor>, below: string, k: nat)
    requires k < |ancestors| && ancestors[k].id != ""
    requires forall j :: 0 <= j < k ==> ancestors[j].id == ""
    ensures XpathFrom(ancestors, below) == XpathFrom(ancestors[..k + 1], below)
    decreases k
  {
    if k > 0 {
      XpathStopsAtId(ancestors[1..], ancestors[0].tag + "/" + below, k - 1);
      assert ancestors[..k + 1][1..] == ancestors[1..][..k];
    }
  }

  /** The built xpath always ends with the part below, so a link's xpath ends with `/a`. */
  lemma {:induction false} XpathEndsWithBelow(ancestors: seq<Ancestor>, below: string)
    ensures EndsWith(XpathFrom(ancestors, below), below)
    decreases |ancestors|
  {
    if ancestors != [] {
      var a := ancestors[0];
      if a.id != "" {
        var r := a.tag + "[@id='" + a.id + "']/" + below;
        assert r[|r| - |below|..] == below;
      } else {
        var b2 := a.tag + "/" + below;
        XpathEndsWithBelow(ancestors[1..], b2);
        var r := XpathFrom(ancestors[1..], b2);
        assert r[|r| - |b2|..] == b2;
        assert r[|r| - |below|..] == b2[|b2| - |below|..];
      }
    }
  }

  /** A strictly smaller set of unseen titles: the walk's termination measure drops. */
  lemma UnseenShrinks(titles: set<string>, before: set<string>, after: set<string>, t: string)
    requires before <= after && t in titles && t !in before && t in after
    ensures |titles - after| < |titles - before|
  {
    var unseen, gone := titles - after, (titles - before) - (titles - after);
    assert titles - before == unseen + gone && unseen * gone == {};
    assert t in gone;
  }

  /** Seeing more titles never makes more of them unseen. */
  lemma UnseenNoGrowth(titles: set<string>, before: set<string>, after: set<string>)
    requires before <= after
    ensures |titles - after| <= |titles - before|
  {
    var unseen, gone := titles - after, (titles - before) - (titles - after);
    assert titles - before == unseen + gone && unseen * gone == {};
  }

  // ---------------------------------------------------------------------------
  // The browser and the engine

  /** The part of the browser the engine uses: its driver, DOM state and URL history. */
  class Browser {
    const driver: Driver
    var dom: DomState
    var history: seq<string>

    constructor (driver: Driver, dom: DomState)
      ensures this.driver == driver && this.dom == dom && history == []
    {
      this.driver := driver;
      this.dom := dom;
      history := [];
    }
  }

  /** What one candidate came to. */
  datatype Step = Skipped | Descended | Raised

  class CPEngineBase {
    const typeName: string
    const menuUrlClicks: bool
    const menuDomClicks: bool
    /** The locators of each menu level. */
    const menuXpaths: seq<seq<Locator>>
    /** The engine's `skip_menu_item` hook. */
    const skipMenuItem: (DomState, Element, string) -> bool
    const browser: Browser
    const menu: CPMenuItem
    /** The frame the driver searches in; "" for the top document (None). */
    var currentFrame: string

    /** The menu tree is well formed, every level is non-negative, and the page is finite. */
    ghost predicate Valid()
      reads menu`tree, (set n | n in menu.tree)`children
    {
      && menu.TreeOk() && menu.Rooted()
      && (forall k :: 0 <= k < |menu.tree| ==> menu.tree[k].level >= 0)
      && DriverOk(browser.driver)
    }

    /**
     * `CPEngineBase(browser)`: the menu root is a level-0 item titled with the
     * engine type, with no link and the engine's click flags.
     */
    constructor (browser: Browser, typeName: string, menuXpaths: seq<seq<Locator>>,
                 menuUrlClicks: bool, menuDomClicks: bool,
                 skipMenuItem: (DomState, Element, string) -> bool)
      requires DriverOk(browser.driver)
      ensures this.browser == browser && this.typeName == typeName && this.menuXpaths == menuXpaths
      ensures this.menuUrlClicks == menuUrlClicks && this.menuDomClicks == menuDomClicks
      ensures this.skipMenuItem == skipMenuItem
      ensures fresh(menu) && menu.level == 0 && menu.title == typeName && menu.link == ""
      ensures menu.parent == null && menu.children == [] && menu.scanned == {}
      ensures menu.menuUrlClicks == menuUrlClicks && menu.menuDomClicks == menuDomClicks
      ensures currentFrame == ""
      ensures Valid()
    {
      this.browser := browser;
      this.typeName := typeName;
      this.menuXpaths := menuXpaths;
      this.menuUrlClicks := menuUrlClicks;
      this.menuDomClicks := menuDomClicks;
      this.skipMenuItem := skipMenuItem;
      this.menu := new CPMenuItem(0, typeName, "", "", null, menuUrlClicks, menuDomClicks, 0);
      this.currentFrame := "";
    }

    /** `get_current_xpath(link_el)`: walk up from the link until an ancestor has an id. */
    method GetCurrentXpath(el: Element) returns (xpath: string)
      ensures xpath == LinkXpath(browser.driver.ancestors(browser.dom, el))
      ensures EndsWith(xpath, "a")
    {
      var ancestors := browser.driver.ancestors(browser.dom, el);
      xpath := "a";
      var k := 0;
      while k < |ancestors|
        invariant k <= |ancestors|
        invariant XpathFrom(ancestors[k..], xpath) == XpathFrom(ancestors, "a")
      {
        var a := ancestors[k];
        assert ancestors[k..][1..] == ancestors[k + 1..];
        if a.id != "" {
          xpath := a.tag + "[@id='" + a.id + "']/" + xpath;
          break;
        }
        xpath := a.tag + "/" + xpath;
        k := k + 1;
      }
      XpathEndsWithBelow(ancestors, "a");
      xpath := "//" + xpath;
      assert xpath[|xpath| - 1..] == XpathFrom(ancestors, "a")[|XpathFrom(ancestors, "a")| - 1..];
    }

    /** `switch_to_default_content`. */
    method SwitchToDefaultContent()
      modifies `currentFrame
      ensures currentFrame == ""
    {
      currentFrame := "";
    }

    /**
     * `switch_to_frame(frame)`: nothing for no frame; otherwise back to the top
     * document, then into the frame if its element exists.
     */
    method SwitchToFrame(frame: string) returns (found: bool)
      modifies `currentFrame
      ensures found <==> frame != "" && browser.driver.hasFrame(browser.dom, frame)
      ensures frame == "" ==> currentFrame == old(currentFrame)
      ensures frame != "" ==> currentFrame == if found then frame else ""
    {
      if frame == "" {
        return false;
      }
      SwitchToDefaultContent();
      if !browser.driver.hasFrame(browser.dom, frame) {
        return false;
      }
      currentFrame := frame;
      return true;
    }

    /** What a call of the walk keeps: the tree, the seen set and the history only grow. */
    twostate predicate Grown()
      reads this, browser, menu, (set n | n in menu.tree)`children
    {
      && Valid()
      && old(menu.scanned) <= menu.scanned
      && old(menu.tree) <= menu.tree
      && (forall k :: |old(menu.tree)| <= k < |menu.tree| ==> fresh(menu.tree[k]))
      && old(browser.history) <= browser.history
    }

    /**
     * One candidate of `_populate_menu`, after its href was read: the skip rules,
     * then the click, whose URL goes to the history and on to Descend.
     * A click that ends in a WebDriverException is only logged: the candidate
     * goes on as if the click had worked.
     */
    method Consider(node: CPMenuItem, x: Locator, el: Element, href: string) returns (step: Step)
      requires Valid() && node in menu.tree
      modifies browser`dom, browser`history, `currentFrame, menu`scanned, menu`tree
      modifies (set n | n in menu.tree)`children
      ensures Grown()
      ensures var d := browser.driver;
              var link := LinkOf(d, old(browser.dom), el, href);
              var v := Screen(d, old(browser.dom), x, el, link, old(menu.scanned), skipMenuItem);
              && (!v.Click? ==>
                    && step == Skipped && browser.dom == old(browser.dom)
                    && browser.history == old(browser.history)
                    && menu.scanned == old(menu.scanned) && menu.tree == old(menu.tree))
              && (v.Click? && d.click(old(browser.dom), el).0 == BrowserError ==>
                    && step == Skipped && browser.dom == d.click(old(browser.dom), el).1
                    && browser.history == old(browser.history) && menu.tree == old(menu.tree))
              && (v.Click? && d.click(old(browser.dom), el).0 != BrowserError ==>
                    && |browser.history| > |old(browser.history)|
                    && browser.history[|old(browser.history)|] == GetCurrentUrl(d, d.click(old(browser.dom), el).1, link)
                    && (step == Skipped <==> GetCurrentUrl(d, d.click(old(browser.dom), el).1, link) in old(menu.scanned)))
      decreases |browser.driver.titles - menu.scanned|, 1
    {
      var d := browser.driver;
      var link := LinkOf(d, browser.dom, el, href);
      var v := Screen(d, browser.dom, x, el, link, menu.scanned, skipMenuItem);
      if !v.Click? {
        return Skipped;
      }
      var xpath := GetCurrentXpath(el);
      var outcome, clicked := MenuItemClick(el);
      if outcome == BrowserError {
        return Skipped;
      }
      var url := GetCurrentUrl(d, browser.dom, link);
      browser.history := browser.history + [url];
      step := Descend(node, x, v.title, url, xpath);
    }

    /**
     * The end of a clicked candidate: an already seen URL adds nothing;
     * otherwise one child is added under the item, the walk goes into it, the
     * item is scanned again, and the locator's candidates are over.
     */
    method Descend(node: CPMenuItem, x: Locator, title: string, url: string, xpath: string) returns (step: Step)
      requires Valid() && node in menu.tree
      requires title in browser.driver.titles && title !in menu.scanned
      modifies browser`dom, browser`history, `currentFrame, menu`scanned, menu`tree
      modifies (set n | n in menu.tree)`children
      ensures Grown()
      ensures url in old(menu.scanned) ==>
                && step == Skipped && browser.dom == old(browser.dom) && browser.history == old(browser.history)
                && menu.scanned == old(menu.scanned) && menu.tree == old(menu.tree)
      ensures url !in old(menu.scanned) ==>
                && step != Skipped
                && |menu.tree| > |old(menu.tree)|
                && var ch := menu.tree[|old(menu.tree)|];
                && ch.parent == node && ch.level == node.level + 1
                && ch.title == node.title + " -> " + title && ch.link == url && ch.xpath == xpath
                && {title, url} <= menu.scanned
      decreases |browser.driver.titles - menu.scanned|, 0
    {
      if node.IsScanned(url) {
        return Skipped;
      }
      var ch := node.AddChild(menu, title, url, xpath, x);
      UnseenShrinks(browser.driver.titles, old(menu.scanned), menu.scanned, title);
      var raised := Explore(ch, node);
      step := if raised then Raised else Descended;
    }

    /** After a new child: the walk goes into the child, then scans its parent again. */
    method Explore(ch: CPMenuItem, node: CPMenuItem) returns (raised: bool)
      requires Valid() && ch in menu.tree && node in menu.tree
      modifies browser`dom, browser`history, `currentFrame, menu`scanned, menu`tree
      modifies (set n | n in menu.tree)`children
      ensures Grown()
      decreases |browser.driver.titles - menu.scanned|, 5
    {
      raised := PopulateMenu(ch);
      if !raised {
        UnseenNoGrowth(browser.driver.titles, old(menu.scanned), menu.scanned);
        raised := PopulateMenu(node);
      }
    }

    /** `menu_item_click`: the click moves the DOM to the state the driver says. */
    method MenuItemClick(el: Element) returns (outcome: ClickOutcome, clicked: DomState)
      modifies browser`dom
      ensures (outcome, clicked) == browser.driver.click(old(browser.dom), el)
      ensures browser.dom == clicked
    {
      outcome, clicked := browser.driver.click(browser.dom, el).0, browser.driver.click(browser.dom, el).1;
      browser.dom := clicked;
    }

    /**
     * The candidates of locator x: index i walks the element list, which a
     * stale element makes be searched again; the first candidate that gives a
     * new menu item ends the loop.
     */
    method ScanLocator(node: CPMenuItem, x: Locator) returns (raised: bool)
      requires Valid() && node in menu.tree
      modifies browser`dom, browser`history, `currentFrame, menu`scanned, menu`tree
      modifies (set n | n in menu.tree)`children
      ensures Grown()
      decreases |browser.driver.titles - menu.scanned|, 2
    {
      var d := browser.driver;
      var elems := d.find(browser.dom, currentFrame, x.linkXpath);
      var i, stop := 0, false;
      raised := false;
      while i < |elems| && !stop
        invariant |elems| <= d.maxElements && i <= d.maxElements
        invariant Grown()
        decreases d.maxElements - i + (if i < |elems| && !stop then 1 else 0)
      {
        var f := FetchAt(d, browser.dom, currentFrame, x.linkXpath, elems, i);
        if f.StaleTwice? {
          raised, stop := true, true;
        } else {
          elems := f.elems;
          if f.Got? {
            i := i + 1;
            UnseenNoGrowth(d.titles, old(menu.scanned), menu.scanned);
            var step := Consider(node, x, f.el, f.href);
            raised, stop := step == Raised, step != Skipped;
          }
        }
      }
    }

    /**
     * `_populate_menu(menu)`: for each locator of the item's level, enter its
     * frame (a missing frame skips the locator), scan its candidates, and go
     * back to the top document. A level without locators changes nothing.
     * The result tells whether a stale-element exception escaped.
     */
    method PopulateMenu(node: CPMenuItem) returns (raised: bool)
      requires Valid() && node in menu.tree
      modifies browser`dom, browser`history, `currentFrame, menu`scanned, menu`tree
      modifies (set n | n in menu.tree)`children
      ensures Grown()
      ensures |menuXpaths| <= node.level ==>
                && !raised && browser.dom == old(browser.dom) && browser.history == old(browser.history)
                && menu.scanned == old(menu.scanned) && menu.tree == old(menu.tree)
      decreases |browser.driver.titles - menu.scanned|, 4
    {
      if |menuXpaths| <= node.level {
        return false;
      }
      var xs := menuXpaths[node.level];
      for k := 0 to |xs|
        invariant Grown()
      {
        UnseenNoGrowth(browser.driver.titles, old(menu.scanned), menu.scanned);
        raised := ScanInFrame(node, xs[k]);
        if raised {
          return;
        }
      }
      return false;
    }

    /**
     * One locator of `_populate_menu`: enter its frame (a missing frame skips
     * the locator), scan its candidates, and go back to the top document
     * unless a stale-element exception escaped.
     */
    method ScanInFrame(node: CPMenuItem, x: Locator) returns (raised: bool)
      requires Valid() && node in menu.tree
      modifies browser`dom, browser`history, `currentFrame, menu`scanned, menu`tree
      modifies (set n | n in menu.tree)`children
      ensures Grown()
      ensures x.frame != "" && !browser.driver.hasFrame(old(browser.dom), x.frame) ==>
                && !raised && currentFrame == ""
                && browser.dom == old(browser.dom) && browser.history == old(browser.history)
                && menu.scanned == old(menu.scanned) && menu.tree == old(menu.tree)
      ensures x.frame != "" && !raised ==> currentFrame == ""
      decreases |browser.driver.titles - menu.scanned|, 3
    {
      if x.frame != "" {
        var found := SwitchToFrame(x.frame);
        if !found {
          return false;
        }
      }
      raised := ScanLocator(node, x);
      if !raised && x.frame != "" {
        SwitchToDefaultContent();
      }
    }

    /**
     * `do_menu_walk`: the root takes the browser's current URL, the tree is
     * walked from it, and its items come back as (title, target) pairs in
     * insertion order. An escaped stale-element exception is passed on.
     */
    method DoMenuWalk() returns (r: Result<seq<(string, string)>, string>)
      requires Valid()
      modifies browser`dom, browser`history, `currentFrame, menu`scanned, menu`tree, menu`link
      modifies (set n | n in menu.tree)`children
      ensures Valid()
      ensures r.Ok? ==> r.value == TitlesAndTargets(SortByIndex(Values(Apply([], Insertions(menu, menu)))))
      ensures r.Err? ==> r.error == "StaleElementReferenceException"
    {
      menu.link := GetCurrentUrl(browser.driver, browser.dom, "");
      var raised := PopulateMenu(menu);
      if raised {
        return Err("StaleElementReferenceException");
      }
      var items := GetItems(menu, menu, []);
      return Ok(TitlesAndTargets(SortByIndex(Values(items))));
    }
  }
}
