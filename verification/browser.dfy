/**
  The browser window: the inner tab bar with its "+" slot, the address bar
  of every browsing tab, the history they share (mirrored in the history
  file), and the user agent chosen on the settings page. Each event is one
  toolkit callback run to completion, including the `check_plus_tab`
  reaction it may set off.
 */
module Browser {
  import opened Common
  import opened TabBar
  import Text
  import AddressBar
  import UserAgent

  /** The page a tab opens when `new_tab` is given no URL. */
  const HomePage: string := "https://www.google.com"

  /**
    The window's state: the tab bar, `self.user_agent`, `self.history`, the
    content of the history file, the address bar of every tab ever opened
    (by tab identity), and the next tab identity.
   */
  datatype Window = Window(
    tabs: Tabs,
    userAgent: string,
    history: seq<string>,
    saved: seq<string>,
    bars: map<nat, AddressBar.Bar>,
    nextId: nat)

  /** An address bar before anything was typed into it. */
  const BlankBar: AddressBar.Bar := AddressBar.Bar("", false, AddressBar.Hidden, None)

  /** Identities are distinct, below `nextId`, and each has its address bar. */
  predicate TabsRegistered(w: Window) {
    && (forall k :: 0 <= k < |w.tabs.slots| && w.tabs.slots[k].Ordinary? ==>
          w.tabs.slots[k].id < w.nextId && w.tabs.slots[k].id in w.bars)
    && DistinctIds(w.tabs.slots)
  }

  /**
    What holds between events: the bar is settled (the sentinel last and
    alone, an ordinary tab current), the history file holds the history,
    every tab is registered, and every tab announces the window's user agent.
   */
  predicate WindowInv(w: Window) {
    && Settled(w.tabs)
    && w.saved == w.history
    && TabsRegistered(w)
    && forall k :: 0 <= k < |w.tabs.slots| && w.tabs.slots[k].Ordinary? ==> w.tabs.slots[k].agent == w.userAgent
  }

  /** A fresh address bar given `target` and made to load it. */
  function LoadNewBar(target: string, history: seq<string>): (nav: AddressBar.Navigated)
    ensures nav.bar.text == target && nav.bar.page == AddressBar.NormalizeUrl(target)
    ensures nav.history == (if Text.AllSpace(target) then history
                            else AddressBar.Remember(history, AddressBar.NormalizeUrl(target).value))
    ensures !nav.saved ==> nav.history == history
  {
    var bar := AddressBar.SetText(BlankBar, target, history);
    AddressBar.LoadUrl(bar, history)
  }

  /**
    `new_tab(url)`: a tab is built on the window's user agent, its address
    bar is given `url or "https://www.google.com"` and loads it (which may
    append to the history and save it), and the tab is inserted before the
    last slot and made current.
   */
  function OpenTab(w: Window, url: string): (r: Window)
    ensures r.nextId == w.nextId + 1 && r.userAgent == w.userAgent
    ensures w.history <= r.history
    ensures r.tabs == NewTab(w.tabs, Ordinary(w.nextId, NewTabTitle, w.userAgent))
  {
    var target := if url == [] then HomePage else url;
    var nav := LoadNewBar(target, w.history);
    var tab := Ordinary(w.nextId, NewTabTitle, w.userAgent);
    Window(NewTab(w.tabs, tab), w.userAgent, nav.history,
           if nav.saved then nav.history else w.saved,
           w.bars[w.nextId := nav.bar], w.nextId + 1)
  }

  /**
    The new tab's address bar holds `url or "https://www.google.com"` and
    has loaded it: the history gains the normalised URL when it is new, and
    the history file follows the history.
   */
  lemma OpenTabLoads(w: Window, url: string)
    ensures var r := OpenTab(w, url);
            var target := if url == [] then HomePage else url;
            && w.nextId in r.bars && r.bars == w.bars[w.nextId := r.bars[w.nextId]]
            && r.bars[w.nextId].text == target
            && r.bars[w.nextId].page == AddressBar.NormalizeUrl(target)
            && r.history == (if Text.AllSpace(target) then w.history
                             else AddressBar.Remember(w.history, AddressBar.NormalizeUrl(target).value))
            && (w.saved == w.history ==> r.saved == r.history)
  {
    var target := if url == [] then HomePage else url;
    var nav := LoadNewBar(target, w.history);
    assert OpenTab(w, url).bars == w.bars[w.nextId := nav.bar];
    assert OpenTab(w, url).history == nav.history;
  }

  /** A tab-bar outcome applied to the window, opening the tab `check_plus_tab` asks for. */
  function React(w: Window, o: Outcome): (r: Window)
    ensures o.spawn ==> r.userAgent == w.userAgent && w.history <= r.history && r.nextId == w.nextId + 1
    ensures !o.spawn ==> r == w.(tabs := o.tabs)
  {
    if o.spawn then OpenTab(w.(tabs := o.tabs), "") else w.(tabs := o.tabs)
  }

  /**
    Window start-up: the "+" slot is added to the empty bar, which makes it
    current, and `check_plus_tab` opens the first tab on the home page.
    An empty user agent falls back to the default one.
   */
  function Startup(history: seq<string>, userAgent: string): (r: Window)
    ensures r.userAgent == (if userAgent == [] then UserAgent.DefaultUserAgent else userAgent)
    ensures WindowInv(r)
  {
    var agent := if userAgent == [] then UserAgent.DefaultUserAgent else userAgent;
    var plus := Window(Tabs([Sentinel], 0), agent, history, history, map[], 0);
    OpenTabKeepsInv(plus, "");
    React(plus, Outcome(plus.tabs, true))
  }

  /** The window starts with one tab, current, on the home page, which the history now holds. */
  lemma StartupOpensHomePage(history: seq<string>, userAgent: string)
    ensures var r := Startup(history, userAgent);
            && r.tabs.slots == [Ordinary(0, NewTabTitle, r.userAgent), Sentinel] && r.tabs.current == 0
            && r.history == AddressBar.Remember(history, HomePage)
            && 0 in r.bars && r.bars[0].page == Some(HomePage)
  {
    var agent := if userAgent == [] then UserAgent.DefaultUserAgent else userAgent;
    var plus := Window(Tabs([Sentinel], 0), agent, history, history, map[], 0);
    assert Startup(history, userAgent) == OpenTab(plus, "");
    OpenTabLoads(plus, "");
    FirstTab(Ordinary(0, NewTabTitle, agent));
    HomePageLoads();
  }

  /** The home page is a non-blank URL the address bar sends as it is. */
  lemma HomePageLoads()
    ensures AddressBar.NormalizeUrl(HomePage) == Some(HomePage) && !Text.AllSpace(HomePage)
  {
    assert HomePage[..4] == "http";
    assert !Text.IsSpace(HomePage[0]);
    AddressBar.NormalizeFixesCanonical(HomePage);
  }

  /** `close_tab(i)`, with the new tab opened when closing the only tab leaves the "+" slot current. */
  function CloseTab(w: Window, i: int): (r: Window)
    requires Settled(w.tabs)
    ensures r.userAgent == w.userAgent && w.history <= r.history
    ensures (i == |w.tabs.slots| - 1 || !(0 <= i < |w.tabs.slots|)) ==> r == w
    ensures r.nextId == (if i == w.tabs.current == 0 && |w.tabs.slots| == 2 then w.nextId + 1 else w.nextId)
    ensures r.nextId == w.nextId ==> r.history == w.history && r.saved == w.saved && r.bars == w.bars
  {
    React(w, TabBar.CloseTab(w.tabs, i))
  }

  /** `setCurrentIndex(i)`; selecting the "+" slot opens a new tab instead. */
  function SelectTab(w: Window, i: int): (r: Window)
    ensures r.userAgent == w.userAgent && w.history <= r.history
    ensures !(0 <= i < |w.tabs.slots|) ==> r == w
    ensures 0 <= i < |w.tabs.slots| && w.tabs.slots[i].Ordinary? ==> r == w.(tabs := w.tabs.(current := i))
    ensures r.nextId == (if 0 <= i < |w.tabs.slots| && i != w.tabs.current && w.tabs.slots[i] == Sentinel
                         then w.nextId + 1 else w.nextId)
  {
    React(w, SetCurrentIndex(w.tabs, i))
  }

  /**
    `update_user_agent` after a toggle: the first checked label of each
    group is composed into the new user agent, which becomes the window's
    and is pushed to every tab below the last index.
   */
  function UpdateUserAgent(w: Window, platformChecked: seq<bool>, browserChecked: seq<bool>): (r: Window)
    requires |platformChecked| == |UserAgent.Platforms| && |browserChecked| == |UserAgent.Browsers|
    ensures var p := UserAgent.FirstChecked(UserAgent.Platforms, platformChecked);
            var b := UserAgent.FirstChecked(UserAgent.Browsers, browserChecked);
            UserAgent.Parse(r.userAgent) == Some((p, b))
    ensures r.tabs.current == w.tabs.current && |r.tabs.slots| == |w.tabs.slots|
    ensures SentinelLast(w.tabs.slots) ==>
              forall k :: 0 <= k < |r.tabs.slots| && r.tabs.slots[k].Ordinary? ==> r.tabs.slots[k].agent == r.userAgent
    ensures r.history == w.history && r.saved == w.saved && r.bars == w.bars && r.nextId == w.nextId
  {
    var p := UserAgent.FirstChecked(UserAgent.Platforms, platformChecked);
    var b := UserAgent.FirstChecked(UserAgent.Browsers, browserChecked);
    UserAgent.CheckedLabelsParse(platformChecked, browserChecked);
    SetUserAgent(w, UserAgent.Compose(p, b))
  }

  /** `self.user_agent = ua` followed by the push to every tab below the last index. */
  function SetUserAgent(w: Window, ua: string): (r: Window)
    ensures r.userAgent == ua
    ensures r.history == w.history && r.saved == w.saved && r.bars == w.bars && r.nextId == w.nextId
    ensures r.tabs.current == w.tabs.current && |r.tabs.slots| == |w.tabs.slots|
    ensures SentinelLast(w.tabs.slots) ==>
              && SentinelLast(r.tabs.slots)
              && forall k :: 0 <= k < |r.tabs.slots| && r.tabs.slots[k].Ordinary? ==> r.tabs.slots[k].agent == ua
  {
    w.(userAgent := ua, tabs := w.tabs.(slots := WithAgent(w.tabs.slots, ua)))
  }

  /** Whether the tab `id` is in the bar, so that its widgets can receive input. */
  predicate Displayed(w: Window, id: nat) {
    IndexOfId(w.tabs.slots, id) != -1
  }

  /**
    An address-bar event of tab `id`, against the shared history; a load
    that appends to the history also writes the history file.
   */
  function BarInput(w: Window, id: nat, e: AddressBar.BarEvent): (r: Window)
    ensures !(Displayed(w, id) && id in w.bars) ==> r == w
    ensures r.tabs == w.tabs && r.userAgent == w.userAgent && r.nextId == w.nextId
    ensures r.bars.Keys == w.bars.Keys
    ensures w.history <= r.history && |r.history| <= |w.history| + 1
    ensures AddressBar.NoDuplicates(w.history) ==> AddressBar.NoDuplicates(r.history)
    ensures w.saved == w.history ==> r.saved == r.history
  {
    if Displayed(w, id) && id in w.bars then
      var nav := AddressBar.Dispatch(w.bars[id], e, w.history);
      w.(bars := w.bars[id := nav.bar], history := nav.history,
         saved := if nav.saved then nav.history else w.saved)
    else w
  }

  /** What can happen to the window. */
  datatype Event =
    | PlusClicked                          // a click on "+", or Ctrl+T
    | CloseRequested(index: int)           // a tab's close button
    | CloseCurrent                         // Ctrl+W
    | TabSelected(index: int)
    | TabDragged(from: int, to: int)       // one step of a drag: a neighbour swap
    | IdentityToggled(platformChecked: seq<bool>, browserChecked: seq<bool>)
    | PageTitleChanged(id: nat, url: string, domain: string, suffix: string)
    | AddressBarInput(id: nat, e: AddressBar.BarEvent)

  /** Whether the toolkit can deliver the event in this state. */
  predicate Deliverable(w: Window, e: Event) {
    match e
    case TabDragged(from, to) => 0 <= from < |w.tabs.slots| && 0 <= to < |w.tabs.slots| && (from == to + 1 || to == from + 1)
    case IdentityToggled(p, b) => |p| == |UserAgent.Platforms| && |b| == |UserAgent.Browsers|
    case _ => true
  }

  /**
    One event. The history only grows, identities are never reused, and
    only the identity selector changes the user agent.
   */
  function Step(w: Window, e: Event): (r: Window)
    requires Settled(w.tabs) && Deliverable(w, e)
    ensures w.history <= r.history && w.nextId <= r.nextId
    ensures !e.IdentityToggled? ==> r.userAgent == w.userAgent
  {
    match e
    case PlusClicked => OpenTab(w, "")
    case CloseRequested(i) => CloseTab(w, i)
    case CloseCurrent => CloseTab(w, w.tabs.current)
    case TabSelected(i) => SelectTab(w, i)
    case TabDragged(from, to) => w.(tabs := TabBar.DragTab(w.tabs, from, to))
    case IdentityToggled(p, b) => UpdateUserAgent(w, p, b)
    case PageTitleChanged(id, url, domain, suffix) => w.(tabs := UpdateTabTitle(w.tabs, id, url, domain, suffix))
    case AddressBarInput(id, be) => BarInput(w, id, be)
  }

  // ---------------------------------------------------------------------
  // The window invariant
  // ---------------------------------------------------------------------

  lemma OpenTabKeepsInv(w: Window, url: string)
    requires SentinelLast(w.tabs.slots) && w.saved == w.history && TabsRegistered(w)
    requires forall k :: 0 <= k < |w.tabs.slots| && w.tabs.slots[k].Ordinary? ==> w.tabs.slots[k].agent == w.userAgent
    ensures WindowInv(OpenTab(w, url))
  {
    var r := OpenTab(w, url);
    var tab := Ordinary(w.nextId, NewTabTitle, w.userAgent);
    OpenTabLoads(w, url);
    NewTabKeepsDistinctIds(w.tabs, tab);
    NewTabSlotsRegistered(w, tab, r);
  }

  lemma NewTabSlotsRegistered(w: Window, tab: Slot, r: Window)
    requires SentinelLast(w.tabs.slots) && TabsRegistered(w)
    requires forall k :: 0 <= k < |w.tabs.slots| && w.tabs.slots[k].Ordinary? ==> w.tabs.slots[k].agent == w.userAgent
    requires tab == Ordinary(w.nextId, NewTabTitle, w.userAgent)
    requires r.tabs == NewTab(w.tabs, tab) && r.nextId == w.nextId + 1 && r.userAgent == w.userAgent
    requires w.bars.Keys + {w.nextId} <= r.bars.Keys
    ensures forall k :: 0 <= k < |r.tabs.slots| && r.tabs.slots[k].Ordinary? ==>
              r.tabs.slots[k].id < r.nextId && r.tabs.slots[k].id in r.bars && r.tabs.slots[k].agent == r.userAgent
  {
    var c := r.tabs.current;
    forall k | 0 <= k < |r.tabs.slots| && r.tabs.slots[k].Ordinary?
      ensures r.tabs.slots[k].id < r.nextId && r.tabs.slots[k].id in r.bars && r.tabs.slots[k].agent == r.userAgent
    {
      if k < c {
        assert r.tabs.slots[k] == w.tabs.slots[k];
      }
    }
  }

  lemma ReactKeepsInv(w: Window, o: Outcome)
    requires w.saved == w.history && TabsRegistered(w.(tabs := o.tabs))
    requires forall k :: 0 <= k < |o.tabs.slots| && o.tabs.slots[k].Ordinary? ==> o.tabs.slots[k].agent == w.userAgent
    requires o.spawn ==> SentinelLast(o.tabs.slots)
    requires !o.spawn ==> Settled(o.tabs)
    ensures WindowInv(React(w, o))
  {
    if o.spawn {
      OpenTabKeepsInv(w.(tabs := o.tabs), "");
    }
  }

  lemma CloseKeepsInv(w: Window, i: int)
    requires WindowInv(w)
    ensures WindowInv(CloseTab(w, i))
  {
    var o := TabBar.CloseTab(w.tabs, i);
    var s := w.tabs.slots;
    var r := o.tabs.slots;
    if 0 <= i < |s| - 1 {
      forall k | 0 <= k < |r| && r[k].Ordinary?
        ensures r[k].id < w.nextId && r[k].id in w.bars && r[k].agent == w.userAgent
      {
        if k < i { assert r[k] == s[k]; } else { assert r[k] == s[k + 1]; }
      }
      forall a, b | 0 <= a < b < |r| && r[a].Ordinary? && r[b].Ordinary?
        ensures r[a].id != r[b].id
      {
        var a0 := if a < i then a else a + 1;
        var b0 := if b < i then b else b + 1;
        assert r[a] == s[a0] && r[b] == s[b0];
      }
    }
    ReactKeepsInv(w, o);
  }

  lemma SelectKeepsInv(w: Window, i: int)
    requires WindowInv(w)
    ensures WindowInv(SelectTab(w, i))
  {
    ReactKeepsInv(w, SetCurrentIndex(w.tabs, i));
  }

  lemma DragKeepsInv(w: Window, from: int, to: int)
    requires WindowInv(w)
    requires 0 <= from < |w.tabs.slots| && 0 <= to < |w.tabs.slots| && (from == to + 1 || to == from + 1)
    ensures WindowInv(w.(tabs := TabBar.DragTab(w.tabs, from, to)))
  {
    AdjacentDragKeepsSettled(w.tabs, from, to);
    AdjacentDragShape(w.tabs, from, to);
    var s := w.tabs.slots;
    var t := TabBar.DragTab(w.tabs, from, to);
    if t != w.tabs {
      MoveKeepsDistinctIds(s, from, to);
      forall k | 0 <= k < |t.slots| && t.slots[k].Ordinary?
        ensures t.slots[k].id < w.nextId && t.slots[k].id in w.bars && t.slots[k].agent == w.userAgent
      {
        assert t.slots[k] == s[OriginIndex(k, from, to)];
      }
    }
  }

  lemma IdentityKeepsInv(w: Window, p: seq<bool>, b: seq<bool>)
    requires WindowInv(w)
    requires |p| == |UserAgent.Platforms| && |b| == |UserAgent.Browsers|
    ensures WindowInv(UpdateUserAgent(w, p, b))
  {
    var ua := UserAgent.Compose(UserAgent.FirstChecked(UserAgent.Platforms, p),
                                UserAgent.FirstChecked(UserAgent.Browsers, b));
    assert UpdateUserAgent(w, p, b) == SetUserAgent(w, ua);
    SetUserAgentKeepsInv(w, ua);
  }

  lemma SetUserAgentKeepsInv(w: Window, ua: string)
    requires WindowInv(w)
    ensures WindowInv(SetUserAgent(w, ua))
  {
    var r := SetUserAgent(w, ua);
    PushReachesEveryTab(w.tabs, ua);
    WithAgentKeepsDistinctIds(w.tabs.slots, ua);
    forall k | 0 <= k < |r.tabs.slots| && r.tabs.slots[k].Ordinary?
      ensures r.tabs.slots[k].id < r.nextId && r.tabs.slots[k].id in r.bars
    {
      assert w.tabs.slots[k].Ordinary? && r.tabs.slots[k].id == w.tabs.slots[k].id;
    }
  }

  lemma TitleKeepsInv(w: Window, id: nat, url: string, domain: string, suffix: string)
    requires WindowInv(w)
    ensures WindowInv(w.(tabs := UpdateTabTitle(w.tabs, id, url, domain, suffix)))
  {
    TitleKeepsSettled(w.tabs, id, url, domain, suffix);
  }

  /** Every event keeps the window invariant. */
  lemma StepKeepsInv(w: Window, e: Event)
    requires WindowInv(w) && Deliverable(w, e)
    ensures WindowInv(Step(w, e))
  {
    match e
    case PlusClicked => OpenTabKeepsInv(w, "");
    case CloseRequested(i) => CloseKeepsInv(w, i);
    case CloseCurrent => CloseKeepsInv(w, w.tabs.current);
    case TabSelected(i) => SelectKeepsInv(w, i);
    case TabDragged(from, to) => DragKeepsInv(w, from, to);
    case IdentityToggled(p, b) => IdentityKeepsInv(w, p, b);
    case PageTitleChanged(id, url, domain, suffix) => TitleKeepsInv(w, id, url, domain, suffix);
    case AddressBarInput(id, be) =>
  }

  /** Feeds deliverable events to the window, stopping at the first one that cannot be delivered. */
  function Run(w: Window, events: seq<Event>): (r: Window)
    requires WindowInv(w)
    ensures w.history <= r.history && w.nextId <= r.nextId
    ensures (forall k :: 0 <= k < |events| ==> !events[k].IdentityToggled?) ==> r.userAgent == w.userAgent
    decreases |events|
  {
    if events == [] || !Deliverable(w, events[0]) then w
    else
      StepKeepsInv(w, events[0]);
      Run(Step(w, events[0]), events[1..])
  }

  /**
    Whatever the user does, the "+" slot stays last and alone, an ordinary
    tab is current, the history file mirrors the history, and every tab
    announces the user agent last chosen.
   */
  lemma {:induction false} RunKeepsInv(w: Window, events: seq<Event>)
    requires WindowInv(w)
    ensures WindowInv(Run(w, events))
    decreases |events|
  {
    if events != [] && Deliverable(w, events[0]) {
      StepKeepsInv(w, events[0]);
      RunKeepsInv(Step(w, events[0]), events[1..]);
    }
  }
}
