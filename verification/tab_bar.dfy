/**
  The browser's inner tab bar. Its last slot is the "+" sentinel: a plain
  widget that is never closed, never shows a page, and spawns a new tab
  when it becomes the current tab. Every other slot is an ordinary
  browsing tab. The list and its current index change the way the
  toolkit's tab bar changes them on insert, remove and move.
 */
module TabBar {
  import opened Common

  /** An ordinary browsing tab (its identity, its label, the user agent of its page), or the "+" slot. */
  datatype Slot = Ordinary(id: nat, title: string, agent: string) | Sentinel

  /** The slots in display order and the current index (-1 while the bar is empty). */
  datatype Tabs = Tabs(slots: seq<Slot>, current: int)

  /**
    The state after a tab-bar call, and whether the call made the sentinel
    current, which makes `check_plus_tab` open a new tab right away.
   */
  datatype Outcome = Outcome(tabs: Tabs, spawn: bool)

  /** The label a freshly inserted tab carries until its page reports a title. */
  const NewTabTitle: string := "New Tab"

  /** The sentinel is the last slot and the only one. */
  predicate SentinelLast(s: seq<Slot>) {
    && |s| > 0
    && s[|s| - 1] == Sentinel
    && forall k :: 0 <= k < |s| - 1 ==> s[k].Ordinary?
  }

  /** No two slots are sentinels. */
  predicate AtMostOneSentinel(s: seq<Slot>) {
    forall i, j :: 0 <= i < j < |s| ==> s[i].Ordinary? || s[j].Ordinary?
  }

  /** No two ordinary tabs share an identity. */
  predicate DistinctIds(s: seq<Slot>) {
    forall i, j :: 0 <= i < j < |s| && s[i].Ordinary? && s[j].Ordinary? ==> s[i].id != s[j].id
  }

  /** Between events: the sentinel is last and alone, and an ordinary tab is current. */
  predicate Settled(t: Tabs) {
    SentinelLast(t.slots) && 0 <= t.current < |t.slots| - 1
  }

  // ---------------------------------------------------------------------
  // List surgery
  // ---------------------------------------------------------------------

  function Insert(s: seq<Slot>, i: nat, x: Slot): (r: seq<Slot>)
    requires i <= |s|
    ensures |r| == |s| + 1 && r[i] == x
    ensures forall k :: 0 <= k < i ==> r[k] == s[k]
    ensures forall k :: i < k < |r| ==> r[k] == s[k - 1]
    ensures multiset(r) == multiset(s) + multiset{x}
  {
    assert s == s[..i] + s[i..];
    s[..i] + [x] + s[i..]
  }

  function RemoveAt(s: seq<Slot>, i: nat): (r: seq<Slot>)
    requires i < |s|
    ensures |r| == |s| - 1
    ensures forall k :: 0 <= k < i ==> r[k] == s[k]
    ensures forall k :: i <= k < |r| ==> r[k] == s[k + 1]
    ensures multiset(r) + multiset{s[i]} == multiset(s)
  {
    assert s == s[..i] + [s[i]] + s[i + 1..];
    s[..i] + s[i + 1..]
  }

  /**
    Where the slot at index `k` ends up when the slot at `from` is moved to
    `to`. It is also the toolkit's rule for the current index on a move: the
    current tab follows its widget.
   */
  function MovedIndex(k: int, from: int, to: int): int {
    if k == from then to
    else if from < k <= to then k - 1
    else if to <= k < from then k + 1
    else k
  }

  /** The index a slot of the moved list came from. */
  function OriginIndex(j: int, from: int, to: int): int {
    if j == to then from
    else if from < to && from <= j < to then j + 1
    else if to < from && to < j <= from then j - 1
    else j
  }

  /** Take the slot at `from` out and put it back at `to`. */
  function Move(s: seq<Slot>, from: nat, to: nat): (r: seq<Slot>)
    requires from < |s| && to < |s|
    ensures |r| == |s|
    ensures forall j :: 0 <= j < |r| ==> 0 <= OriginIndex(j, from, to) < |s| && r[j] == s[OriginIndex(j, from, to)]
  {
    seq(|s|, j requires 0 <= j < |s| => s[OriginIndex(j, from, to)])
  }

  /** A move is a removal followed by an insertion, so it only permutes the slots. */
  lemma MovePermutes(s: seq<Slot>, from: nat, to: nat)
    requires from < |s| && to < |s|
    ensures Move(s, from, to) == Insert(RemoveAt(s, from), to, s[from])
    ensures multiset(Move(s, from, to)) == multiset(s)
  {
    var r := Move(s, from, to);
    var q := Insert(RemoveAt(s, from), to, s[from]);
    forall j | 0 <= j < |s|
      ensures r[j] == q[j]
    {
      assert r[j] == s[OriginIndex(j, from, to)];
    }
    assert r == q;
  }

  /** The slot at `k` is found at `MovedIndex(k, from, to)` after the move. */
  lemma MoveCarries(s: seq<Slot>, from: nat, to: nat, k: int)
    requires from < |s| && to < |s| && 0 <= k < |s|
    ensures 0 <= MovedIndex(k, from, to) < |s|
    ensures Move(s, from, to)[MovedIndex(k, from, to)] == s[k]
  {
    assert OriginIndex(MovedIndex(k, from, to), from, to) == k;
  }

  /** Moving a slot and moving it straight back restores the list. */
  lemma MoveBack(s: seq<Slot>, a: nat, b: nat)
    requires a < |s| && b < |s|
    ensures Move(Move(s, a, b), b, a) == s
  {
    var m := Move(s, a, b);
    var r := Move(m, b, a);
    forall j | 0 <= j < |s|
      ensures r[j] == s[j]
    {
      var i := OriginIndex(j, b, a);
      assert r[j] == m[i];
      OriginOfOrigin(j, a, b);
      assert m[i] == s[j];
    }
    assert r == s;
  }

  /** Tracing an index back through a move and its reverse gives the index itself. */
  lemma OriginOfOrigin(j: int, a: int, b: int)
    ensures OriginIndex(OriginIndex(j, b, a), a, b) == j
  {
  }

  /** Swapping two neighbours is the same move in either direction. */
  lemma AdjacentMoveSymmetric(s: seq<Slot>, a: nat)
    requires a + 1 < |s|
    ensures Move(s, a, a + 1) == Move(s, a + 1, a)
  {
    var m1 := Move(s, a, a + 1);
    var m2 := Move(s, a + 1, a);
    forall j | 0 <= j < |s|
      ensures m1[j] == m2[j]
    {
      assert m1[j] == s[OriginIndex(j, a, a + 1)];
      assert m2[j] == s[OriginIndex(j, a + 1, a)];
    }
  }

  /** The index of the sentinel, or -1 when it is missing (`indexOf(self.plus_tab)`). */
  function IndexOfSentinel(s: seq<Slot>): (p: int)
    ensures -1 <= p < |s|
    decreases |s|
  {
    if s == [] then -1
    else if s[0] == Sentinel then 0
    else
      var p := IndexOfSentinel(s[1..]);
      if p == -1 then -1 else p + 1
  }

  /** The index found is that of the first sentinel; -1 means there is none. */
  lemma {:induction false} IndexOfSentinelSpec(s: seq<Slot>)
    ensures var p := IndexOfSentinel(s);
            && (p >= 0 ==> s[p] == Sentinel && forall k :: 0 <= k < p ==> s[k].Ordinary?)
            && (p == -1 ==> forall k :: 0 <= k < |s| ==> s[k].Ordinary?)
    decreases |s|
  {
    if s != [] && s[0] != Sentinel {
      IndexOfSentinelSpec(s[1..]);
      var p := IndexOfSentinel(s[1..]);
      if p == -1 {
        forall k | 0 <= k < |s|
          ensures s[k].Ordinary?
        {
          if k > 0 { assert s[k] == s[1..][k - 1]; }
        }
      } else {
        forall k | 0 <= k < p + 1
          ensures s[k].Ordinary?
        {
          if k > 0 { assert s[k] == s[1..][k - 1]; }
        }
      }
    }
  }

  /** The index of the ordinary tab with identity `id`, or -1 (`indexOf(self)` for a browsing tab). */
  function IndexOfId(s: seq<Slot>, id: nat): (i: int)
    ensures -1 <= i < |s|
    ensures i >= 0 ==> s[i].Ordinary? && s[i].id == id
    ensures i >= 0 ==> forall k :: 0 <= k < i ==> !(s[k].Ordinary? && s[k].id == id)
    ensures i == -1 ==> forall k :: 0 <= k < |s| ==> !(s[k].Ordinary? && s[k].id == id)
    decreases |s|
  {
    if s == [] then -1
    else if s[0].Ordinary? && s[0].id == id then 0
    else
      var i := IndexOfId(s[1..], id);
      if i == -1 then -1 else i + 1
  }

  // ---------------------------------------------------------------------
  // The toolkit's tab-bar calls
  // ---------------------------------------------------------------------

  /**
    `setCurrentIndex(i)`: a valid index other than the current one becomes
    current and the change is signalled; the signal reaches
    `check_plus_tab`, which asks for a new tab when the sentinel is now current.
   */
  function SetCurrentIndex(t: Tabs, i: int): (r: Outcome)
    ensures r.tabs.slots == t.slots
    ensures (0 <= i < |t.slots|) ==> r.tabs.current == i
    ensures !(0 <= i < |t.slots|) ==> r.tabs == t && !r.spawn
    ensures r.spawn <==> 0 <= i < |t.slots| && i != t.current && t.slots[i] == Sentinel
  {
    if 0 <= i < |t.slots| && i != t.current then Outcome(t.(current := i), t.slots[i] == Sentinel)
    else Outcome(t, false)
  }

  /**
    `removeTab(i)` with the default "select the right neighbour" policy:
    removing the current tab selects the slot that moves into its place (or
    the new last slot), removing a tab before the current one shifts the
    current index down, and an invalid index changes nothing. Whenever a
    change of current index is signalled and lands on the sentinel,
    `check_plus_tab` asks for a new tab.
   */
  function RemoveTab(t: Tabs, i: int): (r: Outcome)
    ensures !(0 <= i < |t.slots|) ==> r == Outcome(t, false)
    ensures 0 <= i < |t.slots| ==> r.tabs.slots == RemoveAt(t.slots, i)
    ensures 0 <= i < |t.slots| && i < t.current ==> r.tabs.current == t.current - 1
    ensures 0 <= i < |t.slots| && i > t.current ==> r.tabs.current == t.current && !r.spawn
    ensures 0 <= i < |t.slots| && i == t.current && |t.slots| > 1
            ==> r.tabs.current == Min(i, |t.slots| - 2)
                && (r.spawn <==> r.tabs.slots[r.tabs.current] == Sentinel)
  {
    if !(0 <= i < |t.slots|) then Outcome(t, false)
    else
      var slots := RemoveAt(t.slots, i);
      if i == t.current then
        if |slots| == 0 then Outcome(Tabs(slots, -1), false)
        else
          var n := Min(i, |slots| - 1);
          Outcome(Tabs(slots, n), slots[n] == Sentinel)
      else if i < t.current then
        var n := t.current - 1;
        Outcome(Tabs(slots, n), 0 <= n < |slots| && slots[n] == Sentinel)
      else Outcome(t.(slots := slots), false)
  }

  /**
    `moveTab(from, to)`: the slot at `from` moves to `to` and the current
    index follows the current tab. Equal or invalid indices change nothing.
   */
  function MoveTab(t: Tabs, from: int, to: int): (r: Tabs)
    ensures |r.slots| == |t.slots|
    ensures 0 <= from < |t.slots| && 0 <= to < |t.slots| ==> r.slots[to] == t.slots[from]
    ensures 0 <= t.current < |t.slots| ==> 0 <= r.current < |r.slots| && r.slots[r.current] == t.slots[t.current]
    ensures (from == to || !(0 <= from < |t.slots|) || !(0 <= to < |t.slots|)) ==> r == t
  {
    if from == to || !(0 <= from < |t.slots|) || !(0 <= to < |t.slots|) then t
    else
      assert 0 <= t.current < |t.slots| ==>
               0 <= MovedIndex(t.current, from, to) < |t.slots|
               && Move(t.slots, from, to)[MovedIndex(t.current, from, to)] == t.slots[t.current] by {
        if 0 <= t.current < |t.slots| {
          MoveCarries(t.slots, from, to, t.current);
        }
      }
      Tabs(Move(t.slots, from, to), MovedIndex(t.current, from, to))
  }

  /** Whether a `moveTab(from, to)` call really moves something (and so signals `tabMoved`). */
  predicate EffectiveMove(t: Tabs, from: int, to: int) {
    from != to && 0 <= from < |t.slots| && 0 <= to < |t.slots|
  }

  // ---------------------------------------------------------------------
  // The browser's handlers
  // ---------------------------------------------------------------------

  /**
    `new_tab`: the tab is inserted just before the last slot (at 0 on an
    empty bar) and made current.
   */
  function NewTab(t: Tabs, tab: Slot): (r: Tabs)
    requires tab.Ordinary?
    ensures |r.slots| == |t.slots| + 1
    ensures r.current == Max(0, |t.slots| - 1) && r.slots[r.current] == tab
    ensures forall k :: 0 <= k < r.current ==> r.slots[k] == t.slots[k]
    ensures forall k :: r.current < k < |r.slots| ==> r.slots[k] == t.slots[k - 1]
    ensures multiset(r.slots) == multiset(t.slots) + multiset{tab}
    ensures SentinelLast(t.slots) ==> Settled(r)
    ensures t.slots == [] ==> r.slots == [tab]
  {
    var index := Max(0, |t.slots| - 1);
    Tabs(Insert(t.slots, index, tab), index)
  }

  /** Run `new_tab` with `spare` when the outcome asks for it. */
  function Settle(o: Outcome, spare: Slot): (r: Tabs)
    requires spare.Ordinary?
    ensures !o.spawn ==> r == o.tabs
    ensures o.spawn ==> |r.slots| == |o.tabs.slots| + 1
  {
    if o.spawn then NewTab(o.tabs, spare) else o.tabs
  }

  /**
    `close_tab(i)`: the last index (the sentinel) is refused. Closing the
    current tab first selects its left neighbour (index 0 stays at 0), then
    the slot is removed.
   */
  function CloseTab(t: Tabs, i: int): (r: Outcome)
    requires Settled(t)
    ensures (i == |t.slots| - 1 || !(0 <= i < |t.slots|)) ==> r == Outcome(t, false)
    ensures 0 <= i < |t.slots| - 1 ==>
              && |r.tabs.slots| == |t.slots| - 1
              && (forall k :: 0 <= k < i ==> r.tabs.slots[k] == t.slots[k])
              && (forall k :: i <= k < |r.tabs.slots| ==> r.tabs.slots[k] == t.slots[k + 1])
              && SentinelLast(r.tabs.slots)
    ensures 0 < i < |t.slots| - 1 && i == t.current ==> r.tabs.current == i - 1
    ensures 0 == i < |t.slots| - 1 && i == t.current ==> r.tabs.current == 0
    ensures 0 <= i < |t.slots| - 1 && i < t.current ==> r.tabs.current == t.current - 1
    ensures 0 <= i < |t.slots| - 1 && i > t.current ==> r.tabs.current == t.current
    ensures 0 <= i < |t.slots| - 1 && i != t.current ==> r.tabs.slots[r.tabs.current] == t.slots[t.current]
    ensures r.spawn <==> i == t.current == 0 && |t.slots| == 2
    ensures !r.spawn ==> Settled(r.tabs)
  {
    if i == |t.slots| - 1 then Outcome(t, false)
    else
      // Selecting the left neighbour lands on an ordinary tab, so
      // `check_plus_tab` does nothing there.
      var selected := if i == t.current then SetCurrentIndex(t, if i > 0 then i - 1 else 0).tabs else t;
      RemoveTab(selected, i)
  }

  /**
    `on_tab_moved(from, to)`, called after a move: when either end of the
    move is where the sentinel now is, the sentinel is moved to the last index.
   */
  function OnTabMoved(t: Tabs, from: int, to: int): (r: Tabs)
    ensures |r.slots| == |t.slots|
    ensures 0 <= t.current < |t.slots| ==> 0 <= r.current < |r.slots| && r.slots[r.current] == t.slots[t.current]
    ensures var p := IndexOfSentinel(t.slots);
            (p == -1 || (from != p && to != p)) ==> r == t
    ensures var p := IndexOfSentinel(t.slots);
            p != -1 && (from == p || to == p) ==> r == MoveTab(t, p, |t.slots| - 1)
  {
    var p := IndexOfSentinel(t.slots);
    if p != -1 && (from == p || to == p) then MoveTab(t, p, |t.slots| - 1) else t
  }

  /** When the handler reacts and there is a single sentinel, the sentinel ends up last. */
  lemma RepairPutsSentinelLast(t: Tabs, from: int, to: int)
    requires AtMostOneSentinel(t.slots)
    requires var p := IndexOfSentinel(t.slots); p != -1 && (from == p || to == p)
    ensures SentinelLast(OnTabMoved(t, from, to).slots)
  {
    var p := IndexOfSentinel(t.slots);
    IndexOfSentinelSpec(t.slots);
    var L := |t.slots| - 1;
    var r := MoveTab(t, p, L);
    assert OnTabMoved(t, from, to) == r;
    if p != L {
      assert r.slots[L] == Sentinel;
      forall k | 0 <= k < L
        ensures r.slots[k].Ordinary?
      {
        assert r.slots[k] == t.slots[OriginIndex(k, p, L)];
      }
    }
  }

  /** The handler's repair only permutes the slots. */
  lemma OnTabMovedPermutes(t: Tabs, from: int, to: int)
    ensures multiset(OnTabMoved(t, from, to).slots) == multiset(t.slots)
  {
    var p := IndexOfSentinel(t.slots);
    var L := |t.slots| - 1;
    if p != -1 && (from == p || to == p) && p != L {
      assert OnTabMoved(t, from, to).slots == Move(t.slots, p, L);
      MovePermutes(t.slots, p, L);
    }
  }

  /**
    A drag step: the toolkit moves a tab (signalling `tabMoved` only when
    something moved) and the browser's handler reacts. The repair move
    signals `tabMoved` again; that second call finds the sentinel already
    last and moves nothing.
   */
  function DragTab(t: Tabs, from: int, to: int): (r: Tabs)
    ensures |r.slots| == |t.slots|
    ensures 0 <= t.current < |t.slots| ==> 0 <= r.current < |r.slots| && r.slots[r.current] == t.slots[t.current]
  {
    if EffectiveMove(t, from, to) then OnTabMoved(MoveTab(t, from, to), from, to) else t
  }

  /** A drag step, repair included, neither loses nor duplicates a slot. */
  lemma DragPermutes(t: Tabs, from: int, to: int)
    ensures multiset(DragTab(t, from, to).slots) == multiset(t.slots)
  {
    if EffectiveMove(t, from, to) {
      var m := MoveTab(t, from, to);
      assert m.slots == Move(t.slots, from, to);
      MovePermutes(t.slots, from, to);
      OnTabMovedPermutes(m, from, to);
    }
  }

  /** `update_tab_title`'s label: "domain.suffix" when a domain was recognised, else the URL itself. */
  function TabTitle(url: string, domain: string, suffix: string): (r: string)
    ensures domain == [] ==> r == url
    ensures domain != [] ==> r == domain + "." + suffix
  {
    if domain != [] then domain + "." + suffix else url
  }

  /**
    `update_tab_title` for the tab `id` whose page shows `url`; `domain` and
    `suffix` are what the domain extractor returns for `url`. An empty URL,
    a tab no longer in the bar, and the last index are all left alone.
   */
  function UpdateTabTitle(t: Tabs, id: nat, url: string, domain: string, suffix: string): (r: Tabs)
    ensures |r.slots| == |t.slots| && r.current == t.current
    ensures forall k :: 0 <= k < |t.slots| && !(t.slots[k].Ordinary? && t.slots[k].id == id) ==> r.slots[k] == t.slots[k]
    ensures |t.slots| > 0 ==> r.slots[|t.slots| - 1] == t.slots[|t.slots| - 1]
    ensures forall k :: 0 <= k < |t.slots| ==> r.slots[k].Ordinary? == t.slots[k].Ordinary?
    ensures forall k :: 0 <= k < |t.slots| && t.slots[k].Ordinary? ==>
              r.slots[k].id == t.slots[k].id && r.slots[k].agent == t.slots[k].agent
    ensures url != [] && 0 <= IndexOfId(t.slots, id) < |t.slots| - 1
            ==> r.slots[IndexOfId(t.slots, id)].title == TabTitle(url, domain, suffix)
    ensures url == [] ==> r == t
  {
    if url == [] then t
    else
      var index := IndexOfId(t.slots, id);
      if index != -1 && index < |t.slots| - 1 then
        t.(slots := t.slots[index := t.slots[index].(title := TabTitle(url, domain, suffix))])
      else t
  }

  /**
    Reference definition of the user-agent push: every ordinary tab below
    the last index gets `ua`; the last slot, and any slot without a page,
    keeps what it had.
   */
  function WithAgent(slots: seq<Slot>, ua: string): (r: seq<Slot>)
    ensures |r| == |slots|
    ensures forall k :: 0 <= k < |slots| ==> r[k].Ordinary? == slots[k].Ordinary?
    ensures forall k :: 0 <= k < |slots| && slots[k].Ordinary? ==>
              r[k].id == slots[k].id && r[k].title == slots[k].title
    ensures SentinelLast(slots) ==> SentinelLast(r) && forall k :: 0 <= k < |r| && r[k].Ordinary? ==> r[k].agent == ua
  {
    seq(|slots|, k requires 0 <= k < |slots| =>
      if k < |slots| - 1 && slots[k].Ordinary? then slots[k].(agent := ua) else slots[k])
  }

  /** The loop of `update_user_agent` over `range(count - 1)`. */
  method PushUserAgent(slots: seq<Slot>, ua: string) returns (r: seq<Slot>)
    ensures r == WithAgent(slots, ua)
    ensures |r| == |slots|
    ensures forall k :: 0 <= k < |slots| - 1 && slots[k].Ordinary? ==> r[k] == slots[k].(agent := ua)
    ensures |slots| > 0 ==> r[|slots| - 1] == slots[|slots| - 1]
    ensures forall k :: 0 <= k < |slots| && slots[k].Sentinel? ==> r[k] == Sentinel
  {
    r := slots;
    var i := 0;
    while i < |slots| - 1
      invariant 0 <= i <= Max(0, |slots| - 1)
      invariant |r| == |slots|
      invariant forall k :: 0 <= k < i ==> r[k] == WithAgent(slots, ua)[k]
      invariant forall k :: i <= k < |slots| ==> r[k] == slots[k]
    {
      if r[i].Ordinary? {
        r := r[i := r[i].(agent := ua)];
      }
      i := i + 1;
    }
  }

  // ---------------------------------------------------------------------
  // Properties of the tab bar
  // ---------------------------------------------------------------------

  /** Startup: adding the sentinel to the empty bar makes it current, which opens the first tab. */
  lemma StartupOpensOneTab(spare: Slot)
    requires spare.Ordinary?
    ensures var plus := Tabs([Sentinel], 0);
            Settled(NewTab(plus, spare)) && NewTab(plus, spare).slots == [spare, Sentinel]
            && NewTab(plus, spare).current == 0
  {
    var r := NewTab(Tabs([Sentinel], 0), spare);
    assert r.slots[0] == spare && r.slots[1] == Sentinel;
  }

  /** Selecting a slot: an ordinary one becomes current, the sentinel is replaced by a new current tab. */
  lemma SelectKeepsSettled(t: Tabs, i: int, spare: Slot)
    requires Settled(t) && spare.Ordinary?
    ensures Settled(Settle(SetCurrentIndex(t, i), spare))
    ensures 0 <= i < |t.slots| - 1 ==> Settle(SetCurrentIndex(t, i), spare) == t.(current := i)
    ensures i == |t.slots| - 1 ==> Settle(SetCurrentIndex(t, i), spare) == NewTab(t, spare)
  {
  }

  /** Closing keeps the bar settled, with or without the new tab it may spawn. */
  lemma CloseKeepsSettled(t: Tabs, i: int, spare: Slot)
    requires Settled(t) && spare.Ordinary?
    ensures Settled(Settle(CloseTab(t, i), spare))
    ensures |Settle(CloseTab(t, i), spare).slots| >= 2
  {
  }

  /** `indexOf(self.plus_tab)` finds the first sentinel. */
  lemma SentinelIndexAt(s: seq<Slot>, q: int)
    requires 0 <= q < |s| && s[q] == Sentinel
    requires forall k :: 0 <= k < q ==> s[k].Ordinary?
    ensures IndexOfSentinel(s) == q
  {
    IndexOfSentinelSpec(s);
  }

  /** `moveTab(a, b)` followed by `moveTab(b, a)` restores the slots and the current index. */
  lemma MoveTabBack(t: Tabs, a: int, b: int)
    requires 0 <= a < |t.slots| && 0 <= b < |t.slots| && 0 <= t.current < |t.slots|
    ensures MoveTab(MoveTab(t, a, b), b, a) == t
  {
    if a != b {
      var m := MoveTab(t, a, b);
      assert m.slots == Move(t.slots, a, b);
      MoveBack(t.slots, a, b);
      assert MovedIndex(MovedIndex(t.current, a, b), b, a) == t.current;
    }
  }

  /** A neighbour swap is the same `moveTab` call in either direction. */
  lemma AdjacentMoveTabSymmetric(t: Tabs, a: nat)
    requires a + 1 < |t.slots|
    ensures MoveTab(t, a, a + 1) == MoveTab(t, a + 1, a)
  {
    AdjacentMoveSymmetric(t.slots, a);
    assert MovedIndex(t.current, a, a + 1) == MovedIndex(t.current, a + 1, a);
  }

  /** Moving a tab of a settled bar carries the sentinel to the moved index of the last slot. */
  lemma SentinelAfterMove(t: Tabs, from: int, to: int)
    requires Settled(t) && EffectiveMove(t, from, to)
    ensures IndexOfSentinel(MoveTab(t, from, to).slots) == MovedIndex(|t.slots| - 1, from, to)
  {
    var L := |t.slots| - 1;
    var q := MovedIndex(L, from, to);
    var m := MoveTab(t, from, to).slots;
    assert m == Move(t.slots, from, to);
    assert m[q] == Sentinel by {
      assert OriginIndex(q, from, to) == L;
    }
    forall k | 0 <= k < q
      ensures m[k].Ordinary?
    {
      assert OriginIndex(k, from, to) != L;
      assert m[k] == t.slots[OriginIndex(k, from, to)];
    }
    SentinelIndexAt(m, q);
  }

  /** A move that leaves the sentinel's slot alone keeps it last and never triggers the repair. */
  lemma MoveBelowSentinel(t: Tabs, from: int, to: int)
    requires Settled(t) && EffectiveMove(t, from, to)
    requires from < |t.slots| - 1 && to < |t.slots| - 1
    ensures DragTab(t, from, to) == MoveTab(t, from, to)
    ensures Settled(DragTab(t, from, to))
  {
    var m := MoveTab(t, from, to);
    SentinelAfterMove(t, from, to);
    assert DragTab(t, from, to) == OnTabMoved(m, from, to);
    assert m.slots[m.current] == t.slots[t.current];
  }

  /** When the moved list has its sentinel at an end of the move, the drag is that move followed by the repair move. */
  lemma DragRepairs(t: Tabs, from: int, to: int, q: int)
    requires EffectiveMove(t, from, to)
    requires IndexOfSentinel(MoveTab(t, from, to).slots) == q && (from == q || to == q)
    ensures DragTab(t, from, to) == MoveTab(MoveTab(t, from, to), q, |t.slots| - 1)
  {
  }

  /** Dragging the sentinel itself is undone by the repair. */
  lemma DragSentinelUndone(t: Tabs, from: int, to: int)
    requires Settled(t) && from == |t.slots| - 1 && 0 <= to < from
    ensures DragTab(t, from, to) == t
  {
    SentinelAfterMove(t, from, to);
    DragRepairs(t, from, to, to);
    MoveTabBack(t, from, to);
  }

  /** Dragging the tab next to the sentinel onto it swaps them, and the repair swaps them back. */
  lemma DragOntoSentinelUndone(t: Tabs, from: int, to: int)
    requires Settled(t) && to == |t.slots| - 1 && from == to - 1
    ensures DragTab(t, from, to) == t
  {
    SentinelAfterMove(t, from, to);
    DragRepairs(t, from, to, from);
    AdjacentMoveTabSymmetric(MoveTab(t, from, to), from);
    MoveTabBack(t, from, to);
  }

  /**
    A tab moved from further left straight onto the last index pushes the
    sentinel to the second-to-last index, and the handler does not react:
    the sentinel is no longer last.
   */
  lemma LongMoveOntoSentinelNotRepaired(t: Tabs, from: int, to: int)
    requires Settled(t) && to == |t.slots| - 1 && 0 <= from < to - 1
    ensures DragTab(t, from, to) == MoveTab(t, from, to)
    ensures !SentinelLast(DragTab(t, from, to).slots)
  {
    var m := MoveTab(t, from, to);
    SentinelAfterMove(t, from, to);
    assert DragTab(t, from, to) == m;
    assert m.slots[to - 1] == Sentinel by {
      IndexOfSentinelSpec(m.slots);
    }
  }

  /**
    Exactly one kind of drag unsettles the bar: a tab dropped straight onto
    the last index from two or more places away. Every other move keeps the
    sentinel last and an ordinary tab current.
   */
  lemma DragSettledIff(t: Tabs, from: int, to: int)
    requires Settled(t) && 0 <= from < |t.slots| && 0 <= to < |t.slots|
    ensures Settled(DragTab(t, from, to)) <==> !(to == |t.slots| - 1 && from < |t.slots| - 2)
  {
    if to == |t.slots| - 1 && from < |t.slots| - 2 {
      LongMoveOntoSentinelNotRepaired(t, from, to);
    } else {
      DragKeepsSettled(t, from, to);
    }
  }

  /** Every move other than the long one onto the last index leaves the bar settled. */
  lemma DragKeepsSettled(t: Tabs, from: int, to: int)
    requires Settled(t) && 0 <= from < |t.slots| && 0 <= to < |t.slots|
    requires !(to == |t.slots| - 1 && from < |t.slots| - 2)
    ensures Settled(DragTab(t, from, to))
  {
    if from == to {
    } else if from == |t.slots| - 1 {
      DragSentinelUndone(t, from, to);
    } else if to == |t.slots| - 1 {
      DragOntoSentinelUndone(t, from, to);
    } else {
      MoveBelowSentinel(t, from, to);
    }
  }

  /** The toolkit drags one neighbour at a time, so a drag never unsettles the bar. */
  lemma AdjacentDragKeepsSettled(t: Tabs, from: int, to: int)
    requires Settled(t) && 0 <= from < |t.slots| && 0 <= to < |t.slots|
    requires from == to + 1 || to == from + 1
    ensures Settled(DragTab(t, from, to))
  {
    DragKeepsSettled(t, from, to);
  }

  /** A move only rearranges slots, so identities stay distinct. */
  lemma MoveKeepsDistinctIds(s: seq<Slot>, from: nat, to: nat)
    requires from < |s| && to < |s| && DistinctIds(s)
    ensures DistinctIds(Move(s, from, to))
  {
    var r := Move(s, from, to);
    forall i, j | 0 <= i < j < |r| && r[i].Ordinary? && r[j].Ordinary?
      ensures r[i].id != r[j].id
    {
      var oi, oj := OriginIndex(i, from, to), OriginIndex(j, from, to);
      assert r[i] == s[oi] && r[j] == s[oj];
      assert oi != oj;
      if oi < oj {
        assert s[oi].id != s[oj].id;
      } else {
        assert s[oj].id != s[oi].id;
      }
    }
  }

  /** A new tab with an identity not yet in the bar keeps identities distinct. */
  lemma NewTabKeepsDistinctIds(t: Tabs, tab: Slot)
    requires tab.Ordinary? && DistinctIds(t.slots)
    requires forall k :: 0 <= k < |t.slots| && t.slots[k].Ordinary? ==> t.slots[k].id != tab.id
    ensures DistinctIds(NewTab(t, tab).slots)
  {
    var r := NewTab(t, tab).slots;
    var c := NewTab(t, tab).current;
    forall i, j | 0 <= i < j < |r| && r[i].Ordinary? && r[j].Ordinary?
      ensures r[i].id != r[j].id
    {
      var i0 := if i < c then i else i - 1;
      var j0 := if j < c then j else j - 1;
      if i != c && j != c {
        assert r[i] == t.slots[i0] && r[j] == t.slots[j0];
      } else if i == c {
        assert r[j] == t.slots[j0];
      } else {
        assert r[i] == t.slots[i0];
      }
    }
  }

  /**
    A neighbour swap on a settled bar is either undone by the repair or a
    plain move between two ordinary tabs.
   */
  lemma AdjacentDragShape(t: Tabs, from: int, to: int)
    requires Settled(t) && 0 <= from < |t.slots| && 0 <= to < |t.slots|
    requires from == to + 1 || to == from + 1
    ensures || DragTab(t, from, to) == t
            || (from < |t.slots| - 1 && to < |t.slots| - 1 && DragTab(t, from, to) == MoveTab(t, from, to))
  {
    if from == |t.slots| - 1 {
      DragSentinelUndone(t, from, to);
    } else if to == |t.slots| - 1 {
      DragOntoSentinelUndone(t, from, to);
    } else {
      MoveBelowSentinel(t, from, to);
    }
  }

  /** A title update never touches the sentinel, so the bar stays settled. */
  lemma TitleKeepsSettled(t: Tabs, id: nat, url: string, domain: string, suffix: string)
    requires Settled(t)
    ensures Settled(UpdateTabTitle(t, id, url, domain, suffix))
  {
  }

  /** After the push every browsing tab carries the new user agent, and the bar stays settled. */
  lemma PushReachesEveryTab(t: Tabs, ua: string)
    requires Settled(t)
    ensures Settled(t.(slots := WithAgent(t.slots, ua)))
    ensures forall k :: 0 <= k < |t.slots| && t.slots[k].Ordinary? ==> WithAgent(t.slots, ua)[k].agent == ua
  {
  }

  /** Setting the user agent keeps every ordinary tab's identity where it was, so identities stay distinct. */
  lemma WithAgentKeepsDistinctIds(slots: seq<Slot>, ua: string)
    requires DistinctIds(slots)
    ensures DistinctIds(WithAgent(slots, ua))
  {
    var r := WithAgent(slots, ua);
    forall i, j | 0 <= i < j < |r| && r[i].Ordinary? && r[j].Ordinary?
      ensures r[i].id != r[j].id
    {
      assert slots[i].Ordinary? && slots[j].Ordinary?;
      assert r[i].id == slots[i].id && r[j].id == slots[j].id;
    }
  }

  /** On a bar holding only the sentinel, the new tab goes in front of it and becomes current. */
  lemma FirstTab(tab: Slot)
    requires tab.Ordinary?
    ensures NewTab(Tabs([Sentinel], 0), tab) == Tabs([tab, Sentinel], 0)
  {
    var r := NewTab(Tabs([Sentinel], 0), tab);
    assert r.slots[0] == tab && r.slots[1] == Sentinel;
  }
}
