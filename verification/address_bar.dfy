/**
  The address bar of one browsing tab: URL normalisation, the append-only,
  duplicate-free history it feeds, and the case-insensitive suggestion list
  drawn from that history.
 */
module AddressBar {
  import opened Common
  import opened Text

  const SecureScheme: string := "https://"

  /** A URL as the address bar dispatches it: starting with "http" and without surrounding whitespace. */
  predicate Canonical(u: string) {
    StartsWith(u, "http") && IsTrimmed(u)
  }

  /**
    The normalisation step of `load_url`: trim the text, give up on an empty
    result, and prefix the secure scheme unless the text already starts with "http".
   */
  function NormalizeUrl(text: string): (r: Option<string>)
    ensures r.None? <==> AllSpace(text)
    ensures r.Some? ==> Canonical(r.value)
    ensures r.Some? && StartsWith(Trim(text), "http") ==> r.value == Trim(text)
    ensures r.Some? && !StartsWith(Trim(text), "http") ==> r.value == SecureScheme + Trim(text)
  {
    var url := Trim(text);
    if url == [] then None
    else if StartsWith(url, "http") then Some(url)
    else
      var full := SecureScheme + url;
      assert full[..4] == "http";
      assert full[|full| - 1] == url[|url| - 1];
      Some(full)
  }

  /** A canonical URL normalises to itself, so normalising twice is normalising once. */
  lemma NormalizeFixesCanonical(u: string)
    requires Canonical(u)
    ensures NormalizeUrl(u) == Some(u)
  {
    TrimOfTrimmed(u);
  }

  lemma NormalizeIdempotent(text: string)
    requires NormalizeUrl(text).Some?
    ensures NormalizeUrl(NormalizeUrl(text).value) == NormalizeUrl(text)
  {
    NormalizeFixesCanonical(NormalizeUrl(text).value);
  }

  predicate NoDuplicates(h: seq<string>) {
    forall i, j :: 0 <= i < j < |h| ==> h[i] != h[j]
  }

  /** The history update of `load_url`: append the URL unless it is already present (exact match). */
  function Remember(history: seq<string>, url: string): (r: seq<string>)
    ensures url in r && history <= r
    ensures |r| == |history| + (if url in history then 0 else 1)
    ensures forall u :: u in r <==> u in history || u == url
    ensures NoDuplicates(history) ==> NoDuplicates(r)
  {
    if url in history then history else history + [url]
  }

  /** Visiting `urls` in order, starting from `history`. */
  function RememberAll(history: seq<string>, urls: seq<string>): seq<string>
    decreases |urls|
  {
    if urls == [] then history
    else Remember(RememberAll(history, urls[..|urls| - 1]), urls[|urls| - 1])
  }

  /** Reference definition: the first occurrence of every element, in order. */
  function FirstOccurrences(s: seq<string>): seq<string>
    decreases |s|
  {
    if s == [] then []
    else
      var init := s[..|s| - 1];
      FirstOccurrences(init) + (if s[|s| - 1] in init then [] else [s[|s| - 1]])
  }

  lemma {:induction false} FirstOccurrencesMembers(s: seq<string>)
    ensures forall x :: x in FirstOccurrences(s) <==> x in s
    decreases |s|
  {
    if s != [] {
      var init := s[..|s| - 1];
      FirstOccurrencesMembers(init);
      assert s == init + [s[|s| - 1]];
    }
  }

  lemma {:induction false} FirstOccurrencesDistinct(s: seq<string>)
    ensures NoDuplicates(FirstOccurrences(s))
    decreases |s|
  {
    if s != [] {
      var init := s[..|s| - 1];
      FirstOccurrencesDistinct(init);
      FirstOccurrencesMembers(init);
    }
  }

  lemma {:induction false} FirstOccurrencesOfDistinct(s: seq<string>)
    requires NoDuplicates(s)
    ensures FirstOccurrences(s) == s
    decreases |s|
  {
    if s != [] {
      var init := s[..|s| - 1];
      FirstOccurrencesOfDistinct(init);
      assert s == init + [s[|s| - 1]];
    }
  }

  /**
    Starting from a duplicate-free history, any sequence of visits leaves
    every distinct URL exactly once, in order of first visit.
   */
  lemma {:induction false} RememberAllKeepsFirstOccurrences(history: seq<string>, urls: seq<string>)
    requires NoDuplicates(history)
    ensures RememberAll(history, urls) == FirstOccurrences(history + urls)
    ensures NoDuplicates(RememberAll(history, urls))
    decreases |urls|
  {
    if urls == [] {
      FirstOccurrencesOfDistinct(history);
      assert history + urls == history;
    } else {
      var prior := urls[..|urls| - 1];
      var u := urls[|urls| - 1];
      RememberAllKeepsFirstOccurrences(history, prior);
      FirstOccurrencesMembers(history + prior);
      assert (history + urls)[..|history + urls| - 1] == history + prior;
    }
    FirstOccurrencesDistinct(history + urls);
  }

  /** `lower(trim(text))`, the needle the suggestion filter looks for. */
  function Query(text: string): string {
    Lower(Trim(text))
  }

  /** Case-insensitive containment of the needle in a history entry. */
  predicate Matches(query: string, url: string) {
    Contains(Lower(url), query)
  }

  /** The history entries that contain the needle, in history order. */
  function Suggestions(history: seq<string>, query: string): (r: seq<string>)
    ensures forall u :: u in r <==> u in history && Matches(query, u)
    ensures |r| <= |history|
    decreases |history|
  {
    if history == [] then []
    else (if Matches(query, history[0]) then [history[0]] else []) + Suggestions(history[1..], query)
  }

  /** Filtering commutes with concatenation: the filter keeps history order. */
  lemma {:induction false} SuggestionsAppend(a: seq<string>, b: seq<string>, query: string)
    ensures Suggestions(a + b, query) == Suggestions(a, query) + Suggestions(b, query)
    decreases |a|
  {
    if a != [] {
      SuggestionsAppend(a[1..], b, query);
      assert (a + b)[1..] == a[1..] + b;
    } else {
      assert a + b == b;
    }
  }

  /** Each suggestion row is 20 pixels tall, and the list is capped at 200 pixels. */
  const RowHeight: int := 20
  const MaxListHeight: int := 200

  /** The suggestion popup: hidden, or shown with its entries and its fixed height. */
  datatype ListView = Hidden | Shown(items: seq<string>, height: int)

  /**
    `show_suggestions`: show the matching history entries when the trimmed
    text is non-empty and something matches, otherwise hide the list.
   */
  function ShowSuggestions(text: string, history: seq<string>): (r: ListView)
    ensures r.Shown? <==> !AllSpace(text) && exists u :: u in history && Matches(Query(text), u)
    ensures r.Shown? ==> r.items == Suggestions(history, Query(text)) && r.items != []
    ensures r.Shown? ==> r.height == Min(RowHeight * |r.items|, MaxListHeight)
    ensures r.Shown? ==> RowHeight <= r.height <= MaxListHeight
  {
    var query := Query(text);
    if query != [] then
      var suggestions := Suggestions(history, query);
      if suggestions != [] then
        assert suggestions[0] in history && Matches(query, suggestions[0]);
        Shown(suggestions, Min(|suggestions| * RowHeight, MaxListHeight))
      else Hidden
    else Hidden
  }

  /**
    One tab's address bar: the text in the field, whether the user is typing,
    the suggestion list, and the URL most recently sent to the page view.
   */
  datatype Bar = Bar(text: string, typing: bool, list: ListView, page: Option<string>)

  /** The effect of a navigation attempt on the tab and on the shared history. */
  datatype Navigated = Navigated(bar: Bar, history: seq<string>, saved: bool)

  /**
    `load_url`: an empty (after trimming) field does nothing at all;
    otherwise the page is sent to the normalised URL and given the focus,
    which takes it from the field (ending typing and hiding the list), and
    a URL not yet in the history is appended and the history saved once.
   */
  function LoadUrl(bar: Bar, history: seq<string>): (r: Navigated)
    ensures AllSpace(bar.text) ==> r == Navigated(bar, history, false)
    ensures !AllSpace(bar.text) ==> && r.bar.page.Some? && Canonical(r.bar.page.value)
                                     && r.bar.page == NormalizeUrl(bar.text)
                                     && r.bar == bar.(page := r.bar.page, typing := false, list := Hidden)
    ensures r.saved <==> !AllSpace(bar.text) && r.bar.page.value !in history
    ensures r.saved ==> r.history == history + [r.bar.page.value]
    ensures !r.saved ==> r.history == history
    ensures NoDuplicates(history) ==> NoDuplicates(r.history)
  {
    match NormalizeUrl(bar.text)
    case None => Navigated(bar, history, false)
    case Some(url) =>
      Navigated(OnFocusOut(bar.(page := Some(url))), Remember(history, url), url !in history)
  }

  /** A changed field: suggestions are recomputed while typing and hidden otherwise. */
  function OnTextChanged(bar: Bar, text: string, history: seq<string>): (r: Bar)
    ensures r.text == text && r.typing == bar.typing && r.page == bar.page
    ensures !bar.typing ==> r.list == Hidden
    ensures bar.typing ==> r.list == ShowSuggestions(text, history)
  {
    var b := bar.(text := text);
    if b.typing then b.(list := ShowSuggestions(text, history)) else b.(list := Hidden)
  }

  /** `setText`: the change signal fires only when the text really changes. */
  function SetText(bar: Bar, text: string, history: seq<string>): (r: Bar)
    ensures r.text == text && r.typing == bar.typing && r.page == bar.page
    ensures text == bar.text ==> r == bar
    ensures text != bar.text ==> r.list == (if bar.typing then ShowSuggestions(text, history) else Hidden)
  {
    if text == bar.text then bar else OnTextChanged(bar, text, history)
  }

  /** Keys reaching the field: Down, or any key that leaves the field holding `text`. */
  datatype Key = ArrowDown | Edit(text: string)

  /** Leaving the field ends typing and hides the list. */
  function OnFocusOut(bar: Bar): (r: Bar)
    ensures !r.typing && r.list == Hidden && r.text == bar.text && r.page == bar.page
  {
    bar.(typing := false, list := Hidden)
  }

  /**
    A key press marks the user as typing. Down with the list visible gives
    the list the focus, which takes it from the field: typing ends and the
    list is hidden again. Every other key is handled by the field itself.
   */
  function HandleKeypress(bar: Bar, key: Key, history: seq<string>): (r: Bar)
    ensures r.page == bar.page
    ensures key.ArrowDown? && bar.list.Shown? ==> r == bar.(typing := false, list := Hidden)
    ensures key.ArrowDown? && !bar.list.Shown? ==> r == bar.(typing := true)
    ensures key.Edit? ==> r.typing && r.text == key.text
  {
    var b := bar.(typing := true);
    match key
    case ArrowDown => if bar.list.Shown? then OnFocusOut(b) else b
    case Edit(text) => SetText(b, text, history)
  }

  /**
    Enter in the field: navigate, then hide the list. A navigation leaves
    the field without focus, so typing ends; a blank field keeps it.
   */
  function HandleEnterPress(bar: Bar, history: seq<string>): (r: Navigated)
    ensures r.bar.list == Hidden
    ensures r.bar.typing <==> bar.typing && AllSpace(bar.text)
    ensures r.history == LoadUrl(bar, history).history && r.saved == LoadUrl(bar, history).saved
  {
    var n := LoadUrl(bar, history);
    n.(bar := n.bar.(list := Hidden))
  }

  /** Choosing a suggestion: put it in the field and navigate to it. */
  function SelectHistoryItem(bar: Bar, item: string, history: seq<string>): (r: Navigated)
    ensures r.bar.text == item
    ensures AllSpace(item) ==> r.history == history && !r.saved && r.bar.page == bar.page
    ensures !AllSpace(item) ==> && r.bar.page == NormalizeUrl(item) && !r.bar.typing && r.bar.list == Hidden
                                && r.history == Remember(history, NormalizeUrl(item).value)
  {
    LoadUrl(SetText(bar, item, history), history)
  }

  /** Choosing a suggestion the bar itself recorded reopens it without touching the history. */
  lemma ChoosingRememberedUrl(bar: Bar, item: string, history: seq<string>)
    requires item in history && Canonical(item)
    ensures SelectHistoryItem(bar, item, history) == Navigated(
              SetText(bar, item, history).(page := Some(item), typing := false, list := Hidden), history, false)
  {
    var b := SetText(bar, item, history);
    NormalizeFixesCanonical(item);
    assert NormalizeUrl(b.text) == Some(item);
  }

  /** The page view reports a new URL: it is written into the field. */
  function UpdateUrlBar(bar: Bar, url: string, history: seq<string>): (r: Bar)
    ensures r.text == url && r.page == bar.page && r.typing == bar.typing
  {
    SetText(bar, url, history)
  }

  /**
    Once Enter has sent the page somewhere, the URL the page reports back
    is written into the field without reopening the suggestion list.
   */
  lemma NavigationKeepsListClosed(bar: Bar, history: seq<string>, url: string, later: seq<string>)
    requires !AllSpace(bar.text)
    ensures UpdateUrlBar(HandleEnterPress(bar, history).bar, url, later).list == Hidden
  {
  }

  /** The events a tab's address bar reacts to. */
  datatype BarEvent =
    | KeyPressed(key: Key)
    | FocusLost
    | EnterPressed
    | ItemChosen(item: string)
    | PageUrlChanged(url: string)

  /**
    One event. Enter is a key press too: the key handler marks the user as
    typing before the field reports Enter.
   */
  function Dispatch(bar: Bar, e: BarEvent, history: seq<string>): (r: Navigated)
    ensures history <= r.history && |r.history| <= |history| + 1
    ensures r.saved <==> r.history != history
    ensures NoDuplicates(history) ==> NoDuplicates(r.history)
  {
    match e
    case KeyPressed(key) => Navigated(HandleKeypress(bar, key, history), history, false)
    case FocusLost => Navigated(OnFocusOut(bar), history, false)
    case EnterPressed => HandleEnterPress(bar.(typing := true), history)
    case ItemChosen(item) => SelectHistoryItem(bar, item, history)
    case PageUrlChanged(url) => Navigated(UpdateUrlBar(bar, url, history), history, false)
  }

  /**
    The list is only ever visible while the user types, and what it shows
    is exactly the suggestions for the current text and history.
   */
  predicate Consistent(bar: Bar, history: seq<string>) {
    && (!bar.typing ==> bar.list == Hidden)
    && (bar.list.Shown? ==> bar.list == ShowSuggestions(bar.text, history))
  }

  lemma DispatchKeepsConsistent(bar: Bar, e: BarEvent, history: seq<string>)
    requires Consistent(bar, history)
    ensures Consistent(Dispatch(bar, e, history).bar, Dispatch(bar, e, history).history)
  {
    match e
    case ItemChosen(item) =>
      var b := SetText(bar, item, history);
      assert Consistent(b, history);
    case _ =>
  }
}
