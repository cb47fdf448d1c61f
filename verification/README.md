# Pac22 browser shell — a Dafny model

Pac22 is a desktop web browser built on a Qt web engine. The model covers
the shell's own logic around the engine.

- **Login dialog.** It provisions the profile folder under `~/.pac22_user`. It merges the
  default configuration into `config.json`, stores a new username, and decides whether the
  process goes on to the browser or exits.
- **Tab bar.** The last slot is a "+" sentinel. Selecting it, or closing the only tab,
  opens a new tab. A drag that displaces it is repaired.
- **Address bar.** Each tab has one. It normalises URLs, appends new URLs to the shared,
  duplicate-free history, and offers case-insensitive suggestions from that history.
- **Identity selector.** It composes the chosen platform and browser labels into a
  user-agent string. The browser pushes that string to every tab.

Everything is a pure function over immutable datatypes. The file system is a map from path
to parsed JSON document. The tab bar is a sequence of slots with a current index. Each
toolkit callback, including a signal it emits and a zero-delay timer it schedules, runs to
completion before the next user event.

| file | module | what it holds |
|---|---|---|
| common.dfy | `Common` | `Option`, `Result`, `Min`, `Max` |
| text.dfy | `Text` | Python `strip`, `lower`, `startswith`, and substring `in` |
| profile.dfy | `Profile` | JSON values, `DEFAULT_CONFIG`, `init_user_folder`, `load_config` |
| session_gate.dfy | `SessionGate` | the login dialog: routing, user creation, closing |
| address_bar.dfy | `AddressBar` | URL normalisation, history, suggestions, a tab's address-bar events |
| user_agent.dfy | `UserAgent` | composing the user agent, and parsing it back to the two labels |
| tab_bar.dfy | `TabBar` | the toolkit's insert/remove/move rules and the browser's tab handlers |
| browser.dfy | `Browser` | the window: start-up, events, and the invariant every event keeps |

Four behaviours of the code shape the model:

- **Start-up.** Adding "+" to the empty bar makes it current. That change reaches
  `check_plus_tab`, which opens exactly one tab, on `https://www.google.com`. See
  `Browser.StartupOpensHomePage`.
- **Misplaced "+".** `on_tab_moved` repairs the bar only when one end of the move is the index
  where "+" now sits. A single move from two or more places away onto the last index is
  therefore not corrected (`TabBar.LongMoveOntoSentinelNotRepaired`, `TabBar.DragSettledIff`).
  The toolkit delivers a drag as a series of neighbour swaps, and every one of those is
  corrected (`TabBar.AdjacentDragKeepsSettled`). So the window's event model only has
  neighbour swaps.
- **Loading the profile.** These are two separate operations. `init_user_folder` creates
  missing files only. `load_config` merges the defaults and rewrites the file only when
  something was added.
- **Focus.** Keyboard focus is not a state of the model. Where the code moves the focus out of
  an address bar, the model applies that bar's focus-out handler at that point, because the
  toolkit runs it synchronously. This happens when `load_url` focuses the page, and when Down
  focuses a visible suggestion list. The user is only "typing" while the field has the focus,
  so this loses nothing.

## Model

| member | source | states |
|---|---|---|
| Text.Trim | browser/browser.py:291-293 | The result is the input with a whitespace-only prefix and suffix removed. It starts and ends with non-whitespace. It is empty exactly when the input is all whitespace. |
| Text.TrimIdempotent | browser/form_login.py:250-251 | Stripping an already stripped name changes nothing. |
| Text.Lower | browser/browser.py:319-321 | Lower-casing keeps the length and folds each character on its own. |
| Profile.FillMissing | browser/form_login.py:79-82 | The default-filling loop keeps every existing value, adds exactly the missing default keys with their default values, and reports a change iff some default key was missing. |
| Profile.MergeDefaults | browser/form_login.py:75-90 | A non-object document, or a non-object `settings` lacking a flag, raises TypeError. Otherwise all top-level keys and all flags are present. `changed` holds iff a key was missing. An unchanged merge returns the document itself. |
| Profile.MergeKeepsExisting | browser/form_login.py:79-90 | Merging keeps every existing value, including an existing `settings` and its flags. With a valid template it adds no key beyond the document's and the defaults'. |
| Profile.SettingsBranchUnreachable | browser/form_login.py:83-85 | After the first loop `settings` is always present, so the branch that re-inserts it is dead. |
| Profile.MergeIdempotent | browser/form_login.py:75-94 | Merging an already merged document adds nothing and reports no change. |
| Profile.LoadConfig | browser/form_login.py:75-94 | A missing file fails to open, and unparsable content fails to parse. On success the merged document is complete and keeps existing values. The file is rewritten with exactly that document iff a key was missing, and no other file changes. |
| Profile.LoadConfigIdempotent | browser/form_login.py:75-94 | A second load finds a complete document and writes nothing. |
| Profile.InitUserFolder | browser/form_login.py:65-73 | A plain file where either directory should be fails. Otherwise both directories exist afterwards. The default configuration and an empty history are written only where no file or directory exists, and every existing file keeps its content. |
| Profile.InitUserFolderIdempotent | browser/form_login.py:65-73 | A second provisioning changes nothing. |
| Profile.DefaultConfigComplete | browser/form_login.py:19-62 | The default document already holds every default key and flag, so merging it changes nothing. |
| Profile.FirstRunLoadsDefaults | browser/form_login.py:65-94 | On a first run the freshly written defaults load back unchanged and are not rewritten. |
| SessionGate.Route | browser/form_login.py:125-131 | The start page is shown iff the stored username is truthy and not "unknown", and that name is then remembered. Otherwise the create page is shown with no name. |
| SessionGate.OpenGate | browser/form_login.py:98-131 | Construction provisions, loads and routes, and the routing follows the stored name. A provisioning conflict propagates as an error. |
| SessionGate.HandleCreateUser | browser/form_login.py:250-256 | A blank input changes nothing. Otherwise the stored name is exactly the input stripped of surrounding whitespace, and the loading page is shown. The start flag and the files are untouched. |
| SessionGate.CreateUserConfig | browser/form_login.py:258-264 | The merged configuration is written back with `username` replaced, no other file changes, and the start page is shown. A load failure propagates. |
| SessionGate.CloseEvent | browser/form_login.py:274-280 | Closing without a click on Start exits with status 0. Otherwise the browser starts on the profile directory. |
| SessionGate.StartBrowser | browser/form_login.py:269-272 | A click on Start always leads to the browser. |
| SessionGate.OpenGateEstablishesInv | browser/form_login.py:125-131 | A freshly opened dialog has not been started, and a shown start page has a usable name. |
| SessionGate.Dismiss | browser/form_login.py:274-280 | As written, Escape ends the dialog without running `closeEvent`, so `app.py` goes on to the browser on the profile directory. Under the intended rule Escape ends the dialog the way closing it does. |
| SessionGate.Step | browser/form_login.py:250-280 | A user action never raises. The dialog ends exactly on a close, on Escape, or on Start clicked while the start page shows. A dialog still running has not been started. |
| SessionGate.RunGate | browser/form_login.py:250-280 | A run never raises. A dialog still running after a run has seen neither a close nor Escape, and has not been started. |
| SessionGate.StepKeepsInv | browser/form_login.py:250-280 | Every user action keeps the dialog invariant. Closing exits with 0. The browser launches exactly on Start on the start page, or, as written, on Escape. Under the intended rule Escape exits with 0. |
| SessionGate.OnlyStartLaunches | browser/form_login.py:269-280 | Over any run the browser starts only if Start was clicked, or, as written, Escape was pressed. Under the intended rule only Start launches it. Any other ending exits with status 0. |
| SessionGate.EscapeLaunchesWithoutStart | browser/form_login.py:274-280 | As written, the one-event run "Escape" launches the browser without a click on Start. Under the intended rule the same run exits with status 0. |
| SessionGate.FirstRunShowsCreatePage | browser/form_login.py:19-20 | On a first run the stored name is the "unknown" placeholder, so the dialog asks for a name. |
| AddressBar.NormalizeUrl | browser/browser.py:291-294 | A blank field yields nothing. Otherwise the result is canonical. It is the stripped text when that starts with "http", and "https://" plus it otherwise. |
| AddressBar.NormalizeIdempotent | browser/browser.py:291-294 | Normalising a normalised URL returns it unchanged. |
| AddressBar.Remember | browser/browser.py:298-300 | The URL is appended iff it is absent. The old history is a prefix, and freedom from duplicates is kept. |
| AddressBar.RememberAllKeepsFirstOccurrences | browser/browser.py:298-300 | After any series of visits the history is the first occurrence of every URL, in order of first visit, without duplicates. |
| AddressBar.FirstOccurrencesMembers | browser/browser.py:298-300 | The reference history holds exactly the visited URLs. |
| AddressBar.Suggestions | browser/browser.py:318-320 | A history entry is suggested iff it contains the lower-cased needle, case-insensitively. There are never more suggestions than entries. |
| AddressBar.SuggestionsAppend | browser/browser.py:318-320 | Suggestions keep history order: filtering commutes with concatenation. |
| AddressBar.ShowSuggestions | browser/browser.py:318-329 | The list is shown iff the stripped text is non-empty and some entry matches. It then holds exactly the matches, and its height is 20 pixels per row capped at 200. |
| AddressBar.LoadUrl | browser/browser.py:286-300 | A blank field does nothing. Otherwise the page gets the canonical URL and takes the focus, which ends typing and hides the list. The text is kept. The history is appended to and saved iff the URL is new. |
| AddressBar.OnTextChanged | browser/browser.py:269-273 | While typing, the list shows the suggestions for the new text. Otherwise it is hidden. |
| AddressBar.HandleKeypress | browser/browser.py:275-289 | The page is never changed. Down on a visible list moves the focus into the list, which ends typing and hides the list. Down on a hidden list only marks the user as typing. Any other key marks the user as typing and edits the field. |
| AddressBar.OnFocusOut | browser/browser.py:286-289 | Leaving the field ends typing and hides the list. |
| AddressBar.HandleEnterPress | browser/browser.py:286-304 | Enter navigates as `load_url` does and leaves the list hidden. The user is still typing afterwards iff they were typing and the field was blank, because a navigation moves the focus to the page. |
| AddressBar.NavigationKeepsListClosed | browser/browser.py:269-309 | After Enter on a non-blank field, the URL the page reports is written into the field without reopening the list. |
| AddressBar.SetText | browser/browser.py:269-273 | The field holds the new text, and the typing flag and page are kept. The same text changes nothing. A different text shows the suggestions while typing and hides the list otherwise. |
| AddressBar.SelectHistoryItem | browser/browser.py:331-333 | The field holds the chosen entry. A blank entry navigates nowhere and leaves the history alone. Otherwise the page gets its canonical URL, typing ends, the list is hidden, and the history remembers the URL. |
| AddressBar.ChoosingRememberedUrl | browser/browser.py:331-333 | Choosing a remembered canonical URL opens it, ends typing, and leaves the history and the history file alone. |
| AddressBar.UpdateUrlBar | browser/browser.py:306-309 | A URL reported by the page is written into the field without navigating. |
| AddressBar.Dispatch | browser/browser.py:269-333 | One address-bar event keeps the old history as a prefix and adds at most one URL. The history file is written iff the history changed. Freedom from duplicates is kept. |
| AddressBar.DispatchKeepsConsistent | browser/browser.py:269-333 | Every address-bar event keeps the list hidden unless the user types. When shown, the list is exactly the suggestions for the current text and history. |
| UserAgent.FirstChecked | browser/browser.py:399-401 | The label is that of the first checked button, or "" when none is checked. |
| UserAgent.Compose | browser/browser.py:402 | The string starts with the fixed Mozilla lead followed by the platform label, and ends with the platform label again. Its length is the fixed parts plus the platform twice and the browser once. |
| UserAgent.Parse | browser/browser.py:402 | Whatever parses is exactly the composition of the two labels it yields. |
| UserAgent.ParseCompose | browser/browser.py:402 | A composed string parses back to its platform and browser labels. |
| UserAgent.ComposeInjective | browser/browser.py:402 | Two selections give the same user agent only if they are the same selection. |
| UserAgent.CheckedLabelsParse | browser/browser.py:360-363 | For every combination of checked buttons, the composed user agent reads back as the two labels picked. |
| TabBar.Insert | browser/browser.py:560 | Insertion shifts later slots right and keeps the multiset plus the new slot. |
| TabBar.RemoveAt | browser/browser.py:636 | Removal shifts later slots left and keeps the multiset minus the removed slot. |
| TabBar.Move | browser/browser.py:612-616 | A move keeps the length. Each slot comes from its origin index. |
| TabBar.MovePermutes | browser/browser.py:612-616 | A move is the removal of the slot at `from` followed by its insertion at `to`, and it keeps the multiset of slots. |
| TabBar.MoveCarries | browser/browser.py:612-616 | The slot at `k` is found at its moved index afterwards. |
| TabBar.MoveBack | browser/browser.py:612-616 | Moving a slot and moving it straight back restores the list. |
| TabBar.IndexOfSentinelSpec | browser/browser.py:613 | The index found is that of the first sentinel, or -1 when there is none. |
| TabBar.IndexOfId | browser/browser.py:340 | The result is the first index of the tab with that identity, or -1. |
| TabBar.SetCurrentIndex | browser/browser.py:618-620 | A valid index becomes current. A new tab is requested iff a different index lands on the "+" slot. Invalid indices change nothing. |
| TabBar.RemoveTab | browser/browser.py:636 | The slot is removed. An earlier current index shifts down. Removing the current slot selects the one sliding into its place, and a new tab is requested iff that is "+". |
| TabBar.MoveTab | browser/browser.py:612-616 | The moved slot lands at `to`, the length is kept, and the current tab stays current. Equal or invalid indices change nothing. |
| TabBar.MoveTabBack | browser/browser.py:612-616 | Moving a tab and moving it straight back restores the slots and the current index. |
| TabBar.AdjacentMoveTabSymmetric | browser/browser.py:612-616 | Swapping neighbours is the same move in either direction. |
| TabBar.NewTab | browser/browser.py:557-561 | The tab is inserted just before the last slot (at 0 on an empty bar) and made current. Other slots keep their order. |
| TabBar.CloseTab | browser/browser.py:631-636 | Closing the last index ("+") or an invalid index does nothing. Otherwise exactly that slot is removed, and the current index follows the left-neighbour rule. A new tab is requested iff the only tab was closed. In every other case the bar stays settled. |
| TabBar.OnTabMoved | browser/browser.py:612-616 | Nothing changes unless one end of the move is where "+" sits. Then "+" is moved to the end. The length and the current tab are kept. |
| TabBar.RepairPutsSentinelLast | browser/browser.py:612-616 | When the handler reacts on a bar with a single "+", that "+" ends last and every other slot is a tab. |
| TabBar.OnTabMovedPermutes | browser/browser.py:612-616 | The repair keeps the multiset of slots. |
| TabBar.DragTab | browser/browser.py:612-616 | A drag step keeps the length and the current tab. |
| TabBar.DragPermutes | browser/browser.py:612-616 | A drag step, repair included, keeps the multiset of slots. |
| TabBar.TabTitle | browser/browser.py:338-339 | The label is "domain.suffix" when a domain was recognised, and the URL otherwise. |
| TabBar.UpdateTabTitle | browser/browser.py:335-342 | An empty URL changes nothing. Only that tab's title changes, and only below the last index. Identities and agents are kept. |
| TabBar.WithAgent | browser/browser.py:404-407 | Every ordinary tab below the last index gets the user agent, and the "+" slot stays last. |
| TabBar.PushUserAgent | browser/browser.py:404-407 | The loop over `range(count - 1)` sets the user agent of each ordinary tab and leaves the last slot alone. |
| TabBar.StartupOpensOneTab | browser/browser.py:564-575 | Adding "+" to the empty bar leads to exactly one current ordinary tab before it. |
| TabBar.SelectKeepsSettled | browser/browser.py:618-620 | Selecting an ordinary tab makes it current. Selecting "+" opens a new tab instead, and the bar stays settled. |
| TabBar.CloseKeepsSettled | browser/browser.py:631-636 | After a close, and the new tab it may trigger, the bar is settled with at least one tab. |
| TabBar.SentinelAfterMove | browser/browser.py:612-613 | After a move on a settled bar, the first "+" is found at the moved index of the last slot. |
| TabBar.MoveBelowSentinel | browser/browser.py:612-616 | A move between ordinary tabs needs no repair and keeps the bar settled. |
| TabBar.DragSentinelUndone | browser/browser.py:612-616 | Moving "+" itself is undone by the repair. |
| TabBar.DragOntoSentinelUndone | browser/browser.py:612-616 | Dragging the tab next to "+" onto it is undone by the repair. |
| TabBar.LongMoveOntoSentinelNotRepaired | browser/browser.py:612-616 | A move from two or more places away onto the last index is not repaired, and "+" is no longer last. |
| TabBar.DragSettledIff | browser/browser.py:612-616 | After a move the bar is settled iff the move is not one from two or more places away onto the last index. |
| TabBar.DragKeepsSettled | browser/browser.py:612-616 | Every move other than the long one onto the last index leaves the bar settled. |
| TabBar.AdjacentDragKeepsSettled | browser/browser.py:612-616 | A neighbour swap always leaves the bar settled. |
| TabBar.MoveKeepsDistinctIds | browser/browser.py:612-616 | Moves keep tab identities distinct. |
| TabBar.NewTabKeepsDistinctIds | browser/browser.py:557-561 | Inserting a tab with an unused identity keeps identities distinct. |
| TabBar.AdjacentDragShape | browser/browser.py:612-616 | A neighbour swap is either undone, or is a plain move between two ordinary tabs. |
| TabBar.TitleKeepsSettled | browser/browser.py:335-342 | A title update keeps the bar settled. |
| TabBar.PushReachesEveryTab | browser/browser.py:404-407 | After the push every tab carries the new user agent, and the bar stays settled. |
| TabBar.WithAgentKeepsDistinctIds | browser/browser.py:404-407 | The push keeps tab identities distinct. |
| TabBar.FirstTab | browser/browser.py:557-561 | On a bar holding only "+", the new tab goes in front of it and becomes current. |
| Browser.OpenTab | browser/browser.py:557-561 | A new tab with a fresh identity and the window's user agent is inserted before "+" and becomes current. |
| Browser.OpenTabLoads | browser/browser.py:557-558 | The new tab's address bar holds `url or "https://www.google.com"` and loads it. The history gains that URL iff it is new, the history file follows it, and other tabs' bars are untouched. |
| Browser.Startup | browser/browser.py:411-414 | The window starts with the given user agent, or the default one when it is empty, and satisfies the window invariant. |
| Browser.StartupOpensHomePage | browser/browser.py:497-510 | Start-up shows one current tab before "+", on the home page, and the history remembers the home page. |
| Browser.HomePageLoads | browser/browser.py:557-558 | The home page is a non-blank URL the address bar sends unchanged. |
| Browser.CloseTab | browser/browser.py:631-636 | Closing "+" or an invalid index changes nothing. A tab is opened exactly when the only tab was closed. Otherwise the history, the history file and the address bars are untouched. The user agent is kept, and the history only grows. |
| Browser.SelectTab | browser/browser.py:618-620 | An invalid index changes nothing. An ordinary tab just becomes current. A new tab is opened exactly when a different index lands on "+". The user agent is kept, and the history only grows. |
| Browser.SetUserAgent | browser/browser.py:404-407 | The window's user agent becomes the given one. On a bar with "+" last, "+" stays last and every ordinary tab gets the agent. History, history file, bars, identities and the current index are kept. |
| Browser.UpdateUserAgent | browser/browser.py:399-407 | The new user agent reads back as the first checked platform and browser labels. Every tab gets it, and the history and bars are unchanged. |
| Browser.BarInput | browser/browser.py:291-333 | An address-bar event grows the history by at most one URL and keeps it duplicate-free. The history file follows the history. Only displayed tabs react. |
| Browser.OpenTabKeepsInv | browser/browser.py:557-561 | Opening a tab keeps the window invariant. |
| Browser.CloseKeepsInv | browser/browser.py:631-636 | Closing a tab keeps the window invariant. |
| Browser.SelectKeepsInv | browser/browser.py:618-620 | Selecting a tab keeps the window invariant. |
| Browser.DragKeepsInv | browser/browser.py:612-616 | A drag step keeps the window invariant. |
| Browser.SetUserAgentKeepsInv | browser/browser.py:404-407 | Setting and pushing any user agent keeps the window invariant. |
| Browser.IdentityKeepsInv | browser/browser.py:399-407 | Changing the identity keeps the window invariant, including every tab announcing the new user agent. |
| Browser.TitleKeepsInv | browser/browser.py:335-342 | A title update keeps the window invariant. |
| Browser.StepKeepsInv | browser/browser.py:577-650 | Every deliverable event keeps the window invariant: "+" last and alone, an ordinary tab current, the history file equal to the history, and distinct registered tabs on the current user agent. |
| Browser.Step | browser/browser.py:577-650 | An event never shrinks the history and never reuses an identity. Only the identity selector changes the user agent. |
| Browser.Run | browser/browser.py:497-650 | Over any run the history only grows and identities are never reused. Without an identity change the user agent is kept. |
| Browser.RunKeepsInv | browser/browser.py:497-650 | The window invariant holds after any sequence of events. |

## Left out

- Layout, styling, icons, cursor position, repositioning of the suggestion list, and the blurred background are not modelled: they are presentation only. Focus is modelled only through the focus-out handler it triggers (see "Focus" above).
- The web engine is not modelled. Page loading, back/forward/reload, scrollbar scripts, developer tools and the video tab are outside the model. A page's URL and title changes arrive as events.
- The domain extractor (`tldextract`) is a parameter: `domain` and `suffix` are supplied with each title event.
- The random `key` in `DEFAULT_CONFIG` is a parameter of `Profile.SourceTemplate`, because it comes from `os.urandom`.
- Real file I/O is not modelled. The file system is an abstract map. `json.load` either returns a value or fails, JSON numbers are integers, and `expanduser` is not applied to the profile path.
- The window's history is a parameter of `Browser.Startup`, because the file it comes from belongs to the private browsing profile, which is not part of this model.
- `PrivateProfile`, the rest of `app.py` beyond its launch decision, the login dialog's image handling and the Ctrl+Q / Ctrl+N / F12 shortcuts are not modelled: they are process control and presentation.
- Text.Lower: folds only ASCII letters, not the full Unicode case mapping of Python's `str.lower`.
- `check_plus_tab` is connected twice, and each radio click toggles two buttons. Both handlers are idempotent here, so each is modelled as running once.
- The zero-delay timers of `on_tab_moved` and the 1.2-second delay before `create_user_config` are modelled as running before the next user event.
- Keyboard navigation inside the suggestion list is not modelled, because the list widget handles it itself. Down moving the focus there is modelled: the field loses the focus, so typing ends and the list is hidden.
- Address bars of closed tabs stay in the window's map, because they are never reachable again. Only tabs still in the bar react to input (`Browser.Displayed`).
- Browser.Step: a single move from two or more places away onto the last index is not a deliverable event, because the toolkit delivers drags as neighbour swaps. What such a move does is stated by `TabBar.LongMoveOntoSentinelNotRepaired` and `TabBar.DragSettledIff`.

## Findings

| source | as written | input that shows it | evidently intended | confidence | as-written member | corrected member |
|---|---|---|---|---|---|---|
| browser/form_login.py:274-280, app.py:30-35 | Escape closes the dialog through `reject()`, which does not run the overridden `closeEvent`. `exec()` returns, `diretorio` is always set, and `app.py` opens the browser. | The one-event run "Escape" on a dialog where Start was never clicked | Only a click on Start opens the browser (form_login.py:269-272). Any other way of leaving the dialog exits with status 0, as `closeEvent` does. | medium, not executed | SessionGate.EscapeLaunchesWithoutStart | SessionGate.OnlyStartLaunches |
