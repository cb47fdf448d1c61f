/**
  The login dialog that runs before the browser window: it provisions the
  profile files, routes to the start page for a returning user or to the
  create page otherwise, stores a new username, and decides whether the
  process goes on to the browser or exits.
 */
module SessionGate {
  import opened Common
  import opened Text
  import opened Profile

  /** The three pages of the dialog's stacked layout. */
  datatype Page = CreatePage | LoadingPage | StartPage

  /**
    The dialog's state: the visible page, `self.username` (None until a name
    is known), `self.start_clicked`, and the file system it works on.
   */
  datatype Gate = Gate(page: Page, username: Option<Json>, startClicked: bool, fs: FileSystem)

  /** How the dialog ends: the process exits, or the browser starts on a profile directory. */
  datatype Terminal = ExitProcess(code: int) | LaunchBrowser(directory: string)

  /** A stored name that skips the create page: truthy, and not the "unknown" placeholder. */
  predicate KnownUser(j: Json) {
    Truthy(j) && j != JStr("unknown")
  }

  /** `dict.get(k)`: the value, or None (JSON null) when the key is absent. */
  function Get(m: map<string, Json>, k: string): Json {
    if k in m then m[k] else JNull
  }

  /** What the dialog shows for a loaded configuration document. */
  function Route(config: map<string, Json>, fs: FileSystem): (g: Gate)
    ensures g.page == StartPage <==> KnownUser(Get(config, "username"))
    ensures g.page == StartPage ==> g.username == Some(config["username"])
    ensures g.page != StartPage ==> g.page == CreatePage && g.username == None
    ensures !g.startClicked && g.fs == fs
  {
    var stored := Get(config, "username");
    if KnownUser(stored) then Gate(StartPage, Some(stored), false, fs)
    else Gate(CreatePage, None, false, fs)
  }

  /**
    The dialog's constructor: provision the folder and files, load the
    configuration, and route on the stored username. Errors propagate.
   */
  function OpenGate(fs: FileSystem, t: Template): (r: Result<Gate, ProfileError>)
    ensures (ConfigDir in fs.files || DefaultFolder in fs.files) ==> r == Err(PathConflict)
    ensures r.Ok? ==> !r.value.startClicked && r.value.page != LoadingPage
    ensures r.Ok? ==> ConfigFile in r.value.fs.files
    ensures r.Ok? ==> r.value.fs.files[ConfigFile].Valid? && r.value.fs.files[ConfigFile].json.JObj?
    ensures r.Ok? ==> var stored := Get(r.value.fs.files[ConfigFile].json.fields, "username");
                      && (r.value.page == StartPage <==> KnownUser(stored))
                      && (r.value.page == StartPage ==> r.value.username == Some(stored))
    ensures (r.Ok? && ConfigFile in fs.files && fs.files[ConfigFile].Valid?
             && fs.files[ConfigFile].json.JObj? && "username" in fs.files[ConfigFile].json.fields)
            ==> (r.value.page == StartPage <==> KnownUser(fs.files[ConfigFile].json.fields["username"]))
  {
    match InitUserFolder(fs, t)
    case Err(e) => Err(e)
    case Ok(fs1) =>
      match LoadConfig(fs1, t)
      case Err(e) => Err(e)
      case Ok(loaded) => Ok(Route(loaded.config, loaded.fs))
  }

  /**
    The create button: the name is the input with surrounding whitespace
    removed; an input that is blank after that is ignored.
   */
  function HandleCreateUser(g: Gate, input: string): (r: Gate)
    ensures AllSpace(input) ==> r == g
    ensures !AllSpace(input) ==> r.page == LoadingPage && r.username == Some(JStr(Trim(input)))
    ensures r.startClicked == g.startClicked && r.fs == g.fs
  {
    var name := Trim(input);
    if name == [] then g else g.(username := Some(JStr(name)), page := LoadingPage)
  }

  /** The JSON value `json.dump` writes for `self.username`. */
  function UsernameJson(u: Option<Json>): Json {
    match u
    case Some(j) => j
    case None => JNull
  }

  /**
    The deferred provisioning step: load (and merge) the configuration,
    store the username in it, write it back, and show the start page.
   */
  function CreateUserConfig(g: Gate, t: Template): (r: Result<Gate, ProfileError>)
    ensures r.Ok? <==> LoadConfig(g.fs, t).Ok?
    ensures r.Err? ==> r.error == LoadConfig(g.fs, t).error
    ensures r.Ok? ==> r.value == g.(page := StartPage, fs := r.value.fs)
    ensures r.Ok? ==> var merged := LoadConfig(g.fs, t).value.config;
                      && ConfigFile in r.value.fs.files
                      && r.value.fs.files[ConfigFile] == Valid(JObj(merged["username" := UsernameJson(g.username)]))
    ensures r.Ok? ==> r.value.fs.dirs == g.fs.dirs
                      && r.value.fs.files.Keys == g.fs.files.Keys
                      && forall p :: p in g.fs.files && p != ConfigFile ==> r.value.fs.files[p] == g.fs.files[p]
  {
    match LoadConfig(g.fs, t)
    case Err(e) => Err(e)
    case Ok(loaded) =>
      var config := loaded.config["username" := UsernameJson(g.username)];
      Ok(g.(page := StartPage, fs := Write(loaded.fs, ConfigFile, JObj(config))))
  }

  /** Closing the dialog: without a click on Start the whole process exits with status 0. */
  function CloseEvent(g: Gate): (r: Terminal)
    ensures r.ExitProcess? <==> !g.startClicked
    ensures r.ExitProcess? ==> r.code == 0
    ensures r.LaunchBrowser? ==> r.directory == ConfigDir
  {
    if !g.startClicked then ExitProcess(0) else LaunchBrowser(ConfigDir)
  }

  /** The Start button records the click and closes the dialog. */
  function StartBrowser(g: Gate): (r: Terminal)
    ensures r == LaunchBrowser(ConfigDir)
  {
    CloseEvent(g.(startClicked := true))
  }

  /** What the user can do to the dialog. */
  datatype GateEvent = Submit(input: string) | ClickStart | CloseWindow | PressEscape

  /**
    How Escape ends the dialog. As written, Escape runs `QDialog.reject()`,
    which hides the dialog and ends `exec()` while swallowing the close
    event, so the overridden `closeEvent` never runs; the caller then starts
    the browser on `f.diretorio`, which is always the profile directory.
    As intended ("the browser opens only after Start"), Escape would end the
    dialog the way closing the window does.
   */
  datatype EscapeRule = AsWritten | AsIntended

  /** The outcome of Escape under either rule. */
  function Dismiss(g: Gate, rule: EscapeRule): (r: Terminal)
    ensures rule == AsWritten ==> r == LaunchBrowser(ConfigDir)
    ensures rule == AsIntended ==> r == CloseEvent(g)
  {
    match rule
    case AsWritten => LaunchBrowser(ConfigDir)
    case AsIntended => CloseEvent(g)
  }

  /** The dialog while it runs, once it has ended, or after an exception escaped. */
  datatype Run = Running(gate: Gate) | Finished(outcome: Terminal) | Crashed(error: ProfileError)

  /**
    One user action. A button can only be clicked while its page is shown.
    Submitting runs `handle_create_user` and then the deferred provisioning
    step; an exception inside that timer callback is reported by the toolkit
    and leaves the dialog on the loading page.
   */
  function Step(g: Gate, e: GateEvent, t: Template, rule: EscapeRule): (r: Run)
    ensures !r.Crashed?
    ensures r.Finished? <==> e.CloseWindow? || e.PressEscape? || (e.ClickStart? && g.page == StartPage)
    ensures r.Running? ==> r.gate.startClicked == g.startClicked
  {
    match e
    case Submit(input) =>
      if g.page != CreatePage then Running(g)
      else
        var h := HandleCreateUser(g, input);
        if h.page != LoadingPage then Running(h)
        else
          var provisioned := CreateUserConfig(h, t);
          if provisioned.Ok? then Running(provisioned.value) else Running(h)
    case ClickStart =>
      if g.page == StartPage then Finished(StartBrowser(g)) else Running(g)
    case CloseWindow => Finished(CloseEvent(g))
    case PressEscape => Finished(Dismiss(g, rule))
  }

  /**
    Feeds events to the dialog until it ends. A dialog still running has
    seen neither a close nor Escape.
   */
  function RunGate(g: Gate, events: seq<GateEvent>, t: Template, rule: EscapeRule): (r: Run)
    ensures !r.Crashed?
    ensures r.Running? ==> forall k :: 0 <= k < |events| ==> !events[k].CloseWindow? && !events[k].PressEscape?
    ensures r.Running? ==> r.gate.startClicked == g.startClicked
    decreases |events|
  {
    if events == [] then Running(g)
    else
      match Step(g, events[0], t, rule)
      case Running(g2) =>
        var r := RunGate(g2, events[1..], t, rule);
        assert r.Running? ==> forall k :: 1 <= k < |events| ==> events[k] == events[1..][k - 1];
        r
      case other => other
  }

  /**
    What holds of the dialog while it runs: Start has not been clicked, the
    start page always has a usable name, and the loading page has the name
    just entered.
   */
  predicate GateInv(g: Gate) {
    && !g.startClicked
    && (g.page == StartPage ==> g.username.Some? && Truthy(g.username.value))
    && (g.page == LoadingPage ==> g.username.Some? && Truthy(g.username.value))
  }

  lemma OpenGateEstablishesInv(fs: FileSystem, t: Template)
    requires OpenGate(fs, t).Ok?
    ensures GateInv(OpenGate(fs, t).value)
  {
  }

  /**
    Every step keeps the invariant. The browser is launched by the Start
    button on the start page, or, as written, by Escape.
   */
  lemma StepKeepsInv(g: Gate, e: GateEvent, t: Template, rule: EscapeRule)
    requires GateInv(g)
    ensures Step(g, e, t, rule).Running? ==> GateInv(Step(g, e, t, rule).gate)
    ensures Step(g, e, t, rule).Finished? && Step(g, e, t, rule).outcome.LaunchBrowser?
            <==> (e == ClickStart && g.page == StartPage) || (e == PressEscape && rule == AsWritten)
    ensures e == CloseWindow ==> Step(g, e, t, rule) == Finished(ExitProcess(0))
    ensures e == PressEscape && rule == AsIntended ==> Step(g, e, t, rule) == Finished(ExitProcess(0))
  {
    if e.Submit? && g.page == CreatePage && !AllSpace(e.input) {
      var h := HandleCreateUser(g, e.input);
      assert GateInv(h);
      var provisioned := CreateUserConfig(h, t);
      assert provisioned.Ok? ==> GateInv(provisioned.value);
    }
  }

  /**
    Over any run of the dialog the browser starts only after a click on
    Start, made while the start page showed a usable username, or, as
    written, after Escape; every other way of ending the dialog exits the
    process. Under the intended rule only Start launches the browser.
   */
  lemma {:induction false} OnlyStartLaunches(g: Gate, events: seq<GateEvent>, t: Template, rule: EscapeRule)
    requires GateInv(g)
    ensures RunGate(g, events, t, rule).Running? ==> GateInv(RunGate(g, events, t, rule).gate)
    ensures RunGate(g, events, t, rule).Finished? && RunGate(g, events, t, rule).outcome.LaunchBrowser?
            ==> ClickStart in events || (rule == AsWritten && PressEscape in events)
    ensures RunGate(g, events, t, rule).Finished? && ClickStart !in events
            && (rule == AsIntended || PressEscape !in events)
            ==> RunGate(g, events, t, rule).outcome == ExitProcess(0)
    decreases |events|
  {
    if events != [] {
      StepKeepsInv(g, events[0], t, rule);
      match Step(g, events[0], t, rule)
      case Running(g2) =>
        OnlyStartLaunches(g2, events[1..], t, rule);
        assert forall e :: e in events[1..] ==> e in events;
      case Finished(o) =>
        if events[0] != ClickStart && !(rule == AsWritten && events[0] == PressEscape) {
          assert o == ExitProcess(0);
        }
      case Crashed(_) =>
    }
  }

  /**
    As written, pressing Escape on a dialog that was never started launches
    the browser although Start was not clicked; under the intended rule the
    same run exits the process.
   */
  lemma EscapeLaunchesWithoutStart(g: Gate, t: Template)
    requires GateInv(g)
    ensures ClickStart !in [PressEscape]
    ensures RunGate(g, [PressEscape], t, AsWritten) == Finished(LaunchBrowser(ConfigDir))
    ensures RunGate(g, [PressEscape], t, AsIntended) == Finished(ExitProcess(0))
  {
    assert RunGate(g, [PressEscape], t, AsWritten) == Step(g, PressEscape, t, AsWritten);
    assert RunGate(g, [PressEscape], t, AsIntended) == Step(g, PressEscape, t, AsIntended);
  }

  /** On a first run with the source's template the dialog asks for a name. */
  lemma FirstRunShowsCreatePage(fs: FileSystem, key: string)
    requires ConfigDir !in fs.files && DefaultFolder !in fs.files
    requires !Exists(fs, ConfigFile)
    ensures OpenGate(fs, SourceTemplate(key)).Ok?
    ensures OpenGate(fs, SourceTemplate(key)).value.page == CreatePage
  {
    var t := SourceTemplate(key);
    SourceTemplateValid(key);
    FirstRunLoadsDefaults(fs, t);
    assert Get(DefaultConfig(t), "username") == JStr("unknown");
  }
}
