/**
  The profile store of the login screen: the JSON configuration document,
  its default template, the default-merging load, and the one-time creation
  of the configuration and history files. The file system is an abstract map
  from path to parsed document.
 */
module Profile {
  import opened Common
  import opened Text

  /** A parsed JSON document as `json.load` returns it (numbers are integers here). */
  datatype Json =
    | JNull
    | JBool(b: bool)
    | JNum(n: int)
    | JStr(s: string)
    | JArr(items: seq<Json>)
    | JObj(fields: map<string, Json>)

  /** Python truthiness of a JSON value. */
  predicate Truthy(j: Json) {
    match j
    case JNull => false
    case JBool(b) => b
    case JNum(n) => n != 0
    case JStr(s) => s != ""
    case JArr(xs) => xs != []
    case JObj(m) => m != map[]
  }

  /**
    Python's `k in container` for a string key: key membership for a dict,
    substring for a str, element equality for a list; None where Python
    raises TypeError (numbers, booleans, null).
   */
  function PyIn(k: string, container: Json): Option<bool> {
    match container
    case JObj(m) => Some(k in m)
    case JStr(s) => Some(Contains(s, k))
    case JArr(xs) => Some(JStr(k) in xs)
    case _ => None
  }

  const ConfigDir: string := "~/.pac22_user"
  const ConfigFile: string := ConfigDir + "/config.json"
  const HistoryFile: string := ConfigDir + "/history.json"
  const DefaultFolder: string := ConfigDir + "/default"

  /** File contents: either parseable JSON or something `json.load` rejects. */
  datatype Doc = Malformed | Valid(json: Json)

  datatype FileSystem = FileSystem(dirs: set<string>, files: map<string, Doc>)

  /** `os.path.exists`. */
  predicate Exists(fs: FileSystem, p: string) {
    p in fs.dirs || p in fs.files
  }

  /** The exceptions that escape `init_user_folder` and `load_config`. */
  datatype ProfileError =
    | PathConflict   // makedirs finds a regular file where a directory belongs
    | Unreadable     // open(CONFIG_FILE) fails: missing, or a directory
    | ParseError     // json.load fails
    | TypeError      // the document's shape makes a dict operation raise

  /** The items of a Python dict in insertion order. */
  type Entries = seq<(string, Json)>

  function KeysOf(d: Entries): set<string> {
    set i | 0 <= i < |d| :: d[i].0
  }

  lemma KeysOfCons(d: Entries)
    requires |d| > 0
    ensures KeysOf(d) == {d[0].0} + KeysOf(d[1..])
  {
    forall k | k in KeysOf(d) ensures k in {d[0].0} + KeysOf(d[1..]) {
      var i :| 0 <= i < |d| && d[i].0 == k;
      if i > 0 {
        assert d[1..][i - 1].0 == k;
      }
    }
  }

  /** The value of the first entry with key `k`. */
  function Lookup(d: Entries, k: string): Json
    requires k in KeysOf(d)
    decreases |d|
  {
    KeysOfCons(d);
    if d[0].0 == k then d[0].1 else Lookup(d[1..], k)
  }

  /** The dict whose items are `d`. */
  function ToMap(d: Entries): (m: map<string, Json>)
    ensures m.Keys == KeysOf(d)
  {
    map k | k in KeysOf(d) :: Lookup(d, k)
  }

  /** `DEFAULT_CONFIG["settings"]`: the browser-engine feature flags, in source order. */
  const DefaultSettings: Entries := [
    ("JavascriptCanAccessClipboard", JBool(true)),
    ("AutoLoadImages", JBool(true)),
    ("JavascriptEnabled", JBool(true)),
    ("JavascriptCanOpenWindows", JBool(true)),
    ("LinksIncludedInFocusChain", JBool(true)),
    ("LocalStorageEnabled", JBool(true)),
    ("LocalContentCanAccessRemoteUrls", JBool(true)),
    ("XSSAuditingEnabled", JBool(true)),
    ("SpatialNavigationEnabled", JBool(true)),
    ("LocalContentCanAccessFileUrls", JBool(true)),
    ("HyperlinkAuditingEnabled", JBool(true)),
    ("ScrollAnimatorEnabled", JBool(false)),
    ("ErrorPageEnabled", JBool(true)),
    ("PluginsEnabled", JBool(true)),
    ("FullScreenSupportEnabled", JBool(true)),
    ("ScreenCaptureEnabled", JBool(true)),
    ("WebGLEnabled", JBool(true)),
    ("Accelerated2dCanvasEnabled", JBool(true)),
    ("AutoLoadIconsForPage", JBool(true)),
    ("TouchIconsEnabled", JBool(true)),
    ("FocusOnNavigationEnabled", JBool(true)),
    ("PrintElementBackgrounds", JBool(true)),
    ("AllowRunningInsecureContent", JBool(true)),
    ("AllowGeolocationOnInsecureOrigins", JBool(true)),
    ("AllowWindowActivationFromJavaScript", JBool(true)),
    ("ShowScrollBars", JBool(true)),
    ("PlaybackRequiresUserGesture", JBool(true)),
    ("JavascriptCanPaste", JBool(true)),
    ("WebRTCPublicInterfacesOnly", JBool(true)),
    ("DnsPrefetchEnabled", JBool(true)),
    ("PdfViewerEnabled", JBool(true)),
    ("NavigateOnDropEnabled", JBool(true)),
    ("ReadingFromCanvasEnabled", JBool(true)),
    ("ForceDarkMode", JBool(true)),
    ("PrintHeaderAndFooter", JBool(true)),
    ("PreferCSSMarginsForPrinting", JBool(true)),
    ("TouchEventsApiEnabled", JBool(true))
  ]

  /**
    The default template of a process: the items of `DEFAULT_CONFIG` and of
    its nested `settings` dict. The secret `key` inside it is drawn from the
    OS random source once per process, so the template is a parameter of
    every operation; `SourceTemplate` is the one the source builds.
   */
  datatype Template = Template(top: Entries, flags: Entries)

  const SettingsKey: string := "settings"

  /** The template's `settings` item is the dict of its flags, as in `DEFAULT_CONFIG`. */
  predicate ValidTemplate(t: Template) {
    SettingsKey in KeysOf(t.top) && Lookup(t.top, SettingsKey) == JObj(ToMap(t.flags))
  }

  function SourceTemplate(key: string): Template {
    Template(
      [ ("username", JStr("unknown")),
        ("ram", JStr("2GB")),
        ("key", JStr(key)),
        (SettingsKey, JObj(ToMap(DefaultSettings))) ],
      DefaultSettings)
  }

  /** The template the source builds is well formed, and its placeholder username is "unknown". */
  lemma SourceTemplateValid(key: string)
    ensures ValidTemplate(SourceTemplate(key))
    ensures "username" in KeysOf(SourceTemplate(key).top)
    ensures Lookup(SourceTemplate(key).top, "username") == JStr("unknown")
  {
    var top := SourceTemplate(key).top;
    assert top[0].0 == "username";
    assert top[3].0 == SettingsKey;
    KeysOfCons(top);
    KeysOfCons(top[1..]);
    KeysOfCons(top[2..]);
    assert top[1..][1..][1..] == top[3..];
    assert Lookup(top[3..], SettingsKey) == top[3].1;
    assert Lookup(top[2..], SettingsKey) == Lookup(top[2..][1..], SettingsKey);
    assert Lookup(top[1..], SettingsKey) == Lookup(top[1..][1..], SettingsKey);
    assert top[1..][1..] == top[2..] && top[2..][1..] == top[3..];
  }

  /** `DEFAULT_CONFIG` as a dict. */
  function DefaultConfig(t: Template): map<string, Json> {
    ToMap(t.top)
  }

  /** The result of a merge: the document and Python's `changed` flag. */
  datatype Filled = Filled(doc: map<string, Json>, changed: bool)

  /**
    One default-filling loop of `load_config`: walk the default items in
    order and insert each key the dict lacks; `changed` records an insertion.
   */
  function FillMissing(config: map<string, Json>, defaults: Entries): (r: Filled)
    ensures r.doc.Keys == config.Keys + KeysOf(defaults)
    ensures forall k :: k in config ==> r.doc[k] == config[k]
    ensures forall k :: k in KeysOf(defaults) && k !in config ==> r.doc[k] == Lookup(defaults, k)
    ensures r.changed <==> !(KeysOf(defaults) <= config.Keys)
    ensures !r.changed ==> r.doc == config
    decreases |defaults|
  {
    if defaults == [] then Filled(config, false)
    else
      KeysOfCons(defaults);
      var k := defaults[0].0;
      var next := if k in config then config else config[k := defaults[0].1];
      var rest := FillMissing(next, defaults[1..]);
      Filled(rest.doc, rest.changed || k !in config)
  }

  /** The configuration lacks a default key, at the top level or inside a dict `settings`. */
  predicate NeedsMerge(config: map<string, Json>, t: Template) {
    || !(KeysOf(t.top) <= config.Keys)
    || (SettingsKey in config && config[SettingsKey].JObj?
        && !(KeysOf(t.flags) <= config[SettingsKey].fields.Keys))
  }

  /** What `load_config` does to `settings` when it already has a value. */
  predicate SettingsKept(before: Json, after: Json) {
    if before.JObj? then
      after.JObj? && forall k :: k in before.fields ==> k in after.fields && after.fields[k] == before.fields[k]
    else
      after == before
  }

  /** Every default flag is `in` the settings value, in Python's sense of `in`. */
  predicate HasAllFlags(settings: Json, t: Template) {
    forall k :: k in KeysOf(t.flags) ==> PyIn(k, settings) == Some(true)
  }

  /**
    The merging part of `load_config`, applied to the parsed document.
    A document that is not an object, or whose `settings` is neither an
    object nor a string/list that already contains every flag name, makes
    Python raise TypeError.
   */
  function MergeDefaults(loaded: Json, t: Template): (r: Result<Filled, ProfileError>)
    ensures !loaded.JObj? ==> r == Err(TypeError)
    ensures r.Err? ==> r.error == TypeError
    ensures (ValidTemplate(t) && loaded.JObj?
             && (SettingsKey !in loaded.fields || loaded.fields[SettingsKey].JObj?)) ==> r.Ok?
    ensures r.Ok? ==> loaded.JObj? && loaded.fields.Keys <= r.value.doc.Keys
    ensures r.Ok? ==> SettingsKey in r.value.doc && HasAllFlags(r.value.doc[SettingsKey], t)
    ensures r.Ok? ==> KeysOf(t.top) <= r.value.doc.Keys
    ensures r.Ok? && ValidTemplate(t) ==> (r.value.changed <==> NeedsMerge(loaded.fields, t))
    ensures r.Ok? && !r.value.changed ==> r.value.doc == loaded.fields
  {
    match loaded
    case JObj(config) =>
      var top := FillMissing(config, t.top);
      if SettingsKey !in top.doc then
        // Unreachable for a valid template: the first loop has already inserted "settings".
        Ok(Filled(top.doc[SettingsKey := JObj(ToMap(t.flags))], true))
      else
        var settings := top.doc[SettingsKey];
        if settings.JObj? then
          var inner := FillMissing(settings.fields, t.flags);
          var doc := top.doc[SettingsKey := JObj(inner.doc)];
          assert !inner.changed ==> doc == top.doc;
          Ok(Filled(doc, top.changed || inner.changed))
        else if HasAllFlags(settings, t) then
          Ok(top)
        else
          Err(TypeError)
    case _ => Err(TypeError)
  }

  /**
    Merging keeps every value the document had: other keys unchanged, an
    existing `settings` kept (extended when it is a dict), and, for a valid
    template, no key beyond the document's and the defaults'.
   */
  lemma MergeKeepsExisting(loaded: Json, t: Template)
    requires MergeDefaults(loaded, t).Ok?
    ensures var doc := MergeDefaults(loaded, t).value.doc;
            && (forall k :: k in loaded.fields && k != SettingsKey ==> doc[k] == loaded.fields[k])
            && (SettingsKey in loaded.fields ==> SettingsKept(loaded.fields[SettingsKey], doc[SettingsKey]))
            && (ValidTemplate(t) ==> doc.Keys == loaded.fields.Keys + KeysOf(t.top))
  {
    var config := loaded.fields;
    var top := FillMissing(config, t.top);
    if SettingsKey in top.doc && top.doc[SettingsKey].JObj? {
      var inner := FillMissing(top.doc[SettingsKey].fields, t.flags);
      assert MergeDefaults(loaded, t).value.doc == top.doc[SettingsKey := JObj(inner.doc)];
    }
  }

  /** The `if "settings" not in config` branch of `load_config` is dead. */
  lemma SettingsBranchUnreachable(config: map<string, Json>, t: Template)
    requires ValidTemplate(t)
    ensures SettingsKey in FillMissing(config, t.top).doc
  {
  }

  /** Merging an already merged configuration finds nothing to add. */
  lemma MergeIdempotent(loaded: Json, t: Template)
    requires ValidTemplate(t)
    requires MergeDefaults(loaded, t).Ok?
    ensures MergeDefaults(JObj(MergeDefaults(loaded, t).value.doc), t)
         == Ok(Filled(MergeDefaults(loaded, t).value.doc, false))
  {
    var doc := MergeDefaults(loaded, t).value.doc;
    assert !NeedsMerge(doc, t);
  }

  /** Writes one parsed document, as `json.dump` into a file opened for writing. */
  function Write(fs: FileSystem, path: string, j: Json): FileSystem {
    fs.(files := fs.files[path := Valid(j)])
  }

  /** The outcome of `load_config`: the merged document, the flag, and the file system after it. */
  datatype Loaded = Loaded(config: map<string, Json>, changed: bool, fs: FileSystem)

  /**
    `load_config`: read the configuration file, merge the defaults in, and
    write the merged document back only when something was added.
   */
  function LoadConfig(fs: FileSystem, t: Template): (r: Result<Loaded, ProfileError>)
    ensures ConfigFile !in fs.files ==> r == Err(Unreadable)
    ensures ConfigFile in fs.files && fs.files[ConfigFile].Malformed? ==> r == Err(ParseError)
    ensures r.Ok? ==> KeysOf(t.top) <= r.value.config.Keys
    ensures r.Ok? ==> SettingsKey in r.value.config && HasAllFlags(r.value.config[SettingsKey], t)
    ensures r.Ok? ==> ConfigFile in fs.files && fs.files[ConfigFile].Valid? && fs.files[ConfigFile].json.JObj?
    ensures r.Ok? ==> var before := fs.files[ConfigFile].json.fields;
                      && (forall k :: k in before && k != SettingsKey ==> k in r.value.config && r.value.config[k] == before[k])
                      && (SettingsKey in before ==> SettingsKept(before[SettingsKey], r.value.config[SettingsKey]))
    ensures r.Ok? && ValidTemplate(t) ==> (r.value.changed <==> NeedsMerge(fs.files[ConfigFile].json.fields, t))
    ensures r.Ok? ==> r.value.fs.dirs == fs.dirs && r.value.fs.files.Keys == fs.files.Keys
    ensures r.Ok? ==> r.value.fs.files[ConfigFile] == Valid(JObj(r.value.config))
    ensures r.Ok? ==> forall p :: p in fs.files && p != ConfigFile ==> r.value.fs.files[p] == fs.files[p]
    ensures r.Ok? ==> (r.value.fs == fs <==> !r.value.changed)
  {
    if ConfigFile !in fs.files then Err(Unreadable)
    else match fs.files[ConfigFile]
      case Malformed => Err(ParseError)
      case Valid(j) =>
        match MergeDefaults(j, t)
        case Err(e) => Err(e)
        case Ok(m) =>
          MergeKeepsExisting(j, t);
          if m.changed then
            var fs' := Write(fs, ConfigFile, JObj(m.doc));
            assert m.doc != j.fields;
            assert fs'.files[ConfigFile] != fs.files[ConfigFile];
            Ok(Loaded(m.doc, true, fs'))
          else
            Ok(Loaded(m.doc, false, fs))
  }

  /** Loading twice: the second load finds a complete document and writes nothing. */
  lemma LoadConfigIdempotent(fs: FileSystem, t: Template)
    requires ValidTemplate(t)
    requires LoadConfig(fs, t).Ok?
    ensures LoadConfig(LoadConfig(fs, t).value.fs, t)
         == Ok(Loaded(LoadConfig(fs, t).value.config, false, LoadConfig(fs, t).value.fs))
  {
    MergeIdempotent(fs.files[ConfigFile].json, t);
  }

  /**
    `init_user_folder`: create the two directories, then write the default
    configuration and an empty history, each only when no file exists there.
   */
  function InitUserFolder(fs: FileSystem, t: Template): (r: Result<FileSystem, ProfileError>)
    ensures r.Err? <==> ConfigDir in fs.files || DefaultFolder in fs.files
    ensures r.Ok? ==> r.value.dirs == fs.dirs + {ConfigDir, DefaultFolder}
    ensures r.Ok? ==> forall p :: p in fs.files ==> p in r.value.files && r.value.files[p] == fs.files[p]
    ensures r.Ok? ==> r.value.files.Keys == fs.files.Keys
                        + (if Exists(fs, ConfigFile) then {} else {ConfigFile})
                        + (if Exists(fs, HistoryFile) then {} else {HistoryFile})
    ensures r.Ok? && !Exists(fs, ConfigFile) ==> r.value.files[ConfigFile] == Valid(JObj(DefaultConfig(t)))
    ensures r.Ok? && !Exists(fs, HistoryFile) ==> r.value.files[HistoryFile] == Valid(JArr([]))
  {
    if ConfigDir in fs.files || DefaultFolder in fs.files then Err(PathConflict)
    else
      var withDirs := fs.(dirs := fs.dirs + {ConfigDir, DefaultFolder});
      var withConfig :=
        if Exists(withDirs, ConfigFile) then withDirs
        else Write(withDirs, ConfigFile, JObj(DefaultConfig(t)));
      var withHistory :=
        if Exists(withConfig, HistoryFile) then withConfig
        else Write(withConfig, HistoryFile, JArr([]));
      Ok(withHistory)
  }

  /** Running `init_user_folder` a second time changes nothing. */
  lemma InitUserFolderIdempotent(fs: FileSystem, t: Template)
    requires InitUserFolder(fs, t).Ok?
    ensures InitUserFolder(InitUserFolder(fs, t).value, t) == InitUserFolder(fs, t)
  {
    var once := InitUserFolder(fs, t).value;
    var twice := InitUserFolder(once, t).value;
    assert twice.files == once.files;
  }

  /** The default document is already complete: merging it adds nothing. */
  lemma DefaultConfigComplete(t: Template)
    requires ValidTemplate(t)
    ensures MergeDefaults(JObj(DefaultConfig(t)), t) == Ok(Filled(DefaultConfig(t), false))
  {
    assert !NeedsMerge(DefaultConfig(t), t);
  }

  /** On a first run the configuration written by `init_user_folder` loads without a rewrite. */
  lemma FirstRunLoadsDefaults(fs: FileSystem, t: Template)
    requires ValidTemplate(t)
    requires InitUserFolder(fs, t).Ok?
    requires !Exists(fs, ConfigFile)
    ensures LoadConfig(InitUserFolder(fs, t).value, t)
         == Ok(Loaded(DefaultConfig(t), false, InitUserFolder(fs, t).value))
  {
    DefaultConfigComplete(t);
  }
}
