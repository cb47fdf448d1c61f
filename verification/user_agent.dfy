/**
  The identity selector of the settings page: a platform label and a
  browser label, each chosen in its own exclusive radio group, composed
  into the user-agent string that every browsing tab is given.
 */
module UserAgent {
  import opened Common
  import opened Text

  /** The platform labels offered, in button order. */
  const Platforms: seq<string> := [
    "Windows 11", "Windows 10", "Windows 7", "Windows XP", "Mac 64x", "MacOS Ventura",
    "MacOS Sonoma", "Linux Mint", "Arch Linux", "Debian Linux", "Ubuntu 22.04", "Linux x86_64"
  ]

  /** The browser labels offered, in button order. */
  const Browsers: seq<string> := [
    "Chrome", "Firefox", "Safari", "Edge", "Opera", "Vivaldi", "LibreWolf"
  ]

  /** The user agent the browser window starts with, before any selection changes. */
  const DefaultUserAgent: string :=
    "Mozilla/5.0 (Windows NT 10.0; Win64; x64; rv:131.0) Gecko/20100101 (KHTML, like Gecko) Firefox/131.0 Windows 10"

  const Lead: string := "Mozilla/5.0 ("
  const Engine: string := ") AppleWebKit/605.1.15 (KHTML, like Gecko) "
  const Version: string := " Version/17.0.6 "

  /**
    The label of the first checked button of a group, or "" when none is
    checked. `checked` runs parallel to `labels`.
   */
  function FirstChecked(labels: seq<string>, checked: seq<bool>): (r: string)
    requires |checked| == |labels|
    ensures r == "" || r in labels
    ensures (forall i :: 0 <= i < |checked| ==> !checked[i]) ==> r == ""
    ensures forall i :: 0 <= i < |checked| && checked[i] && (forall k :: 0 <= k < i ==> !checked[k])
                        ==> r == labels[i]
    decreases |labels|
  {
    if labels == [] then ""
    else if checked[0] then labels[0]
    else FirstChecked(labels[1..], checked[1..])
  }

  /**
    The user-agent string for a platform and a browser label: the platform
    both follows the fixed lead and closes the string.
   */
  function Compose(platform: string, browser: string): (r: string)
    ensures |r| == |Lead| + |Engine| + |Version| + 2 * |platform| + |browser|
    ensures r[..|Lead|] == Lead && r[|Lead|..|Lead| + |platform|] == platform
    ensures r[|r| - |platform|..] == platform
  {
    Lead + (platform + (Engine + (browser + (Version + platform))))
  }

  /** Index of the first `c` in `s`, or -1. */
  function IndexOf(s: string, c: char): (i: int)
    ensures -1 <= i < |s|
    ensures i >= 0 ==> s[i] == c && forall k :: 0 <= k < i ==> s[k] != c
    ensures i == -1 ==> forall k :: 0 <= k < |s| ==> s[k] != c
    decreases |s|
  {
    if s == [] then -1
    else if s[0] == c then 0
    else
      var rest := IndexOf(s[1..], c);
      if rest == -1 then -1 else rest + 1
  }

  /**
    Recovers the two labels from a string of the shape
    `lead + platform + engine + browser + version + platform`: the platform
    runs up to the first ')', and the browser is what lies between the
    engine part and the version part. None for a string of another shape.
   */
  function ParseWith(lead: string, engine: string, version: string, ua: string): Option<(string, string)> {
    if !StartsWith(ua, lead) then None
    else
      var rest := ua[|lead|..];
      var close := IndexOf(rest, ')');
      if close < 0 then None
      else
        var platform := rest[..close];
        var after := rest[close..];
        if !StartsWith(after, engine) then None
        else
          var tail := after[|engine|..];
          if |tail| < |version| + |platform| then None
          else
            var browser := tail[..|tail| - |version| - |platform|];
            if tail[|browser|..] == version + platform then Some((platform, browser)) else None
  }

  /** Parsing only accepts strings that `Compose` produces, and returns their labels. */
  function Parse(ua: string): (r: Option<(string, string)>)
    ensures r.Some? ==> Compose(r.value.0, r.value.1) == ua
  {
    var r := ParseWith(Lead, Engine, Version, ua);
    if r.Some? then ParseWithSound(Lead, Engine, Version, ua); r else r
  }

  lemma SplitAt(s: string, i: nat)
    requires i <= |s|
    ensures s == s[..i] + s[i..]
  {
  }

  lemma ParseWithSound(lead: string, engine: string, version: string, ua: string)
    requires ParseWith(lead, engine, version, ua).Some?
    ensures var (platform, browser) := ParseWith(lead, engine, version, ua).value;
            ua == lead + (platform + (engine + (browser + (version + platform))))
  {
    var rest := ua[|lead|..];
    var close := IndexOf(rest, ')');
    var platform := rest[..close];
    var after := rest[close..];
    var tail := after[|engine|..];
    var browser := tail[..|tail| - |version| - |platform|];
    assert ParseWith(lead, engine, version, ua) == Some((platform, browser));
    assert tail == browser + (version + platform) by { SplitAt(tail, |browser|); }
    assert after == engine + tail by { SplitAt(after, |engine|); }
    assert rest == platform + after by { SplitAt(rest, close); }
    assert ua == lead + rest by { SplitAt(ua, |lead|); }
    assert ua == lead + (platform + (engine + (browser + (version + platform))));
  }

  lemma ParseWithCompose(lead: string, engine: string, version: string, platform: string, browser: string)
    requires |engine| > 0 && engine[0] == ')'
    requires ')' !in platform
    ensures ParseWith(lead, engine, version, lead + (platform + (engine + (browser + (version + platform)))))
         == Some((platform, browser))
  {
    var ua := lead + (platform + (engine + (browser + (version + platform))));
    var rest := platform + (engine + (browser + (version + platform)));
    assert ua == lead + rest;
    assert ua[..|lead|] == lead;
    assert ua[|lead|..] == rest;
    assert rest[|platform|] == ')';
    var close := IndexOf(rest, ')');
    assert close == |platform| by {
      assert forall k :: 0 <= k < |platform| ==> rest[k] == platform[k];
    }
    assert rest[..close] == platform;
    var after := engine + (browser + (version + platform));
    assert rest[close..] == after;
    assert after[..|engine|] == engine;
    var tail := browser + (version + platform);
    assert after[|engine|..] == tail;
    assert tail[..|tail| - |version| - |platform|] == browser;
    assert tail[|browser|..] == version + platform;
  }

  /** For a platform label without ')', the composed string parses back to the two labels. */
  lemma ParseCompose(platform: string, browser: string)
    requires ')' !in platform
    ensures Parse(Compose(platform, browser)) == Some((platform, browser))
  {
    assert Engine[0] == ')';
    ParseWithCompose(Lead, Engine, Version, platform, browser);
  }

  /** Two selections give the same string only when they are the same selection. */
  lemma ComposeInjective(p1: string, b1: string, p2: string, b2: string)
    requires ')' !in p1 && ')' !in p2
    requires Compose(p1, b1) == Compose(p2, b2)
    ensures p1 == p2 && b1 == b2
  {
    ParseCompose(p1, b1);
    ParseCompose(p2, b2);
  }

  /**
    None of the offered platform labels contains ')', so whatever the two
    radio groups show checked, the composed string reads back as the two
    labels `update_user_agent` picked.
   */
  lemma CheckedLabelsParse(platformChecked: seq<bool>, browserChecked: seq<bool>)
    requires |platformChecked| == |Platforms| && |browserChecked| == |Browsers|
    ensures var p := FirstChecked(Platforms, platformChecked);
            var b := FirstChecked(Browsers, browserChecked);
            Parse(Compose(p, b)) == Some((p, b))
  {
    assert forall k :: 0 <= k < |Platforms| ==> ')' !in Platforms[k];
    ParseCompose(FirstChecked(Platforms, platformChecked), FirstChecked(Browsers, browserChecked));
  }
}
