/** The popup's settings page (`LinkLensSettings`): the settings object
    built by overlaying stored values on the defaults, changed in place by
    the toggle, key, colour and slider handlers and by a reset, and the
    parts of the page those handlers write (slider value labels and the two
    theme CSS properties). Storage reads and writes are abstract: a read is
    an input, a save is recorded in a log. */
module Settings {
  import opened Common
  import opened Colour

  /** A JavaScript value as it can sit in the settings object. Numbers are
      integers: every numeric setting comes from an integer slider. */
  datatype Value = Undefined | Null | Bool(b: bool) | Num(n: int) | Str(s: string) | Obj

  type SettingsObject = map<string, Value>

  /** Property access: a missing key reads as undefined. */
  function Get(s: SettingsObject, key: string): Value
  {
    if key in s then s[key] else Undefined
  }

  /** JavaScript truthiness. */
  predicate Truthy(v: Value)
  {
    match v
    case Undefined => false
    case Null => false
    case Bool(b) => b
    case Num(n) => n != 0
    case Str(s) => s != ""
    case Obj => true
  }

  /** String(v), as `+` with a string operand converts a value. */
  function Show(v: Value): string
  {
    match v
    case Undefined => "undefined"
    case Null => "null"
    case Bool(b) => if b then "true" else "false"
    case Num(n) => Decimal(n)
    case Str(s) => s
    case Obj => "[object Object]"
  }

  /** `v == 0` under loose equality. */
  predicate LooselyZero(v: Value)
  {
    match v
    case Num(n) => n == 0
    case Bool(b) => !b
    case Str(s) => s == "" || s == "0"
    case _ => false
  }

  const DefaultThemeColor := "#667eea"

  function DefaultSettings(): (d: SettingsObject)
    ensures d.Keys == {"modifierKey", "macSupport", "themeColor", "darkMode", "windowSize",
                       "autoCloseTimer", "animations", "soundEffects", "backgroundOpacity"}
    ensures Get(d, "themeColor") == Str(DefaultThemeColor)
  {
    map["modifierKey" := Str("ctrl"),
        "macSupport" := Bool(true),
        "themeColor" := Str(DefaultThemeColor),
        "darkMode" := Bool(false),
        "windowSize" := Num(80),
        "autoCloseTimer" := Num(0),
        "animations" := Bool(true),
        "soundEffects" := Bool(false),
        "backgroundOpacity" := Num(60)]
  }

  /** The ids of the toggle switches that get a click handler. */
  const ToggleIds: seq<string> := ["macSupport", "applyThemeToHeader", "darkMode", "animations", "soundEffects"]

  /** The ids of the three sliders, in the order the page updates them. */
  const SliderIds: seq<string> := ["windowSize", "autoCloseTimer", "backgroundOpacity"]

  // ---------------------------------------------------------------------
  // Loading

  /** `{ ...defaults, ...stored }`: every stored key overrides its default. */
  function Merge(defaults: SettingsObject, stored: SettingsObject): (m: SettingsObject)
    ensures m.Keys == defaults.Keys + stored.Keys
    ensures forall k :: k in stored ==> m[k] == stored[k]
    ensures forall k :: k in defaults && k !in stored ==> m[k] == defaults[k]
  {
    defaults + stored
  }

  /** The outcome of one storage read: it threw, or it returned the
      `linklensSettings` entry if there is one. */
  datatype StorageRead = Threw | Read(found: Option<SettingsObject>)

  /** The stored object loadSettings overlays on the defaults: the sync
      store's, or the local store's when (and only when) the sync read threw. */
  function StoredObject(sync: StorageRead, local: StorageRead): (o: Option<SettingsObject>)
    ensures o.Some? ==> (sync.Read? && sync.found == o) || (sync.Threw? && local.Read? && local.found == o)
    ensures sync.Read? ==> o == sync.found
    ensures sync.Threw? ==> o == (if local.Read? then local.found else None)
  {
    match sync
    case Read(found) => found
    case Threw => if local.Read? then local.found else None
  }

  /** After a load that found a stored object, each key holds the stored
      value if the store has it and its default otherwise. */
  lemma LoadedKeyByKey(stored: SettingsObject, k: string)
    ensures Get(Merge(DefaultSettings(), stored), k) ==
            if k in stored then stored[k] else Get(DefaultSettings(), k)
  {
  }

  // ---------------------------------------------------------------------
  // Toggles

  /** `s[key] = !s[key]`: the one key becomes the boolean negation of its
      truthiness, every other key is untouched. */
  function Toggled(s: SettingsObject, key: string): (t: SettingsObject)
    ensures t.Keys == s.Keys + {key}
    ensures t[key] == Bool(!Truthy(Get(s, key)))
    ensures forall k :: k in s && k != key ==> t[k] == s[k]
  {
    s[key := Bool(!Truthy(Get(s, key)))]
  }

  /** A key missing from the settings (applyThemeToHeader, which has no
      default) reads as undefined, so the first click turns it on. */
  lemma ToggleMissingKey(s: SettingsObject, key: string)
    requires key !in s
    ensures Toggled(s, key)[key] == Bool(true)
    ensures Toggled(Toggled(s, key), key)[key] == Bool(false)
  {
  }

  lemma ApplyThemeToHeaderHasNoDefault()
    ensures "applyThemeToHeader" in ToggleIds && "applyThemeToHeader" !in DefaultSettings()
    ensures Toggled(DefaultSettings(), "applyThemeToHeader")["applyThemeToHeader"] == Bool(true)
  {
  }

  /** Clicking a toggle twice restores a boolean setting exactly; for any
      other value it restores the truthiness, as a boolean. */
  lemma {:induction false} ToggleTwice(s: SettingsObject, key: string)
    ensures Truthy(Toggled(Toggled(s, key), key)[key]) == Truthy(Get(s, key))
    ensures key in s && s[key].Bool? ==> Toggled(Toggled(s, key), key) == s
  {
    var t := Toggled(Toggled(s, key), key);
    if key in s && s[key].Bool? {
      assert t.Keys == s.Keys;
      assert forall k :: k in s ==> t[k] == s[k];
    }
  }

  // ---------------------------------------------------------------------
  // Slider labels

  /** The autoClose label: 'Off' for a value loosely equal to 0, the value
      followed by 's' otherwise. */
  function AutoCloseLabel(v: Value): (text: string)
    ensures text == "Off" <==> LooselyZero(v)
    ensures !LooselyZero(v) ==> |text| >= 1 && text[|text| - 1] == 's' && text[..|text| - 1] == Show(v)
  {
    if LooselyZero(v) then "Off"
    else
      var t := Show(v) + "s";
      assert t[|t| - 1] == 's' != "Off"[2];
      t
  }

  /** For a slider number, the label is 'Off' exactly at 0, and otherwise it
      reads back as the number of seconds. */
  lemma AutoCloseLabelOfNumber(n: int)
    ensures AutoCloseLabel(Num(n)) == "Off" <==> n == 0
    ensures n != 0 ==> AutoCloseLabel(Num(n)) == Decimal(n) + "s"
    ensures n != 0 ==> ParseDecimal(AutoCloseLabel(Num(n))[..|AutoCloseLabel(Num(n))| - 1]) == Some(n)
  {
    DecimalRoundTrip(n);
  }

  /** The text a slider's value label shows for a value. */
  function SliderLabel(sliderId: string, v: Value): (text: string)
    ensures sliderId != "autoCloseTimer" ==> text == Show(v) + "%"
    ensures sliderId == "autoCloseTimer" ==> text == AutoCloseLabel(v)
  {
    if sliderId == "autoCloseTimer" then AutoCloseLabel(v) else Show(v) + "%"
  }

  /** For a slider number, the window-size and opacity labels read back as
      the number followed by '%'. */
  lemma PercentLabelOfNumber(sliderId: string, n: int)
    requires sliderId != "autoCloseTimer"
    ensures SliderLabel(sliderId, Num(n)) == Decimal(n) + "%"
    ensures var text := SliderLabel(sliderId, Num(n));
            text[|text| - 1] == '%' && ParseDecimal(text[..|text| - 1]) == Some(n)
  {
    var text := SliderLabel(sliderId, Num(n));
    assert text[..|text| - 1] == Decimal(n);
    DecimalRoundTrip(n);
  }

  lemma DropLast(a: string, b: string, c: char)
    requires a + [c] == b + [c]
    ensures a == b
  {
    assert a == (a + [c])[..|a|];
    assert b == (b + [c])[..|b|];
  }

  /** Distinct slider numbers show distinct labels. */
  lemma SliderLabelInjective(sliderId: string, m: int, n: int)
    requires SliderLabel(sliderId, Num(m)) == SliderLabel(sliderId, Num(n))
    ensures m == n
  {
    if sliderId == "autoCloseTimer" {
      AutoCloseLabelOfNumber(m);
      AutoCloseLabelOfNumber(n);
      if m != 0 && n != 0 {
        DropLast(Decimal(m), Decimal(n), 's');
        DecimalInjective(m, n);
      }
    } else {
      PercentLabelOfNumber(sliderId, m);
      PercentLabelOfNumber(sliderId, n);
      DropLast(Decimal(m), Decimal(n), '%');
      DecimalInjective(m, n);
    }
  }

  // ---------------------------------------------------------------------
  // The value element of a slider

  predicate OccursAt(s: string, pat: string, j: nat)
  {
    j + |pat| <= |s| && s[j..j + |pat|] == pat
  }

  /** The first position at or after i where pat occurs in s. */
  function FindFrom(s: string, pat: string, i: nat): (r: Option<nat>)
    requires i <= |s|
    ensures r.Some? ==> i <= r.value && OccursAt(s, pat, r.value)
    ensures r.Some? ==> forall j :: i <= j < r.value ==> !OccursAt(s, pat, j)
    ensures r.None? ==> forall j :: i <= j ==> !OccursAt(s, pat, j)
    decreases |s| - i
  {
    if i + |pat| > |s| then None
    else if s[i..i + |pat|] == pat then Some(i)
    else FindFrom(s, pat, i + 1)
  }

  /** The first occurrence at or after i is the one FindFrom reports. */
  lemma {:induction false} FindFromFirst(s: string, pat: string, i: nat, k: nat)
    requires i <= k && OccursAt(s, pat, k)
    requires forall j :: i <= j < k ==> !OccursAt(s, pat, j)
    ensures i <= |s| && FindFrom(s, pat, i) == Some(k)
    decreases k - i
  {
    if i < k {
      FindFromFirst(s, pat, i + 1, k);
    }
  }

  /** String.prototype.replace with a string pattern: only the first
      occurrence is replaced. */
  function ReplaceFirst(s: string, pat: string, rep: string): (r: string)
    ensures FindFrom(s, pat, 0).None? ==> r == s
    ensures FindFrom(s, pat, 0).Some? ==>
              var i := FindFrom(s, pat, 0).value;
              && (forall j :: 0 <= j < i ==> !OccursAt(s, pat, j))
              && |r| == |s| - |pat| + |rep|
              && r[..i] == s[..i] && OccursAt(r, rep, i) && r[i + |rep|..] == s[i + |pat|..]
  {
    match FindFrom(s, pat, 0)
    case None => s
    case Some(i) => s[..i] + rep + s[i + |pat|..]
  }

  /** The element updateSliderValue writes into: `<id>Value` when the page
      has it, else the id with its first 'Timer' replaced by 'Value'. */
  function ValueElementId(ids: set<string>, sliderId: string): (e: Option<string>)
    ensures e.Some? ==> e.value in ids
    ensures sliderId + "Value" in ids ==> e == Some(sliderId + "Value")
    ensures sliderId + "Value" !in ids && ReplaceFirst(sliderId, "Timer", "Value") in ids ==>
              e == Some(ReplaceFirst(sliderId, "Timer", "Value"))
    ensures e.None? <==> sliderId + "Value" !in ids && ReplaceFirst(sliderId, "Timer", "Value") !in ids
  {
    var primary := sliderId + "Value";
    if primary in ids then Some(primary)
    else
      var fallback := ReplaceFirst(sliderId, "Timer", "Value");
      if fallback in ids then Some(fallback) else None
  }

  /** The autoClose slider's label lives in `autoCloseValue`, reached through
      the fallback when the page has no `autoCloseTimerValue`. */
  lemma AutoCloseValueElement(ids: set<string>)
    requires "autoCloseTimerValue" !in ids && "autoCloseValue" in ids
    ensures ValueElementId(ids, "autoCloseTimer") == Some("autoCloseValue")
  {
    var s := "autoCloseTimer";
    assert s[9..14] == "Timer";
    forall j | 0 <= j < 9
      ensures !OccursAt(s, "Timer", j)
    {
      assert s[j] != 'T';
      if j + 5 <= |s| { assert s[j..j + 5][0] == s[j]; }
    }
    FindFromFirst(s, "Timer", 0, 9);
    assert s[..9] == "autoClose" && s[14..] == "";
    assert ReplaceFirst(s, "Timer", "Value") == "autoCloseValue";
    assert s + "Value" == "autoCloseTimerValue";
  }

  /** The label map after updateSliderValue(sliderId, value). */
  function LabelWritten(texts: map<string, string>, ids: set<string>, sliderId: string, value: string): (t: map<string, string>)
    ensures ValueElementId(ids, sliderId).None? ==> t == texts
    ensures ValueElementId(ids, sliderId).Some? ==>
              var e := ValueElementId(ids, sliderId).value;
              e in t && t[e] == value && forall k :: k in texts && k != e ==> k in t && t[k] == texts[k]
    ensures ValueElementId(ids, sliderId).Some? ==> t.Keys == texts.Keys + {ValueElementId(ids, sliderId).value}
  {
    match ValueElementId(ids, sliderId)
    case None => texts
    case Some(e) => texts[e := value]
  }

  /** The label map after updateSliders: each slider present on the page
      gets the label for its current setting. */
  function SlidersWritten(texts: map<string, string>, ids: set<string>, s: SettingsObject, k: nat): (t: map<string, string>)
    requires k <= |SliderIds|
    ensures texts.Keys <= t.Keys <= texts.Keys + ids
    decreases |SliderIds| - k
  {
    if k == |SliderIds| then texts
    else
      var id := SliderIds[k];
      var t := if id in ids then LabelWritten(texts, ids, id, SliderLabel(id, Get(s, id))) else texts;
      SlidersWritten(t, ids, s, k + 1)
  }

  /** Slider j is on the page and its label goes into element e. */
  predicate WritesLabel(ids: set<string>, j: int, e: string)
  {
    0 <= j < |SliderIds| && SliderIds[j] in ids && ValueElementId(ids, SliderIds[j]) == Some(e)
  }

  /** An element that no slider from k on writes keeps its text. */
  lemma {:induction false} SlidersWrittenKeeps(texts: map<string, string>, ids: set<string>, s: SettingsObject, k: nat, e: string)
    requires k <= |SliderIds|
    requires forall j :: k <= j ==> !WritesLabel(ids, j, e)
    ensures e in SlidersWritten(texts, ids, s, k) <==> e in texts
    ensures e in texts ==> SlidersWritten(texts, ids, s, k)[e] == texts[e]
    decreases |SliderIds| - k
  {
    if k < |SliderIds| {
      var id := SliderIds[k];
      var t := if id in ids then LabelWritten(texts, ids, id, SliderLabel(id, Get(s, id))) else texts;
      assert !WritesLabel(ids, k, e);
      assert (e in t <==> e in texts) && (e in texts ==> t[e] == texts[e]);
      SlidersWrittenKeeps(t, ids, s, k + 1, e);
    }
  }

  /** An element holds the label of the last slider that writes it. */
  lemma {:induction false} SlidersWrittenLast(texts: map<string, string>, ids: set<string>, s: SettingsObject, k: nat, j: nat, e: string)
    requires k <= j && WritesLabel(ids, j, e)
    requires forall i :: j < i ==> !WritesLabel(ids, i, e)
    ensures e in SlidersWritten(texts, ids, s, k)
    ensures SlidersWritten(texts, ids, s, k)[e] == SliderLabel(SliderIds[j], Get(s, SliderIds[j]))
    decreases j - k
  {
    var id := SliderIds[k];
    var t := if id in ids then LabelWritten(texts, ids, id, SliderLabel(id, Get(s, id))) else texts;
    if k < j {
      SlidersWrittenLast(t, ids, s, k + 1, j, e);
    } else {
      SlidersWrittenKeeps(t, ids, s, k + 1, e);
    }
  }

  /** The popup page: the three sliders and the value elements
      `windowSizeValue`, `autoCloseValue` and `backgroundOpacityValue`, and
      no `autoCloseTimerValue`. */
  predicate PopupPage(ids: set<string>)
  {
    && "windowSize" in ids && "autoCloseTimer" in ids && "backgroundOpacity" in ids
    && "windowSizeValue" in ids && "autoCloseValue" in ids && "backgroundOpacityValue" in ids
    && "autoCloseTimerValue" !in ids
  }

  /** On the popup page each slider writes its own value element. */
  lemma PageValueElements(ids: set<string>)
    requires PopupPage(ids)
    ensures forall j, e :: WritesLabel(ids, j, e) <==>
              (j == 0 && e == "windowSizeValue") || (j == 1 && e == "autoCloseValue") ||
              (j == 2 && e == "backgroundOpacityValue")
  {
    AutoCloseValueElement(ids);
    assert SliderIds[0] + "Value" == "windowSizeValue";
    assert SliderIds[2] + "Value" == "backgroundOpacityValue";
  }

  /** On the popup page updateSliders writes each slider's label into its
      own element. */
  lemma PageSliderLabels(texts: map<string, string>, ids: set<string>, s: SettingsObject)
    requires PopupPage(ids)
    ensures var t := SlidersWritten(texts, ids, s, 0);
            && "windowSizeValue" in t && t["windowSizeValue"] == Show(Get(s, "windowSize")) + "%"
            && "autoCloseValue" in t && t["autoCloseValue"] == AutoCloseLabel(Get(s, "autoCloseTimer"))
            && "backgroundOpacityValue" in t && t["backgroundOpacityValue"] == Show(Get(s, "backgroundOpacity")) + "%"
  {
    PageValueElements(ids);
    SlidersWrittenLast(texts, ids, s, 0, 0, "windowSizeValue");
    SlidersWrittenLast(texts, ids, s, 0, 1, "autoCloseValue");
    SlidersWrittenLast(texts, ids, s, 0, 2, "backgroundOpacityValue");
  }

  lemma DefaultSliderValues()
    ensures Get(DefaultSettings(), "windowSize") == Num(80)
    ensures Get(DefaultSettings(), "autoCloseTimer") == Num(0)
    ensures Get(DefaultSettings(), "backgroundOpacity") == Num(60)
  {
  }

  lemma DefaultPercents()
    ensures Show(Num(80)) + "%" == "80%" && Show(Num(60)) + "%" == "60%"
  {
    assert Digits(8) == "8" && Digits(6) == "6";
    assert Decimal(80) == Digits(8) + "0";
    assert Decimal(60) == Digits(6) + "0";
  }

  /** With the default slider settings the page shows 80%, Off and 60%. */
  lemma DefaultSliderLabels(texts: map<string, string>, ids: set<string>, s: SettingsObject)
    requires PopupPage(ids)
    requires s == DefaultSettings()
    ensures var t := SlidersWritten(texts, ids, s, 0);
            && "windowSizeValue" in t && t["windowSizeValue"] == "80%"
            && "autoCloseValue" in t && t["autoCloseValue"] == "Off"
            && "backgroundOpacityValue" in t && t["backgroundOpacityValue"] == "60%"
  {
    DefaultSliderValues();
    PageSliderLabels(texts, ids, s);
    DefaultPercents();
  }

  // ---------------------------------------------------------------------
  // Theme colour

  /** The document's custom properties after updateThemeColor(color):
      `--primary-color` is always written; `--primary-dark` is written, with
      the darker shade, only when the colour parses. */
  function ThemeStyle(style: map<string, string>, color: string): (t: map<string, string>)
    ensures "--primary-color" in t && t["--primary-color"] == color
    ensures HexToRgb(color).Some? ==> "--primary-dark" in t && t["--primary-dark"] == RgbCss(Darker(HexToRgb(color).value))
    ensures HexToRgb(color).None? ==> ("--primary-dark" in t <==> "--primary-dark" in style)
    ensures HexToRgb(color).None? && "--primary-dark" in style ==> t["--primary-dark"] == style["--primary-dark"]
    ensures forall k :: k in style && k != "--primary-color" && k != "--primary-dark" ==> k in t && t[k] == style[k]
    ensures t.Keys <= style.Keys + {"--primary-color", "--primary-dark"}
  {
    var t := style["--primary-color" := color];
    match HexToRgb(color)
    case None => t
    case Some(c) => t["--primary-dark" := RgbCss(Darker(c))]
  }

  /** The default theme colour #667eea gets the hover shade rgb(82, 106, 214). */
  lemma DefaultThemeShade()
    ensures HexToRgb(DefaultThemeColor) == Some(Rgb(0x66, 0x7e, 0xea))
    ensures Darker(HexToRgb(DefaultThemeColor).value) == Rgb(82, 106, 214)
  {
    var body := Body(DefaultThemeColor);
    assert body == "667eea";
    assert IsHexBody(body);
  }

  // ---------------------------------------------------------------------
  // The settings page

  class LinkLensSettings {
    /** The ids of the elements present on the popup page. */
    const ids: set<string>
    var currentSettings: SettingsObject
    /** Text written into value-label elements, by element id. */
    var texts: map<string, string>
    /** Custom properties written on the document element. */
    var style: map<string, string>
    /** Every settings object handed to saveSettings, in order; each one is
        written to sync and local storage and broadcast to the open tabs. */
    var saved: seq<SettingsObject>

    constructor (ids: set<string>)
      ensures this.ids == ids
      ensures currentSettings == DefaultSettings()
      ensures texts == map[] && style == map[] && saved == []
    {
      this.ids := ids;
      currentSettings := DefaultSettings();
      texts := map[];
      style := map[];
      saved := [];
    }

    /** init: load the settings, then refresh the page from them. */
    method Init(sync: StorageRead, local: StorageRead)
      modifies this`currentSettings, this`texts, this`style
      ensures currentSettings == Loaded(old(currentSettings), sync, local)
      ensures texts == SlidersWritten(old(texts), ids, currentSettings, 0)
      ensures style == ThemeStyle(old(style), Show(Get(currentSettings, "themeColor")))
    {
      LoadSettings(sync, local);
      UpdateUI();
    }

    method LoadSettings(sync: StorageRead, local: StorageRead)
      modifies this`currentSettings
      ensures currentSettings == Loaded(old(currentSettings), sync, local)
    {
      match sync
      case Read(found) =>
        if found.Some? {
          currentSettings := Merge(DefaultSettings(), found.value);
        }
      case Threw =>
        if local.Read? && local.found.Some? {
          currentSettings := Merge(DefaultSettings(), local.found.value);
        }
    }

    /** saveSettings: the current object goes to storage and to the tabs.
        A failed write changes nothing here. */
    method SaveSettings()
      modifies this`saved
      ensures saved == old(saved) + [currentSettings]
    {
      saved := saved + [currentSettings];
    }

    /** A click on a modifier-key button stores its `data-key`. */
    method SelectModifierKey(key: Value)
      modifies this`currentSettings
      ensures currentSettings == old(currentSettings)["modifierKey" := key]
    {
      currentSettings := currentSettings["modifierKey" := key];
    }

    /** A click on one of the toggle switches present on the page. */
    method ToggleClick(toggleId: string)
      requires toggleId in ToggleIds && toggleId in ids
      modifies this`currentSettings
      ensures currentSettings == Toggled(old(currentSettings), toggleId)
    {
      currentSettings := currentSettings[toggleId := Bool(!Truthy(Get(currentSettings, toggleId)))];
    }

    /** A click on a colour swatch stores its colour and applies it. */
    method SelectColour(color: string)
      modifies this`currentSettings, this`style
      ensures currentSettings == old(currentSettings)["themeColor" := Str(color)]
      ensures style == ThemeStyle(old(style), color)
    {
      currentSettings := currentSettings["themeColor" := Str(color)];
      UpdateThemeColor(color);
    }

    /** An input event on a slider present on the page, carrying the
        slider's integer value. */
    method SliderInput(sliderId: string, v: int)
      requires sliderId in SliderIds && sliderId in ids
      modifies this`currentSettings, this`texts
      ensures currentSettings == old(currentSettings)[sliderId := Num(v)]
      ensures texts == LabelWritten(old(texts), ids, sliderId, SliderLabel(sliderId, Num(v)))
    {
      currentSettings := currentSettings[sliderId := Num(v)];
      var shown := if sliderId == "autoCloseTimer" then AutoCloseLabel(Num(v)) else Decimal(v) + "%";
      UpdateSliderValue(sliderId, shown);
    }

    method UpdateSliderValue(sliderId: string, value: string)
      modifies this`texts
      ensures texts == LabelWritten(old(texts), ids, sliderId, value)
    {
      var e := ValueElementId(ids, sliderId);
      if e.Some? {
        texts := texts[e.value := value];
      }
    }

    method UpdateSliders()
      modifies this`texts
      ensures texts == SlidersWritten(old(texts), ids, currentSettings, 0)
    {
      var k := 0;
      while k < |SliderIds|
        invariant 0 <= k <= |SliderIds|
        invariant SlidersWritten(texts, ids, currentSettings, k) == SlidersWritten(old(texts), ids, currentSettings, 0)
        decreases |SliderIds| - k
      {
        var id := SliderIds[k];
        if id in ids {
          UpdateSliderValue(id, SliderLabel(id, Get(currentSettings, id)));
        }
        k := k + 1;
      }
    }

    method UpdateThemeColor(color: string)
      modifies this`style
      ensures style == ThemeStyle(old(style), color)
    {
      style := style["--primary-color" := color];
      var rgb := HexToRgb(color);
      if rgb.Some? {
        style := style["--primary-dark" := RgbCss(Darker(rgb.value))];
      }
    }

    /** updateUI, restricted to what it writes into the model: the slider
        labels and the theme properties. */
    method UpdateUI()
      modifies this`texts, this`style
      ensures texts == SlidersWritten(old(texts), ids, currentSettings, 0)
      ensures style == ThemeStyle(old(style), Show(Get(currentSettings, "themeColor")))
    {
      UpdateSliders();
      UpdateThemeColor(Show(Get(currentSettings, "themeColor")));
    }

    method ResetToDefaults()
      modifies this`currentSettings, this`saved, this`texts, this`style
      ensures currentSettings == DefaultSettings()
      ensures saved == old(saved) + [DefaultSettings()]
      ensures texts == SlidersWritten(old(texts), ids, DefaultSettings(), 0)
      ensures style == ThemeStyle(old(style), DefaultThemeColor)
    {
      currentSettings := DefaultSettings();
      SaveSettings();
      UpdateUI();
    }
  }

  /** The settings after loadSettings ran against the two stores. */
  function Loaded(current: SettingsObject, sync: StorageRead, local: StorageRead): (s: SettingsObject)
    ensures StoredObject(sync, local).None? ==> s == current
    ensures StoredObject(sync, local).Some? ==>
              forall k :: Get(s, k) == if k in StoredObject(sync, local).value then StoredObject(sync, local).value[k]
                                       else Get(DefaultSettings(), k)
  {
    match StoredObject(sync, local)
    case None => current
    case Some(o) => Merge(DefaultSettings(), o)
  }
}
