/** The settings panel and the rocket button's look (settings.js): how the
    button shows the configured icon, how the panel's controls are read into
    and written from the settings object, saving, and the list of saved
    custom icons. */
module Settings {
  import opened Options
  import opened Text
  import opened Constants
  import opened State
  import opened Store

  // ---------------------------------------------------------------------
  // The rocket button's icon

  /** The icon type in effect: the stored one, or the rocket when it is
      missing or empty. */
  function EffectiveType(s: Settings): string {
    if TruthyText(s.iconType) then s.iconType.value else IconRocket
  }

  /** The custom icon's pixel size in effect: the stored one, or the default
      when it is missing, zero or not a number. */
  function EffectiveSize(s: Settings): (n: int)
    ensures n != 0
  {
    if TruthySize(s.customIconSize) then s.customIconSize.value else DefaultCustomIconSize
  }

  predicate IsSvgMarkup(c: string) {
    StartsWith(c, "<svg") && Contains(c, "</svg>")
  }

  /** A name ending in one of the image extensions, in any case. */
  predicate HasImageExtension(c: string) {
    var l := Lower(c);
    || EndsWith(l, ".png") || EndsWith(l, ".jpg") || EndsWith(l, ".jpeg")
    || EndsWith(l, ".gif") || EndsWith(l, ".svg") || EndsWith(l, ".webp")
  }

  /** The source's test for "already a URL or data URL": a data URL, an http
      address, or a name with an image extension. */
  predicate IsDirectImage(c: string) {
    StartsWith(c, "data:") || StartsWith(c, "http") || HasImageExtension(c)
  }

  /** The MIME type guessed for a bare base64 payload: PNG when the first ten
      characters mention it, JPEG otherwise. */
  function GuessedMime(c: string): string {
    var head := if |c| < 10 then c else c[..10];
    if Contains(head, "PNG") then "image/png" else "image/jpeg"
  }

  function DataPrefix(c: string): string {
    "data:" + GuessedMime(c) + ";base64,"
  }

  /** The data URL built from content holding `base64,`: the guessed type,
      then the text after the first `base64,` up to the next one. */
  function Base64Url(c: string): (u: string)
    requires Contains(c, "base64,")
    ensures StartsWith(u, DataPrefix(c)) && StartsWith(u, "data:")
    ensures u[|DataPrefix(c)|..] == SecondPiece(c, "base64,")
  {
    var prefix := DataPrefix(c);
    var u := prefix + SecondPiece(c, "base64,");
    assert u[..|prefix|] == prefix;
    assert u[..5] == prefix[..5] == "data:";
    u
  }

  /** The payload of the built data URL occurs in the content and holds no
      further `base64,`. */
  lemma Base64Payload(c: string)
    requires Contains(c, "base64,")
    ensures var payload := Base64Url(c)[|DataPrefix(c)|..];
      !Contains(payload, "base64,") && exists i :: OccursAt(c, payload, i)
  {
  }

  /** What the button shows for trimmed custom content `c` at size `size`:
      SVG markup, a direct image, base64 data turned into a data URL, or a
      question mark for anything else. */
  function ClassifyCustomIcon(c: string, size: int): (r: RocketIcon)
    ensures (r.SvgImage? || r.UrlImage?) ==> r.size == size
    ensures r.SvgImage? || r.UrlImage? || r == Glyph("?")
  {
    if IsSvgMarkup(c) then SvgImage(c, size)
    else if IsDirectImage(c) then UrlImage(c, size)
    else if Contains(c, "base64,") then UrlImage(Base64Url(c), size)
    else Glyph("?")
  }

  /** The order of the tests: SVG markup first, then a direct image, then
      base64 data; a question mark only when none applies; and every image
      URL shown passes the direct-image test. */
  lemma ClassifyCases(c: string, size: int)
    ensures var r := ClassifyCustomIcon(c, size);
      && (r.SvgImage? <==> IsSvgMarkup(c))
      && (r.SvgImage? ==> r.markup == c)
      && (r.UrlImage? && IsDirectImage(c) ==> r.url == c)
      && (r.UrlImage? && !IsDirectImage(c) ==> Contains(c, "base64,") && StartsWith(r.url, DataPrefix(c)))
      && (r == Glyph("?") <==> !IsSvgMarkup(c) && !IsDirectImage(c) && !Contains(c, "base64,"))
      && (r.UrlImage? ==> IsDirectImage(r.url))
  {
  }

  /** Classifying the URL the button got for custom content shows the same
      image again: the data URL built from a bare payload is itself a direct
      image. */
  lemma ClassifyImageStable(c: string, size: int)
    requires ClassifyCustomIcon(c, size).UrlImage?
    ensures ClassifyCustomIcon(ClassifyCustomIcon(c, size).url, size) == ClassifyCustomIcon(c, size)
  {
    if !IsSvgMarkup(c) && !IsDirectImage(c) {
      DataUrlIsDirect(Base64Url(c));
    }
  }

  lemma DataUrlIsDirect(u: string)
    requires StartsWith(u, "data:")
    ensures IsDirectImage(u) && !IsSvgMarkup(u)
  {
    assert u[0] == 'd';
  }

  /** `updateIconDisplay`'s choice of what the rocket button shows. */
  function IconDisplay(s: Settings): RocketIcon {
    var t := EffectiveType(s);
    if t == IconCustom && TruthyText(s.customIconUrl) then
      ClassifyCustomIcon(Trim(s.customIconUrl.value), EffectiveSize(s))
    else if t == IconFontAwesome && TruthyText(s.faIconCode) then
      FaMarkup(Trim(s.faIconCode.value))
    else if t in IconClassMap && IconClassMap[t] != "" then
      FaIcon(IconClassMap[t])
    else
      FaIcon(IconClassMap[IconRocket])
  }

  /** The order of the cases: custom content only for the custom type with a
      URL, user markup only for the Font Awesome type with code, and
      otherwise a non-empty preset class, the rocket's when the type has
      none. */
  lemma IconDisplayCases(s: Settings)
    ensures var r := IconDisplay(s);
      && ((r.SvgImage? || r.UrlImage? || r.Glyph?) <==> EffectiveType(s) == IconCustom && TruthyText(s.customIconUrl))
      && (r.FaMarkup? <==> EffectiveType(s) == IconFontAwesome && TruthyText(s.faIconCode))
      && ((r.SvgImage? || r.UrlImage?) ==> r.size == EffectiveSize(s))
      && (r.FaIcon? ==> r.iconClass != "" && r.iconClass in IconClassMap.Values)
      && (r.FaIcon? && EffectiveType(s) in IconClassMap && IconClassMap[EffectiveType(s)] != "" ==>
            r.iconClass == IconClassMap[EffectiveType(s)])
      && (r.FaIcon? && !(EffectiveType(s) in IconClassMap && IconClassMap[EffectiveType(s)] != "") ==>
            r.iconClass == "fa-rocket")
  {
    assert IconClassMap[IconRocket] == "fa-rocket";
    var t := EffectiveType(s);
    if t in IconClassMap && IconClassMap[t] != "" {
      assert IconClassMap[t] in IconClassMap.Values;
    }
    assert IconRocket in IconClassMap;
  }

  /** The rocket button takes the primary style only when colour matching is
      not switched off and the send button exists and is primary;
      `sendPrimary` is `None` when there is no send button. */
  predicate UsesPrimary(s: Settings, sendPrimary: Option<bool>) {
    s.matchButtonColors != Some(false) && sendPrimary == Some(true)
  }

  /** The rocket button's classes after an icon update: `interactable`, and
      exactly one of the primary and secondary styles; other classes stay. */
  function RocketClasses(old_: set<string>, primary: bool): (r: set<string>)
    ensures "interactable" in r
    ensures ("primary-button" in r <==> primary) && ("secondary-button" in r <==> !primary)
    ensures forall c :: c in old_ && c != "primary-button" && c != "secondary-button" ==> c in r
    ensures forall c :: c in r ==> c in old_ || c in {"interactable", "primary-button", "secondary-button"}
  {
    (old_ - {"primary-button", "secondary-button"})
      + {"interactable", if primary then "primary-button" else "secondary-button"}
  }

  /** A second icon update decides the style class alone. */
  lemma RocketClassesTwice(c: set<string>, first: bool, second: bool)
    ensures RocketClasses(RocketClasses(c, first), second) == RocketClasses(c, second)
  {
  }

  /** `updateIconDisplay()`: nothing without the rocket button; otherwise the
      button shows `IconDisplay` of the settings and gets its style class. */
  method UpdateIconDisplay(st: SharedState, s: Settings, sendPrimary: Option<bool>)
    modifies st`rocketIcon, st`rocketClasses
    ensures st.mounted ==>
      (st.rocketIcon == IconDisplay(s)
       && st.rocketClasses == RocketClasses(old(st.rocketClasses), UsesPrimary(s, sendPrimary)))
    ensures !st.mounted ==> st.rocketIcon == old(st.rocketIcon) && st.rocketClasses == old(st.rocketClasses)
  {
    if !st.mounted {
      return;
    }
    st.rocketIcon := IconDisplay(s);
    st.rocketClasses := RocketClasses(st.rocketClasses, UsesPrimary(s, sendPrimary));
  }

  /** The document body's classes once the enabled flag is applied: exactly
      one of `qra-enabled` and `qra-disabled`; other classes stay. */
  function BodyClasses(old_: set<string>, enabled: bool): (r: set<string>)
    ensures ("qra-enabled" in r <==> enabled) && ("qra-disabled" in r <==> !enabled)
    ensures forall c :: c in old_ && c != "qra-enabled" && c != "qra-disabled" ==> c in r
    ensures forall c :: c in r ==> c in old_ || c in {"qra-enabled", "qra-disabled"}
  {
    (old_ - {"qra-enabled", "qra-disabled"}) + {if enabled then "qra-enabled" else "qra-disabled"}
  }

  /** The rocket button's display for the enabled flag. */
  function RocketDisplay(enabled: bool): string {
    if enabled then "flex" else "none"
  }

  /** `closeUsagePanel()`: the usage panel is hidden. */
  method CloseUsagePanel(st: SharedState)
    modifies st`usagePanelShown
    ensures !st.usagePanelShown
  {
    st.usagePanelShown := false;
  }

  // ---------------------------------------------------------------------
  // The panel's controls

  /** Shown in the URL field in place of a value too long to display. */
  const StashPlaceholder: string := "[图片数据已保存，但不在输入框显示以提高性能]"

  /** Longer URL values are kept aside instead of being shown. */
  const StashThreshold: nat := 1000

  /** The custom-icon URL field: what it displays, and the full value kept in
      its `data-full-value` attribute (`None` when the attribute is unset). */
  datatype UrlField = UrlField(value: string, fullValue: Option<string>)

  /** The field after a value was typed, uploaded or loaded into it: a value
      over the threshold is stashed and the placeholder shown instead. */
  function TypedUrl(v: string): (f: UrlField)
    ensures f.fullValue.Some? <==> |v| > StashThreshold
    ensures |f.value| <= StashThreshold
  {
    if |v| > StashThreshold then UrlField(StashPlaceholder, Some(v)) else UrlField(v, None)
  }

  /** The URL that saving reads from the field: the stashed value when it is
      non-empty, the displayed one otherwise. */
  function SavedUrl(f: UrlField): string {
    if f.fullValue.Some? && f.fullValue.value != "" then f.fullValue.value else f.value
  }

  /** Whatever was put into the field, saving reads it back whole. */
  lemma UrlStashRoundTrip(v: string)
    ensures SavedUrl(TypedUrl(v)) == v
    ensures TypedUrl(v).value == v || TypedUrl(v).value == StashPlaceholder
  {
  }

  /** The values of the panel's six controls. */
  datatype Controls = Controls(
    enabledValue: string,
    iconTypeValue: string,
    url: UrlField,
    sizeValue: string,
    faValue: string,
    colorMatch: bool)

  /** An entry of the saved-icon dropdown. */
  datatype IconOption = IconOption(value: string, text: string)

  /** The extension's settings panel. `present` is false when its markup is
      not in the page. */
  class SettingsPanel {
    var present: bool
    var controls: Controls
    /** The custom-icon and Font Awesome input groups are displayed. */
    var customShown: bool
    var faShown: bool
    /** The saved-icon dropdown's entries and selected value. */
    var options: seq<IconOption>
    var selectValue: string

    constructor (present: bool, controls: Controls, options: seq<IconOption>)
      ensures this.present == present && this.controls == controls && this.options == options
      ensures selectValue == "" && !customShown && !faShown
    {
      this.present, this.controls, this.options := present, controls, options;
      selectValue, customShown, faShown := "", false, false;
    }
  }

  /** `parseInt(text, 10) || 20`: the size field's number, or the default when
      it is zero or not a number. */
  function SizeFromText(v: string): (n: int)
    ensures n != 0
    ensures ParseInt(v).Some? && ParseInt(v).value != 0 ==> n == ParseInt(v).value
    ensures ParseInt(v).None? || ParseInt(v) == Some(0) ==> n == DefaultCustomIconSize
  {
    match ParseInt(v)
    case Some(k) => if k != 0 then k else DefaultCustomIconSize
    case None => DefaultCustomIconSize
  }

  /** A non-zero size written into the size field reads back unchanged. */
  lemma SizeRoundTrip(n: int)
    requires n != 0
    ensures SizeFromText(DecInt(n)) == n
  {
    ParseIntOfDecInt(n);
  }

  /** What the size field shows for a stored size; a size that is not a number
      shows as empty. */
  function SizeText(size: Option<int>): string {
    match size
    case Some(n) => DecInt(n)
    case None => ""
  }

  /** The settings `saveSettings` writes from the panel's controls. */
  function ReadControls(s: Settings, c: Controls): (r: Settings)
    ensures r.enabled == Some(c.enabledValue == "true")
    ensures r.customIconUrl == Some(SavedUrl(c.url))
    ensures TruthySize(r.customIconSize)
    ensures r.menuStyles == s.menuStyles && r.savedCustomIcons == s.savedCustomIcons
  {
    s.(enabled := Some(c.enabledValue == "true"),
       iconType := Some(c.iconTypeValue),
       customIconUrl := Some(SavedUrl(c.url)),
       customIconSize := Some(SizeFromText(c.sizeValue)),
       faIconCode := Some(c.faValue),
       matchButtonColors := Some(c.colorMatch))
  }

  /** Every key the panel shows holds a usable value: the two flags and the
      two texts are present, the icon type is non-empty and the size is a
      non-zero number. */
  predicate Complete(s: Settings) {
    && s.enabled.Some? && TruthyText(s.iconType) && s.customIconUrl.Some?
    && TruthySize(s.customIconSize) && s.faIconCode.Some? && s.matchButtonColors.Some?
  }

  /** The defaults `loadAndApplySettings` fills in: both flags are true
      unless exactly false, and each other key takes its default when it is
      missing or falsy. */
  function WithDefaults(s: Settings): (r: Settings)
    ensures Complete(r)
    ensures r.menuStyles == s.menuStyles && r.savedCustomIcons == s.savedCustomIcons
  {
    s.(enabled := Some(s.enabled != Some(false)),
       iconType := Some(EffectiveType(s)),
       customIconUrl := Some(if TruthyText(s.customIconUrl) then s.customIconUrl.value else ""),
       customIconSize := Some(EffectiveSize(s)),
       faIconCode := Some(if TruthyText(s.faIconCode) then s.faIconCode.value else ""),
       matchButtonColors := Some(s.matchButtonColors != Some(false)))
  }

  /** Each key keeps a usable value and otherwise takes its default. */
  lemma DefaultsPerKey(s: Settings)
    ensures var r := WithDefaults(s);
      && (r.enabled == Some(true) <==> s.enabled != Some(false))
      && (r.matchButtonColors == Some(true) <==> s.matchButtonColors != Some(false))
      && (r.iconType == s.iconType <==> TruthyText(s.iconType))
      && (!TruthyText(s.iconType) ==> r.iconType == Some(IconRocket))
      && (TruthySize(s.customIconSize) <==> r.customIconSize == s.customIconSize)
      && (!TruthySize(s.customIconSize) ==> r.customIconSize == Some(DefaultCustomIconSize))
      && (r.customIconUrl == Some("") <==> !TruthyText(s.customIconUrl))
      && (r.faIconCode == Some("") <==> !TruthyText(s.faIconCode))
  {
  }

  /** A present flag survives both its defaulting and its round trip
      through the enabled dropdown's text. */
  lemma FlagKept(e: Option<bool>)
    requires e.Some?
    ensures Some(e != Some(false)) == e
    ensures Some((if e == Some(false) then "false" else "true") == "true") == e
  {
    assert "false"[0] != "true"[0];
    if e.value {
      assert e == Some(true);
    } else {
      assert e == Some(false);
    }
  }

  /** Complete settings are left as they are. */
  lemma CompleteUnchanged(s: Settings)
    requires Complete(s)
    ensures WithDefaults(s) == s
  {
    var r := WithDefaults(s);
    FlagKept(s.enabled);
    FlagKept(s.matchButtonColors);
    assert s.customIconUrl == Some(s.customIconUrl.value);
    assert s.faIconCode == Some(s.faIconCode.value);
    assert s.enabled == Some(s.enabled.value);
    assert s.matchButtonColors == Some(s.matchButtonColors.value);
    assert r.enabled == s.enabled && r.matchButtonColors == s.matchButtonColors;
    assert r.iconType == s.iconType && r.customIconSize == s.customIconSize;
    assert r.customIconUrl == s.customIconUrl;
    assert r.faIconCode == s.faIconCode;
  }

  /** Defaulting twice is defaulting once. */
  lemma DefaultsIdempotent(s: Settings)
    ensures WithDefaults(WithDefaults(s)) == WithDefaults(s)
  {
    CompleteUnchanged(WithDefaults(s));
  }

  /** Defaulting does not change what the rocket button shows: the icon
      update applies the same defaults when it reads the settings. */
  lemma DefaultsKeepDisplay(s: Settings)
    ensures IconDisplay(WithDefaults(s)) == IconDisplay(s)
    ensures UsesPrimary(WithDefaults(s), Some(true)) == UsesPrimary(s, Some(true))
  {
  }

  /** What `loadAndApplySettings` writes into the controls. */
  function ShownControls(s: Settings): Controls {
    Controls(
      if s.enabled == Some(false) then "false" else "true",
      EffectiveType(s),
      TypedUrl(s.customIconUrl.GetOr("")),
      DecInt(EffectiveSize(s)),
      s.faIconCode.GetOr(""),
      s.matchButtonColors != Some(false))
  }

  /** Saving right after loading changes nothing: the controls read back the
      settings they were filled from, a stashed URL included. */
  lemma LoadThenSaveKeepsSettings(s: Settings)
    requires Complete(s)
    ensures ReadControls(s, ShownControls(s)) == s
  {
    var u, n := s.customIconUrl.value, s.customIconSize.value;
    UrlStashRoundTrip(u);
    SizeRoundTrip(n);
    var c := ShownControls(s);
    assert c.url == TypedUrl(u) && c.sizeValue == DecInt(n);
    assert c.iconTypeValue == s.iconType.value;
    var r := ReadControls(s, c);
    FlagKept(s.enabled);
    FlagKept(s.matchButtonColors);
    assert r.customIconUrl == Some(u) == s.customIconUrl;
    assert r.customIconSize == Some(n) == s.customIconSize;
    assert r.enabled == s.enabled && r.matchButtonColors == s.matchButtonColors;
  }

  // ---------------------------------------------------------------------
  // Reacting to a control

  /** A change event from one of the panel's controls, with the control's new
      value. */
  datatype SettingsEvent =
    | EnabledChanged(value: string)
    | IconTypeChanged(value: string)
    | UrlEdited(value: string)
    | SizeEdited(value: string)
    | FaCodeEdited(value: string)
    | ColorMatchToggled(checked: bool)
    | OtherControl

  /** The key `handleSettingsChange` writes for an event. */
  function ApplyChange(s: Settings, ev: SettingsEvent): Settings {
    match ev
    case EnabledChanged(v) => s.(enabled := Some(v == "true"))
    case IconTypeChanged(v) => s.(iconType := Some(v))
    case UrlEdited(v) => s.(customIconUrl := Some(v))
    case SizeEdited(v) => s.(customIconSize := Some(SizeFromText(v)))
    case FaCodeEdited(v) => s.(faIconCode := Some(v))
    case ColorMatchToggled(b) => s.(matchButtonColors := Some(b))
    case OtherControl => s
  }

  /** The controls after the user's edit and the handler's own rewrite of the
      URL field. */
  function EditControls(c: Controls, ev: SettingsEvent): Controls {
    match ev
    case EnabledChanged(v) => c.(enabledValue := v)
    case IconTypeChanged(v) => c.(iconTypeValue := v)
    case UrlEdited(v) => c.(url := TypedUrl(v))
    case SizeEdited(v) => c.(sizeValue := v)
    case FaCodeEdited(v) => c.(faValue := v)
    case ColorMatchToggled(b) => c.(colorMatch := b)
    case OtherControl => c
  }

  /** The handler and the save button agree: applying a change to what the
      panel saves gives what the panel saves after the change, the URL stash
      included. */
  lemma ChangeAgreesWithSave(s: Settings, c: Controls, ev: SettingsEvent)
    ensures ApplyChange(ReadControls(s, c), ev) == ReadControls(s, EditControls(c, ev))
  {
    match ev {
      case UrlEdited(v) => UrlStashRoundTrip(v);
      case _ =>
    }
  }

  /** A size typed into the panel never stores zero. */
  lemma ChangedSizeNonZero(s: Settings, v: string)
    ensures TruthySize(ApplyChange(s, SizeEdited(v)).customIconSize)
  {
  }

  /** `handleSettingsChange(event)`: the settings key of the changed control,
      the side effects of the enabled flag, the icon type and the URL field,
      and an icon update. */
  method HandleSettingsChange(ev: SettingsEvent, s: ExtensionSettings, panel: SettingsPanel,
                              st: SharedState, sendPrimary: Option<bool>)
    modifies s, panel`controls, panel`customShown, panel`faShown
    modifies st`bodyClasses, st`rocketDisplay, st`rocketIcon, st`rocketClasses
    ensures s.Value() == ApplyChange(old(s.Value()), ev)
    ensures panel.controls == (if ev.UrlEdited? then old(panel.controls).(url := TypedUrl(ev.value))
                               else old(panel.controls))
    ensures panel.customShown == (if ev.IconTypeChanged? then ev.value == IconCustom else old(panel.customShown))
    ensures panel.faShown == (if ev.IconTypeChanged? then ev.value == IconFontAwesome else old(panel.faShown))
    ensures st.bodyClasses == (if ev.EnabledChanged? then BodyClasses(old(st.bodyClasses), ev.value == "true")
                               else old(st.bodyClasses))
    ensures st.rocketDisplay == (if ev.EnabledChanged? && st.mounted then RocketDisplay(ev.value == "true")
                                 else old(st.rocketDisplay))
    ensures st.rocketIcon == (if st.mounted then IconDisplay(s.Value()) else old(st.rocketIcon))
    ensures st.rocketClasses == (if st.mounted then RocketClasses(old(st.rocketClasses), UsesPrimary(s.Value(), sendPrimary))
      else old(st.rocketClasses))
  {
    match ev {
      case EnabledChanged(v) =>
        var enabled := v == "true";
        s.enabled := Some(enabled);
        st.bodyClasses := BodyClasses(st.bodyClasses, enabled);
        if st.mounted {
          st.rocketDisplay := RocketDisplay(enabled);
        }
      case IconTypeChanged(v) =>
        s.iconType := Some(v);
        panel.customShown := v == IconCustom;
        panel.faShown := v == IconFontAwesome;
      case UrlEdited(v) =>
        panel.controls := panel.controls.(url := TypedUrl(v));
        s.customIconUrl := Some(v);
      case SizeEdited(v) =>
        s.customIconSize := Some(SizeFromText(v));
      case FaCodeEdited(v) =>
        s.faIconCode := Some(v);
      case ColorMatchToggled(b) =>
        s.matchButtonColors := Some(b);
      case OtherControl =>
    }
    var v := s.Value();
    assert v == ApplyChange(old(s.Value()), ev);
    UpdateIconDisplay(st, v, sendPrimary);
  }

  // ---------------------------------------------------------------------
  // Saving

  /** `saveSettings()`: the controls are read into the settings, the icon is
      updated, and the settings are handed to the host (`hostSave`: `None`
      when the host offers no save, otherwise whether it succeeded) and
      written to browser storage. The result says whether either succeeded. */
  method SaveSettings(s: ExtensionSettings, panel: SettingsPanel, st: SharedState,
                      storage: LocalStore, hostSave: Option<bool>, sendPrimary: Option<bool>)
    returns (saved: bool)
    modifies s, st`rocketIcon, st`rocketClasses, storage`blob
    ensures s.Value() == (if panel.present then ReadControls(old(s.Value()), panel.controls) else old(s.Value()))
    ensures saved <==> hostSave == Some(true) || storage.writable
    ensures storage.blob == (if storage.writable then Some(Blob(s.Value())) else old(storage.blob))
    ensures st.mounted ==>
      (st.rocketIcon == IconDisplay(s.Value())
       && st.rocketClasses == RocketClasses(old(st.rocketClasses), UsesPrimary(s.Value(), sendPrimary)))
    ensures !st.mounted ==> st.rocketIcon == old(st.rocketIcon) && st.rocketClasses == old(st.rocketClasses)
  {
    if panel.present {
      s.Assign(ReadControls(s.Value(), panel.controls));
    }
    UpdateIconDisplay(st, s.Value(), sendPrimary);
    saved := hostSave == Some(true);
    if storage.writable {
      storage.blob := Some(Blob(s.Value()));
      saved := true;
    }
  }

  // ---------------------------------------------------------------------
  // Saved custom icons

  /** The dropdown entries for the saved icons: value the id, text the
      name, in list order. */
  function IconOptions(icons: seq<SavedIcon>): (r: seq<IconOption>)
    ensures |r| == |icons|
    ensures forall i :: 0 <= i < |icons| ==> r[i].value == icons[i].id && r[i].text == icons[i].name
  {
    seq(|icons|, i requires 0 <= i < |icons| => IconOption(icons[i].id, icons[i].name))
  }

  lemma IconOptionsSnoc(icons: seq<SavedIcon>, i: nat)
    requires i < |icons|
    ensures IconOptions(icons[..i + 1]) == IconOptions(icons[..i]) + [IconOption(icons[i].id, icons[i].name)]
  {
  }

  /** The dropdown's first, default entry, when it has one. */
  function DefaultOption(opts: seq<IconOption>): (r: seq<IconOption>)
    ensures |r| <= 1 && |r| <= |opts| && r == opts[..|r|]
    ensures opts != [] ==> |r| == 1
  {
    if opts == [] then [] else opts[..1]
  }

  /** `updateCustomIconSelect()`: without the dropdown or a saved list,
      nothing; otherwise every entry but the first is removed and one entry
      per saved icon is appended. */
  method UpdateCustomIconSelect(icons: Option<seq<SavedIcon>>, panel: SettingsPanel)
    modifies panel`options
    ensures panel.present && icons.Some? ==>
      panel.options == DefaultOption(old(panel.options)) + IconOptions(icons.value)
    ensures !(panel.present && icons.Some?) ==> panel.options == old(panel.options)
  {
    if !panel.present || icons.None? {
      return;
    }
    while |panel.options| > 1
      invariant DefaultOption(panel.options) == DefaultOption(old(panel.options))
      decreases |panel.options|
    {
      panel.options := panel.options[..1] + panel.options[2..];
    }
    assert panel.options == DefaultOption(old(panel.options));
    var list := icons.value;
    var i := 0;
    while i < |list|
      invariant 0 <= i <= |list|
      invariant panel.options == DefaultOption(old(panel.options)) + IconOptions(list[..i])
    {
      IconOptionsSnoc(list, i);
      panel.options := panel.options + [IconOption(list[i].id, list[i].name)];
      i := i + 1;
    }
    assert list[..|list|] == list;
  }

  /** `savedCustomIcons.find(icon => icon.id === id)`, as the index of the
      first icon with that id. */
  function FindIcon(icons: seq<SavedIcon>, id: string): (r: Option<nat>)
    ensures r.Some? ==> r.value < |icons| && icons[r.value].id == id
    ensures r.Some? ==> forall j :: 0 <= j < r.value ==> icons[j].id != id
    ensures r.None? ==> forall j :: 0 <= j < |icons| ==> icons[j].id != id
    decreases |icons|
  {
    if icons == [] then None
    else if icons[0].id == id then Some(0)
    else match FindIcon(icons[1..], id)
      case Some(k) => Some(k + 1)
      case None => None
  }

  predicate UniqueIds(icons: seq<SavedIcon>) {
    forall i, j :: 0 <= i < j < |icons| ==> icons[i].id != icons[j].id
  }

  /** With distinct ids, choosing the dropdown's entry for an icon finds that
      icon. */
  lemma SelectFindsIcon(icons: seq<SavedIcon>, k: nat)
    requires UniqueIds(icons) && k < |icons|
    ensures FindIcon(icons, IconOptions(icons)[k].value) == Some(k)
  {
    var id := icons[k].id;
    assert IconOptions(icons)[k].value == id;
    var r := FindIcon(icons, id);
    assert icons[k].id == id;
    assert r.Some?;
    var j := r.value;
    assert icons[j].id == id;
    assert j == k;
  }

  /** The name offered when saving an icon: the URL's last path segment cut
      to 20 characters, or a timestamp name when that segment is empty. */
  function DefaultIconName(url: string, now: nat): (r: string)
    ensures r != ""
    ensures AfterLastSlash(url) != "" ==>
      StartsWith(AfterLastSlash(url), r)
      && |r| == (if |AfterLastSlash(url)| < 20 then |AfterLastSlash(url)| else 20)
    ensures AfterLastSlash(url) == "" ==> r == "图标_" + Dec(now)
  {
    var last := AfterLastSlash(url);
    if last == "" then "图标_" + Dec(now)
    else if |last| <= 20 then last
    else last[..20]
  }

  /** The saved-icon list after `saveCustomIcon`: unchanged for a blank URL;
      otherwise created when missing, and, unless the name prompt was
      cancelled (`answer` is `None`), extended by exactly one icon with the
      URL, the parsed size and the given name or else the default one.
      `nameTime` and `idTime` are the two clock readings. */
  function AddedIcons(saved: Option<seq<SavedIcon>>, url: string, sizeText: string,
                      answer: Option<string>, nameTime: nat, idTime: nat): Option<seq<SavedIcon>>
  {
    if IsBlank(url) then saved
    else
      var before := saved.GetOr([]);
      match answer
      case None => Some(before)
      case Some(a) =>
        var name := if a != "" then a else DefaultIconName(url, nameTime);
        Some(before + [SavedIcon("icon_" + Dec(idTime), name, url, ParseInt(sizeText))])
  }

  /** A blank URL adds nothing; otherwise the earlier icons stay in place
      and, unless the prompt was cancelled, exactly one icon follows them:
      it has the URL, the parsed size, the `icon_` id of the clock reading
      and a non-empty name, the one given if any and the default one else. */
  lemma AddedIconsShape(saved: Option<seq<SavedIcon>>, url: string, sizeText: string,
                        answer: Option<string>, nameTime: nat, idTime: nat)
    ensures var r := AddedIcons(saved, url, sizeText, answer, nameTime, idTime);
      && (IsBlank(url) ==> r == saved)
      && (!IsBlank(url) ==>
            var before := saved.GetOr([]);
            && r.Some? && |r.value| == |before| + (if answer.Some? then 1 else 0)
            && r.value[..|before|] == before)
      && (!IsBlank(url) && answer.Some? ==>
            var added := r.value[|r.value| - 1];
            && added.url == url && added.size == ParseInt(sizeText) && added.name != ""
            && added.id == "icon_" + Dec(idTime)
            && (answer.value != "" ==> added.name == answer.value)
            && (answer.value == "" ==> added.name == DefaultIconName(url, nameTime)))
  {
    if !IsBlank(url) && answer.Some? {
      var before := saved.GetOr([]);
      var r := AddedIcons(saved, url, sizeText, answer, nameTime, idTime).value;
      assert r[..|before|] == before;
    }
  }

  /** A confirmed name prompt appends one icon to the list, created when
      missing. */
  lemma AddedIconsAppends(saved: Option<seq<SavedIcon>>, url: string, sizeText: string,
                          a: string, nameTime: nat, idTime: nat)
    requires !IsBlank(url)
    ensures AddedIcons(saved, url, sizeText, Some(a), nameTime, idTime)
      == Some(saved.GetOr([]) + [SavedIcon("icon_" + Dec(idTime), if a != "" then a else DefaultIconName(url, nameTime),
                                           url, ParseInt(sizeText))])
  {
  }

  /** The URL `saveCustomIcon` stores, as written: the field's displayed
      value, which is the placeholder whenever the value is stashed. */
  function IconUrlAsWritten(f: UrlField): string {
    f.value
  }

  /** A long URL or uploaded image is saved as the placeholder text rather
      than as the image, when the field's displayed value is used. */
  lemma SavedIconGetsPlaceholder(v: string)
    requires |v| > StashThreshold
    ensures IconUrlAsWritten(TypedUrl(v)) == StashPlaceholder
    ensures IconUrlAsWritten(TypedUrl(v)) != v
  {
  }

  /** `saveCustomIcon()`, reading the URL as saving does (`SavedUrl`); the
      prompt's answer and the two clock readings are parameters. */
  method SaveCustomIcon(s: ExtensionSettings, panel: SettingsPanel, answer: Option<string>,
                        nameTime: nat, idTime: nat)
    requires panel.present
    modifies s`savedCustomIcons, panel`options
    ensures s.Value() == old(s.Value()).(savedCustomIcons :=
      AddedIcons(old(s.savedCustomIcons), SavedUrl(panel.controls.url), panel.controls.sizeValue,
                 answer, nameTime, idTime))
    ensures panel.options == (if IsBlank(SavedUrl(panel.controls.url)) || answer.None? then old(panel.options)
      else DefaultOption(old(panel.options)) + IconOptions(s.savedCustomIcons.value))
  {
    var url := SavedUrl(panel.controls.url);
    var size := ParseInt(panel.controls.sizeValue);
    if IsBlank(url) {
      return;
    }
    // The list is created before the name prompt, so a cancelled prompt
    // still leaves it created.
    var saved := s.savedCustomIcons.GetOr([]);
    if answer.None? {
      s.savedCustomIcons := Some(saved);
      return;
    }
    var name := if answer.value != "" then answer.value else DefaultIconName(url, nameTime);
    AddedIconsAppends(s.savedCustomIcons, url, panel.controls.sizeValue, answer.value, nameTime, idTime);
    var icons := saved + [SavedIcon("icon_" + Dec(idTime), name, url, size)];
    s.savedCustomIcons := Some(icons);
    UpdateCustomIconSelect(Some(icons), panel);
  }

  /** The icon a dropdown value selects: none for the default entry, a
      missing list or an unknown id, else the first icon with that id. */
  function SelectedIcon(id: string, icons: Option<seq<SavedIcon>>): (r: Option<SavedIcon>)
    ensures r.Some? ==> icons.Some? && r.value in icons.value && r.value.id == id && id != ""
    ensures r.None? ==> id == "" || icons.None? || forall j :: 0 <= j < |icons.value| ==> icons.value[j].id != id
  {
    if id == "" || icons.None? then None
    else match FindIcon(icons.value, id)
      case Some(k) => Some(icons.value[k])
      case None => None
  }

  /** The settings after an icon is selected. */
  function SelectedSettings(s: Settings, icon: SavedIcon): Settings {
    s.(iconType := Some(IconCustom), customIconUrl := Some(icon.url), customIconSize := icon.size)
  }

  /** The controls after an icon is selected, as written: the URL field shows
      the icon's URL but keeps whatever value was stashed before. */
  function SelectedControlsAsWritten(c: Controls, icon: SavedIcon): Controls {
    c.(iconTypeValue := IconCustom, url := c.url.(value := icon.url), sizeValue := SizeText(icon.size))
  }

  /** With an image stashed in the URL field, selecting a saved icon and then
      saving stores the stashed image again, not the selected icon. */
  lemma StaleStashRevertsSelection(s: Settings, c: Controls, icon: SavedIcon, big: string)
    requires c.url == TypedUrl(big) && |big| > StashThreshold && icon.url != big
    ensures ReadControls(SelectedSettings(s, icon), SelectedControlsAsWritten(c, icon)).customIconUrl == Some(big)
    ensures SelectedSettings(s, icon).customIconUrl != Some(big)
  {
  }

  /** The controls after an icon is selected: the URL goes through the field
      the same way as a typed one, so a previous stash is replaced. */
  function SelectedControls(c: Controls, icon: SavedIcon): Controls {
    c.(iconTypeValue := IconCustom, url := TypedUrl(icon.url), sizeValue := SizeText(icon.size))
  }

  /** Saving right after selecting an icon keeps the selected icon's type,
      URL and (usable) size. */
  lemma SelectThenSaveKeepsIcon(s: Settings, c: Controls, icon: SavedIcon)
    ensures var r := ReadControls(SelectedSettings(s, icon), SelectedControls(c, icon));
      && r.iconType == Some(IconCustom) && r.customIconUrl == Some(icon.url)
      && (TruthySize(icon.size) ==> r.customIconSize == icon.size)
  {
    UrlStashRoundTrip(icon.url);
    if TruthySize(icon.size) {
      SizeRoundTrip(icon.size.value);
    }
  }

  /** `handleCustomIconSelect(event)`, with the dropdown's chosen value in
      `panel.selectValue`: nothing for the default entry, a missing list or an
      unknown id; otherwise the icon's type, URL and size go into the
      controls and the settings, the icon is updated and the dropdown goes
      back to its default entry. */
  method HandleCustomIconSelect(s: ExtensionSettings, panel: SettingsPanel, st: SharedState,
                                sendPrimary: Option<bool>)
    requires panel.present
    modifies s, panel`controls, panel`selectValue, st`rocketIcon, st`rocketClasses
    ensures var chosen := SelectedIcon(old(panel.selectValue), old(s.savedCustomIcons));
      chosen.None? ==>
        (s.Value() == old(s.Value()) && panel.controls == old(panel.controls)
         && panel.selectValue == old(panel.selectValue)
         && st.rocketIcon == old(st.rocketIcon) && st.rocketClasses == old(st.rocketClasses))
    ensures var chosen := SelectedIcon(old(panel.selectValue), old(s.savedCustomIcons));
      chosen.Some? ==>
        (s.Value() == SelectedSettings(old(s.Value()), chosen.value)
         && panel.controls == SelectedControls(old(panel.controls), chosen.value)
         && panel.selectValue == ""
         && (st.mounted ==>
               st.rocketIcon == IconDisplay(s.Value())
               && st.rocketClasses == RocketClasses(old(st.rocketClasses), UsesPrimary(s.Value(), sendPrimary)))
         && (!st.mounted ==> st.rocketIcon == old(st.rocketIcon) && st.rocketClasses == old(st.rocketClasses)))
  {
    var id := panel.selectValue;
    if id == "" {
      return;
    }
    if s.savedCustomIcons.None? {
      return;
    }
    var k := FindIcon(s.savedCustomIcons.value, id);
    if k.None? {
      return;
    }
    var icon := s.savedCustomIcons.value[k.value];
    panel.controls := SelectedControls(panel.controls, icon);
    s.iconType, s.customIconUrl, s.customIconSize := Some(IconCustom), Some(icon.url), icon.size;
    UpdateIconDisplay(st, s.Value(), sendPrimary);
    panel.selectValue := "";
  }

  // ---------------------------------------------------------------------
  // Loading into the panel

  /** `loadAndApplySettings()`: the settings get their defaults, the panel's
      controls and input groups show them, a disabled extension hides the
      rocket button, the icon is updated and the saved-icon dropdown is
      refilled. */
  method LoadAndApplySettings(s: ExtensionSettings, panel: SettingsPanel, st: SharedState,
                              sendPrimary: Option<bool>)
    modifies s, panel`controls, panel`customShown, panel`faShown, panel`options
    modifies st`rocketDisplay, st`rocketIcon, st`rocketClasses
    ensures s.Value() == WithDefaults(old(s.Value()))
    ensures panel.controls == (if panel.present then ShownControls(s.Value()) else old(panel.controls))
    ensures panel.customShown == (if panel.present then s.iconType == Some(IconCustom) else old(panel.customShown))
    ensures panel.faShown == (if panel.present then s.iconType == Some(IconFontAwesome) else old(panel.faShown))
    ensures st.rocketDisplay == (if st.mounted && s.enabled == Some(false) then "none" else old(st.rocketDisplay))
    ensures st.rocketIcon == (if st.mounted then IconDisplay(s.Value()) else old(st.rocketIcon))
    ensures st.rocketClasses == (if st.mounted then RocketClasses(old(st.rocketClasses), UsesPrimary(s.Value(), sendPrimary))
      else old(st.rocketClasses))
    ensures panel.options == (if panel.present && s.savedCustomIcons.Some?
      then DefaultOption(old(panel.options)) + IconOptions(s.savedCustomIcons.value) else old(panel.options))
  {
    s.Assign(WithDefaults(s.Value()));
    var v := s.Value();
    ShowInPanel(panel, v);
    if v.enabled == Some(false) && st.mounted {
      st.rocketDisplay := "none";
    }
    UpdateIconDisplay(st, v, sendPrimary);
    UpdateCustomIconSelect(v.savedCustomIcons, panel);
  }

  /** The panel part of `loadAndApplySettings()`: the controls show the
      settings, and the custom and Font Awesome input groups are shown for
      their icon types. */
  method ShowInPanel(panel: SettingsPanel, v: Settings)
    modifies panel`controls, panel`customShown, panel`faShown
    ensures panel.controls == (if panel.present then ShownControls(v) else old(panel.controls))
    ensures panel.customShown == (if panel.present then v.iconType == Some(IconCustom) else old(panel.customShown))
    ensures panel.faShown == (if panel.present then v.iconType == Some(IconFontAwesome) else old(panel.faShown))
  {
    if panel.present {
      panel.controls := ShownControls(v);
      panel.customShown := v.iconType == Some(IconCustom);
      panel.faShown := v.iconType == Some(IconFontAwesome);
    }
  }
}
