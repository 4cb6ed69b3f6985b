/** The extension's entry point (index.js): the settings object it starts
    from, the defaults applied at start-up, the backup read from browser
    storage, and initialisation that runs at most once. */
module Index {
  import opened Options
  import opened Constants
  import opened State
  import opened Store
  import Panel = Settings

  // ---------------------------------------------------------------------
  // The settings object at start-up

  /** The extension's entry in `extension_settings` once the module has
      loaded: the entry the host kept, or the initial settings when there
      was none. */
  function StartupSettings(kept: Option<Settings>): (r: Settings)
    ensures kept.Some? ==> r == kept.value
    ensures kept.None? ==>
      Panel.Complete(r) && r.menuStyles == Some(DefaultMenuStyles) && r.savedCustomIcons == Some([])
  {
    match kept
    case Some(s) => s
    case None => InitialSettings()
  }

  /** The defaults `loadAndApplyInitialSettings` fills in: those of the
      settings panel, and the default menu styles when there are none. */
  function InitialDefaults(s: Settings): (r: Settings)
    ensures Panel.Complete(r) && r.menuStyles.Some?
    ensures r.savedCustomIcons == s.savedCustomIcons
    ensures s.menuStyles.Some? ==> r.menuStyles == s.menuStyles
  {
    Panel.WithDefaults(s).(menuStyles := Some(s.menuStyles.GetOr(DefaultMenuStyles)))
  }

  /** The start-up defaults agree key by key with the panel's, and differ
      only in also supplying the menu styles. */
  lemma InitialDefaultsExtendPanel(s: Settings)
    ensures InitialDefaults(s).(menuStyles := s.menuStyles) == Panel.WithDefaults(s)
    ensures s.menuStyles.None? ==> InitialDefaults(s).menuStyles == Some(DefaultMenuStyles)
  {
  }

  /** Applying the start-up defaults twice is applying them once. */
  lemma InitialDefaultsIdempotent(s: Settings)
    ensures InitialDefaults(InitialDefaults(s)) == InitialDefaults(s)
  {
    var r := InitialDefaults(s);
    Panel.CompleteUnchanged(r);
    assert Panel.WithDefaults(r) == r;
  }

  /** The panel's defaults change nothing after the start-up defaults. */
  lemma PanelDefaultsAfterStartup(s: Settings)
    ensures Panel.WithDefaults(InitialDefaults(s)) == InitialDefaults(s)
  {
    Panel.CompleteUnchanged(InitialDefaults(s));
  }

  /** The initial settings already hold every default. */
  lemma InitialSettingsAreDefaulted()
    ensures InitialDefaults(InitialSettings()) == InitialSettings()
  {
    var s := InitialSettings();
    assert Panel.Complete(s);
    Panel.CompleteUnchanged(s);
  }

  /** `loadAndApplyInitialSettings()`: the settings get their defaults, the
      body carries exactly one of the enabled and disabled classes, the
      rocket button is shown as a flex box when the extension is enabled and
      hidden otherwise, and the icon is updated. */
  method LoadAndApplyInitialSettings(s: ExtensionSettings, st: SharedState, sendPrimary: Option<bool>)
    modifies s, st`bodyClasses, st`rocketDisplay, st`rocketIcon, st`rocketClasses
    ensures s.Value() == InitialDefaults(old(s.Value()))
    ensures s.enabled.Some?
    ensures st.bodyClasses == Panel.BodyClasses(old(st.bodyClasses), s.enabled.value)
    ensures st.rocketDisplay == (if st.mounted then Panel.RocketDisplay(s.enabled.value) else old(st.rocketDisplay))
    ensures st.mounted ==>
      (st.rocketIcon == Panel.IconDisplay(s.Value())
       && st.rocketClasses == Panel.RocketClasses(old(st.rocketClasses), Panel.UsesPrimary(s.Value(), sendPrimary)))
    ensures !st.mounted ==> st.rocketIcon == old(st.rocketIcon) && st.rocketClasses == old(st.rocketClasses)
  {
    s.Assign(InitialDefaults(s.Value()));
    var enabled := s.enabled.value;
    st.bodyClasses := Panel.BodyClasses(st.bodyClasses, enabled);
    if st.mounted {
      st.rocketDisplay := Panel.RocketDisplay(enabled);
    }
    Panel.UpdateIconDisplay(st, s.Value(), sendPrimary);
  }

  // ---------------------------------------------------------------------
  // The backup in browser storage

  /** `Object.assign(current, parsed)`: every key the parsed object holds
      overwrites the current one; the others stay. */
  function Merge(cur: Settings, patch: Settings): (r: Settings) {
    Settings(
      if patch.enabled.Some? then patch.enabled else cur.enabled,
      if patch.iconType.Some? then patch.iconType else cur.iconType,
      if patch.customIconUrl.Some? then patch.customIconUrl else cur.customIconUrl,
      if patch.customIconSize.Some? then patch.customIconSize else cur.customIconSize,
      if patch.faIconCode.Some? then patch.faIconCode else cur.faIconCode,
      if patch.matchButtonColors.Some? then patch.matchButtonColors else cur.matchButtonColors,
      if patch.menuStyles.Some? then patch.menuStyles else cur.menuStyles,
      if patch.savedCustomIcons.Some? then patch.savedCustomIcons else cur.savedCustomIcons)
  }

  /** The object with no keys. */
  const NoKeys: Settings := Settings(None, None, None, None, None, None, None, None)

  /** A key changes only when the stored object holds it, and then takes the
      stored value. */
  lemma MergeOverwritesOnlyPresent(cur: Settings, patch: Settings)
    ensures var r := Merge(cur, patch);
      && (r.enabled != cur.enabled ==> patch.enabled.Some?)
      && (patch.enabled.Some? ==> r.enabled == patch.enabled)
      && (r.iconType != cur.iconType ==> patch.iconType.Some?)
      && (patch.iconType.Some? ==> r.iconType == patch.iconType)
      && (r.customIconUrl != cur.customIconUrl ==> patch.customIconUrl.Some?)
      && (patch.customIconUrl.Some? ==> r.customIconUrl == patch.customIconUrl)
      && (r.customIconSize != cur.customIconSize ==> patch.customIconSize.Some?)
      && (patch.customIconSize.Some? ==> r.customIconSize == patch.customIconSize)
      && (r.faIconCode != cur.faIconCode ==> patch.faIconCode.Some?)
      && (patch.faIconCode.Some? ==> r.faIconCode == patch.faIconCode)
      && (r.matchButtonColors != cur.matchButtonColors ==> patch.matchButtonColors.Some?)
      && (patch.matchButtonColors.Some? ==> r.matchButtonColors == patch.matchButtonColors)
      && (r.menuStyles != cur.menuStyles ==> patch.menuStyles.Some?)
      && (patch.menuStyles.Some? ==> r.menuStyles == patch.menuStyles)
      && (r.savedCustomIcons != cur.savedCustomIcons ==> patch.savedCustomIcons.Some?)
      && (patch.savedCustomIcons.Some? ==> r.savedCustomIcons == patch.savedCustomIcons)
  {
  }

  /** Loading the same backup twice is loading it once. */
  lemma MergeIdempotent(cur: Settings, patch: Settings)
    ensures Merge(Merge(cur, patch), patch) == Merge(cur, patch)
  {
  }

  /** An object with no keys changes nothing. */
  lemma MergeNoKeys(cur: Settings)
    ensures Merge(cur, NoKeys) == cur
  {
  }

  /** A backup holding every key replaces the settings whatever they were:
      what the settings were when they were saved is what loading restores. */
  lemma SaveThenLoadRestores(cur: Settings, saved: Settings)
    requires Panel.Complete(saved) && saved.menuStyles.Some? && saved.savedCustomIcons.Some?
    ensures Merge(cur, saved) == saved
  {
  }

  /** `loadSettingsFromLocalStorage()`: when the storage key holds a parsed
      object its keys are copied onto the settings one by one and the answer
      is true; a missing or unparsable entry changes nothing and answers
      false. */
  method LoadSettingsFromLocalStorage(s: ExtensionSettings, storage: LocalStore) returns (loaded: bool)
    modifies s
    ensures loaded <==> storage.blob.Some? && storage.blob.value.Blob?
    ensures loaded ==> s.Value() == Merge(old(s.Value()), storage.blob.value.settings)
    ensures !loaded ==> s.Value() == old(s.Value())
  {
    if storage.blob.None? || storage.blob.value.Unparsable? {
      return false;
    }
    var p := storage.blob.value.settings;
    if p.enabled.Some? { s.enabled := p.enabled; }
    if p.iconType.Some? { s.iconType := p.iconType; }
    if p.customIconUrl.Some? { s.customIconUrl := p.customIconUrl; }
    if p.customIconSize.Some? { s.customIconSize := p.customIconSize; }
    if p.faIconCode.Some? { s.faIconCode := p.faIconCode; }
    if p.matchButtonColors.Some? { s.matchButtonColors := p.matchButtonColors; }
    if p.menuStyles.Some? { s.menuStyles := p.menuStyles; }
    if p.savedCustomIcons.Some? { s.savedCustomIcons := p.savedCustomIcons; }
    return true;
  }

  // ---------------------------------------------------------------------
  // Initialisation

  /** `initializePlugin()`: without a send button nothing happens;
      otherwise the rocket button and a hidden, empty menu are put in place
      and the start-up settings are applied. `sendPrimary` is `None` when
      there is no send button. */
  method InitializePlugin(s: ExtensionSettings, st: SharedState, sendPrimary: Option<bool>)
    modifies s, st`mounted, st`menuDisplayed, st`ariaExpanded, st`rocketActive
    modifies st`chatItems, st`globalItems
    modifies st`bodyClasses, st`rocketDisplay, st`rocketIcon, st`rocketClasses
    ensures sendPrimary.None? ==> s.Value() == old(s.Value()) && unchanged(st)
    ensures sendPrimary.Some? ==>
      && st.mounted && !st.menuDisplayed && !st.ariaExpanded && !st.rocketActive
      && st.chatItems == [] && st.globalItems == []
      && s.Value() == InitialDefaults(old(s.Value()))
      && st.bodyClasses == Panel.BodyClasses(old(st.bodyClasses), s.enabled.value)
      && st.rocketDisplay == Panel.RocketDisplay(s.enabled.value)
      && st.rocketIcon == Panel.IconDisplay(s.Value())
      && st.rocketClasses == Panel.RocketClasses(old(st.rocketClasses), Panel.UsesPrimary(s.Value(), sendPrimary))
    ensures sendPrimary.Some? && !st.menuVisible ==> st.Synced()
  {
    if sendPrimary.None? {
      return;
    }
    MountRocketAndMenu(st);
    LoadAndApplyInitialSettings(s, st, sendPrimary);
  }

  /** The injected rocket button and the new menu element: the button is
      mounted, the menu is hidden and its two containers are empty. */
  method MountRocketAndMenu(st: SharedState)
    modifies st`mounted, st`menuDisplayed, st`ariaExpanded, st`rocketActive, st`chatItems, st`globalItems
    ensures st.mounted && !st.menuDisplayed && !st.ariaExpanded && !st.rocketActive
    ensures st.chatItems == [] && st.globalItems == []
  {
    st.mounted := true;
    st.menuDisplayed, st.ariaExpanded, st.rocketActive := false, false, false;
    st.chatItems, st.globalItems := [], [];
  }

  /** The first run of `performInitialization()`: `initializePlugin()`,
      then `loadAndApplySettings()`. */
  method InitializeAndLoad(s: ExtensionSettings, panel: Panel.SettingsPanel, st: SharedState,
                           sendPrimary: Option<bool>)
    modifies s, panel`controls, panel`customShown, panel`faShown, panel`options
    modifies st`mounted, st`menuDisplayed, st`ariaExpanded, st`rocketActive
    modifies st`chatItems, st`globalItems
    modifies st`bodyClasses, st`rocketDisplay, st`rocketIcon, st`rocketClasses
    ensures s.Value() == Panel.WithDefaults(if sendPrimary.Some? then InitialDefaults(old(s.Value()))
                                         else old(s.Value()))
    ensures st.mounted <==> old(st.mounted) || sendPrimary.Some?
    ensures
      && panel.controls == (if panel.present then Panel.ShownControls(s.Value()) else old(panel.controls))
      && panel.customShown == (if panel.present then s.iconType == Some(IconCustom) else old(panel.customShown))
      && panel.faShown == (if panel.present then s.iconType == Some(IconFontAwesome) else old(panel.faShown))
      && panel.options == (if panel.present && s.savedCustomIcons.Some?
           then Panel.DefaultOption(old(panel.options)) + Panel.IconOptions(s.savedCustomIcons.value)
           else old(panel.options))
    ensures
      && st.rocketIcon == (if st.mounted then Panel.IconDisplay(s.Value()) else old(st.rocketIcon))
      && st.rocketClasses == (if st.mounted
           then Panel.RocketClasses(old(st.rocketClasses), Panel.UsesPrimary(s.Value(), sendPrimary))
           else old(st.rocketClasses))
    ensures sendPrimary.Some? ==> st.rocketDisplay == Panel.RocketDisplay(s.enabled.value)
    ensures sendPrimary.None? ==>
      st.rocketDisplay == (if st.mounted && s.enabled == Some(false) then "none" else old(st.rocketDisplay))
    ensures sendPrimary.Some? ==>
      && st.bodyClasses == Panel.BodyClasses(old(st.bodyClasses), s.enabled.value)
      && !st.menuDisplayed && !st.ariaExpanded && !st.rocketActive
      && st.chatItems == [] && st.globalItems == []
    ensures sendPrimary.None? ==>
      && st.bodyClasses == old(st.bodyClasses)
      && st.menuDisplayed == old(st.menuDisplayed) && st.ariaExpanded == old(st.ariaExpanded)
      && st.rocketActive == old(st.rocketActive)
      && st.chatItems == old(st.chatItems) && st.globalItems == old(st.globalItems)
  {
    InitializePlugin(s, st, sendPrimary);
    Panel.LoadAndApplySettings(s, panel, st, sendPrimary);
    if st.mounted && sendPrimary.Some? {
      Panel.RocketClassesTwice(old(st.rocketClasses), Panel.UsesPrimary(old(s.Value()), sendPrimary),
                               Panel.UsesPrimary(s.Value(), sendPrimary));
    }
  }

  /** The module-level `pluginInitialized` flag, with a count of the
      initialisations that ran. */
  class Plugin {
    var initialized: bool
    ghost var runs: nat

    /** Initialisation has run at most once, and the flag says whether it
        has. */
    ghost predicate Valid()
      reads this
    {
      runs <= 1 && (initialized <==> runs == 1)
    }

    constructor ()
      ensures Valid() && !initialized && runs == 0
    {
      initialized := false;
      runs := 0;
    }

    /** `performInitialization()`: a second call does nothing; the first
        initialises the plugin (body class, hidden and empty menu), loads the
        settings into the panel (controls, input groups and icon dropdown),
        redraws the rocket button and sets the flag, even when the plugin
        could not be mounted. */
    method PerformInitialization(s: ExtensionSettings, panel: Panel.SettingsPanel, st: SharedState,
                                 sendPrimary: Option<bool>)
      requires Valid()
      modifies this, s, panel`controls, panel`customShown, panel`faShown, panel`options
      modifies st`mounted, st`menuDisplayed, st`ariaExpanded, st`rocketActive
      modifies st`chatItems, st`globalItems
      modifies st`bodyClasses, st`rocketDisplay, st`rocketIcon, st`rocketClasses
      ensures Valid() && initialized && runs == 1
      ensures old(initialized) ==> unchanged(s) && unchanged(panel) && unchanged(st)
      ensures !old(initialized) ==>
        s.Value() == Panel.WithDefaults(if sendPrimary.Some? then InitialDefaults(old(s.Value()))
                                           else old(s.Value()))
      ensures !old(initialized) ==> (st.mounted <==> old(st.mounted) || sendPrimary.Some?)
      ensures !old(initialized) ==>
        && panel.controls == (if panel.present then Panel.ShownControls(s.Value()) else old(panel.controls))
        && panel.customShown == (if panel.present then s.iconType == Some(IconCustom) else old(panel.customShown))
        && panel.faShown == (if panel.present then s.iconType == Some(IconFontAwesome) else old(panel.faShown))
        && panel.options == (if panel.present && s.savedCustomIcons.Some?
             then Panel.DefaultOption(old(panel.options)) + Panel.IconOptions(s.savedCustomIcons.value)
             else old(panel.options))
      ensures !old(initialized) ==>
        && st.rocketIcon == (if st.mounted then Panel.IconDisplay(s.Value()) else old(st.rocketIcon))
        && st.rocketClasses == (if st.mounted
             then Panel.RocketClasses(old(st.rocketClasses), Panel.UsesPrimary(s.Value(), sendPrimary))
             else old(st.rocketClasses))
      ensures !old(initialized) && sendPrimary.Some? ==> st.rocketDisplay == Panel.RocketDisplay(s.enabled.value)
      ensures !old(initialized) && sendPrimary.None? ==>
        st.rocketDisplay == (if st.mounted && s.enabled == Some(false) then "none" else old(st.rocketDisplay))
      ensures !old(initialized) && sendPrimary.Some? ==>
        && st.bodyClasses == Panel.BodyClasses(old(st.bodyClasses), s.enabled.value)
        && !st.menuDisplayed && !st.ariaExpanded && !st.rocketActive
        && st.chatItems == [] && st.globalItems == []
      ensures !old(initialized) && sendPrimary.None? ==>
        && st.bodyClasses == old(st.bodyClasses)
        && st.menuDisplayed == old(st.menuDisplayed) && st.ariaExpanded == old(st.ariaExpanded)
        && st.rocketActive == old(st.rocketActive)
        && st.chatItems == old(st.chatItems) && st.globalItems == old(st.globalItems)
    {
      if initialized {
        return;
      }
      InitializeAndLoad(s, panel, st, sendPrimary);
      initialized := true;
      runs := runs + 1;
    }
  }

  /** Two calls in a row initialise once: the second finds the flag set. */
  method InitializeTwice(p: Plugin, s: ExtensionSettings, panel: Panel.SettingsPanel, st: SharedState,
                         sendPrimary: Option<bool>)
    requires p.Valid() && !p.initialized
    modifies p, s, panel`controls, panel`customShown, panel`faShown, panel`options
    modifies st`mounted, st`menuDisplayed, st`ariaExpanded, st`rocketActive
    modifies st`chatItems, st`globalItems
    modifies st`bodyClasses, st`rocketDisplay, st`rocketIcon, st`rocketClasses
    ensures p.Valid() && p.runs == 1
  {
    p.PerformInitialization(s, panel, st, sendPrimary);
    p.PerformInitialization(s, panel, st, sendPrimary);
  }
}
