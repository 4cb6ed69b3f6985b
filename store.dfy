/** The extension's settings object (`extension_settings["quick-reply-menu"]`)
    and the browser storage slot it is backed up to. A key the object does
    not hold is `None`; so is a custom icon size that parsed to `NaN`, which
    every reader treats like a missing size. */
module Store {
  import opened Options
  import opened Constants

  /** One entry of `savedCustomIcons`. `size` is `None` when the size field
      did not parse. */
  datatype SavedIcon = SavedIcon(id: string, name: string, url: string, size: Option<int>)

  /** The keys of the settings object. */
  datatype Settings = Settings(
    enabled: Option<bool>,
    iconType: Option<string>,
    customIconUrl: Option<string>,
    customIconSize: Option<int>,
    faIconCode: Option<string>,
    matchButtonColors: Option<bool>,
    menuStyles: Option<map<string, string>>,
    savedCustomIcons: Option<seq<SavedIcon>>)

  /** A string key is truthy when present and non-empty. */
  predicate TruthyText(o: Option<string>) {
    o.Some? && o.value != ""
  }

  /** A number key is truthy when present and non-zero. */
  predicate TruthySize(o: Option<int>) {
    o.Some? && o.value != 0
  }

  /** The object created when the host has none for the extension. */
  function InitialSettings(): Settings {
    Settings(Some(true), Some(IconRocket), Some(""), Some(DefaultCustomIconSize), Some(""),
             Some(true), Some(DefaultMenuStyles), Some([]))
  }

  /** The settings object, updated in place by the handlers. */
  class ExtensionSettings {
    var enabled: Option<bool>
    var iconType: Option<string>
    var customIconUrl: Option<string>
    var customIconSize: Option<int>
    var faIconCode: Option<string>
    var matchButtonColors: Option<bool>
    var menuStyles: Option<map<string, string>>
    var savedCustomIcons: Option<seq<SavedIcon>>

    /** The object's keys as a value. */
    function Value(): Settings
      reads this
    {
      Settings(enabled, iconType, customIconUrl, customIconSize, faIconCode,
               matchButtonColors, menuStyles, savedCustomIcons)
    }

    constructor (v: Settings)
      ensures Value() == v
    {
      enabled, iconType, customIconUrl, customIconSize := v.enabled, v.iconType, v.customIconUrl, v.customIconSize;
      faIconCode, matchButtonColors := v.faIconCode, v.matchButtonColors;
      menuStyles, savedCustomIcons := v.menuStyles, v.savedCustomIcons;
    }

    /** Writes every key at once. */
    method Assign(v: Settings)
      modifies this
      ensures Value() == v
    {
      enabled, iconType, customIconUrl, customIconSize := v.enabled, v.iconType, v.customIconUrl, v.customIconSize;
      faIconCode, matchButtonColors := v.faIconCode, v.matchButtonColors;
      menuStyles, savedCustomIcons := v.menuStyles, v.savedCustomIcons;
    }
  }

  /** What the `QRA_settings` storage key holds: text that is not JSON, or a
      serialised settings object. */
  datatype StoredBlob = Unparsable | Blob(settings: Settings)

  /** The browser's `localStorage`, reduced to the one key the extension
      uses. `writable` is false when writing throws (quota, privacy mode). */
  class LocalStore {
    var blob: Option<StoredBlob>
    var writable: bool

    constructor (blob: Option<StoredBlob>, writable: bool)
      ensures this.blob == blob && this.writable == writable
    {
      this.blob := blob;
      this.writable := writable;
    }
  }
}
