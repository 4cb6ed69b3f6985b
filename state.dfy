/** The extension's process-wide shared state (`sharedState` and its setter
    `setMenuVisible`) together with the page elements the extension writes:
    the popup menu and its two item containers, the rocket button, the two
    auxiliary panels and the document body's classes. Calls into the host
    (running a quick reply, emitting a script event) are recorded, in order,
    in `effects`. */
module State {
  import opened Options

  /** One recorded step: a change of the menu-visibility flag, or a call into
      the host's two trigger entry points. */
  datatype Effect =
    | Visibility(visible: bool)
    | Execute(setName: string, labelText: string)
    | Emit(eventName: string)

  /** A quick-reply menu button as rendered: its `data-*` attributes and its
      tooltip; the button's text is its label. `scriptId` is `None` when the
      `data-script-id` attribute is not set. */
  datatype MenuItem = MenuItem(
    labelText: string,
    isStandard: string,
    setName: string,
    scriptId: Option<string>,
    title: string)

  /** A child of an item container: a menu button or an empty-state
      placeholder. */
  datatype Node = Item(item: MenuItem) | Placeholder(text: string)

  /** What the rocket button displays: a background image (SVG markup to be
      turned into a data URL, or a URL) at a pixel size, a text glyph, user
      Font Awesome markup, or a preset Font Awesome icon class. */
  datatype RocketIcon =
    | SvgImage(markup: string, size: int)
    | UrlImage(url: string, size: int)
    | Glyph(text: string)
    | FaMarkup(html: string)
    | FaIcon(iconClass: string)

  class SharedState {
    /** `sharedState.menuVisible`. */
    var menuVisible: bool
    /** The menu, the rocket button and the two item containers exist. */
    var mounted: bool
    /** `menu.style.display === 'block'`. */
    var menuDisplayed: bool
    /** The rocket button's `aria-expanded` is `'true'`. */
    var ariaExpanded: bool
    /** The rocket button carries the `active` class. */
    var rocketActive: bool
    var chatItems: seq<Node>
    var globalItems: seq<Node>
    /** The style and usage panels' `style.display === 'block'`. */
    var stylePanelShown: bool
    var usagePanelShown: bool
    /** The rocket button's `style.display`. */
    var rocketDisplay: string
    var rocketClasses: set<string>
    var rocketIcon: RocketIcon
    var bodyClasses: set<string>
    var effects: seq<Effect>

    /** The state before initialisation: nothing mounted, menu closed. */
    constructor ()
      ensures !menuVisible && !mounted && !menuDisplayed && !ariaExpanded && !rocketActive
      ensures chatItems == [] && globalItems == [] && effects == []
      ensures !stylePanelShown && !usagePanelShown
    {
      menuVisible, mounted := false, false;
      menuDisplayed, ariaExpanded, rocketActive := false, false, false;
      chatItems, globalItems := [], [];
      stylePanelShown, usagePanelShown := false, false;
      rocketDisplay, rocketClasses, rocketIcon := "", {}, FaIcon("fa-rocket");
      bodyClasses, effects := {}, [];
    }

    /** The menu's display, `aria-expanded` and `active` class agree with the
        visibility flag, once the menu exists. */
    predicate Synced()
      reads this
    {
      mounted ==> menuDisplayed == menuVisible && ariaExpanded == menuVisible && rocketActive == menuVisible
    }

    /** `setMenuVisible(v)`. */
    method SetMenuVisible(v: bool)
      modifies this`menuVisible, this`effects
      ensures menuVisible == v
      ensures effects == old(effects) + [Visibility(v)]
    {
      menuVisible := v;
      effects := effects + [Visibility(v)];
    }
  }
}
