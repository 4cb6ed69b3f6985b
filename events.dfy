/** The extension's event handlers (events.js): the rocket button, clicks
    outside the menu and panels, clicks on a quick-reply button, and the
    style panel's apply and reset. */
module Events {
  import opened Options
  import opened Text
  import opened State
  import opened Api
  import opened Ui
  import opened Store
  import opened Colors
  import Settings

  // ---------------------------------------------------------------------
  // The rocket button

  /** `handleRocketButtonClick()`: the visibility flag is flipped and the
      menu follows it, refilled when it opens (with the error placeholder
      when fetching fails); an unmounted menu is left alone. */
  method HandleRocketButtonClick(st: SharedState, host: Host, fails: bool)
    modifies st`menuVisible, st`effects, st`chatItems, st`globalItems
    modifies st`menuDisplayed, st`ariaExpanded, st`rocketActive
    ensures st.menuVisible == !old(st.menuVisible)
    ensures st.effects == old(st.effects) + [Visibility(st.menuVisible)]
    ensures st.mounted ==> st.Synced()
    ensures st.mounted && st.menuVisible && !fails ==>
      (st.chatItems == Rendered(ChatReplies(host), ChatEmptyText)
       && st.globalItems == Rendered(GlobalReplies(host), GlobalEmptyText))
    ensures st.mounted && st.menuVisible && fails ==>
      (st.chatItems == [Placeholder(LoadErrorText)] && st.globalItems == [Placeholder(LoadErrorText)])
    ensures !(st.mounted && st.menuVisible) ==>
      (st.chatItems == old(st.chatItems) && st.globalItems == old(st.globalItems))
    ensures !st.mounted ==>
      (st.menuDisplayed == old(st.menuDisplayed) && st.ariaExpanded == old(st.ariaExpanded)
       && st.rocketActive == old(st.rocketActive))
  {
    st.SetMenuVisible(!st.menuVisible);
    UpdateMenuVisibilityUI(st, host, fails);
  }

  // ---------------------------------------------------------------------
  // Clicks outside

  /** Where a document click landed, relative to the menu, the rocket button,
      the two panels and the two buttons that open the panels. */
  datatype ClickTarget = ClickTarget(
    inMenu: bool,
    onRocket: bool,
    inStylePanel: bool,
    onStyleButton: bool,
    inUsagePanel: bool,
    onUsageButton: bool)

  /** The menu closes when it is open and present and the click is neither in
      it nor on the rocket button. */
  predicate ClosesMenu(visible: bool, mounted: bool, t: ClickTarget) {
    visible && mounted && !t.inMenu && !t.onRocket
  }

  /** A panel closes when it is shown and the click is neither in it nor on
      its button. */
  predicate ClosesPanel(shown: bool, inPanel: bool, onButton: bool) {
    shown && !inPanel && !onButton
  }

  /** `handleOutsideClick(event)`: the menu and the two panels are each
      closed by their own test; no test depends on another's outcome. */
  method HandleOutsideClick(st: SharedState, t: ClickTarget, host: Host)
    modifies st`menuVisible, st`effects, st`chatItems, st`globalItems
    modifies st`menuDisplayed, st`ariaExpanded, st`rocketActive
    modifies st`stylePanelShown, st`usagePanelShown
    ensures var closes := ClosesMenu(old(st.menuVisible), st.mounted, t);
      && st.menuVisible == (old(st.menuVisible) && !closes)
      && st.effects == old(st.effects) + (if closes then [Visibility(false)] else [])
      && (closes ==> st.Synced())
      && (!closes ==>
            st.menuDisplayed == old(st.menuDisplayed) && st.ariaExpanded == old(st.ariaExpanded)
            && st.rocketActive == old(st.rocketActive))
    ensures st.chatItems == old(st.chatItems) && st.globalItems == old(st.globalItems)
    ensures st.stylePanelShown ==
      (old(st.stylePanelShown) && !ClosesPanel(old(st.stylePanelShown), t.inStylePanel, t.onStyleButton))
    ensures st.usagePanelShown ==
      (old(st.usagePanelShown) && !ClosesPanel(old(st.usagePanelShown), t.inUsagePanel, t.onUsageButton))
  {
    if ClosesMenu(st.menuVisible, st.mounted, t) {
      st.SetMenuVisible(false);
      UpdateMenuVisibilityUI(st, host, false);
    }
    if ClosesPanel(st.stylePanelShown, t.inStylePanel, t.onStyleButton) {
      CloseMenuStylePanel(st);
    }
    if ClosesPanel(st.usagePanelShown, t.inUsagePanel, t.onUsageButton) {
      Settings.CloseUsagePanel(st);
    }
  }

  /** A click away from everything closes whatever of the three is open, all
      at once. */
  lemma ClickAwayClosesAll(visible: bool, mounted: bool, styleShown: bool, usageShown: bool)
    ensures var away := ClickTarget(false, false, false, false, false, false);
      && (ClosesMenu(visible, mounted, away) <==> visible && mounted)
      && (ClosesPanel(styleShown, away.inStylePanel, away.onStyleButton) <==> styleShown)
      && (ClosesPanel(usageShown, away.inUsagePanel, away.onUsageButton) <==> usageShown)
  {
  }

  // ---------------------------------------------------------------------
  // Clicks on a quick reply

  /** The call into the host that a button's attributes ask for: the
      quick-reply API for a standard button with a set name, the script
      event for a script button with an id, nothing otherwise. */
  function ItemTrigger(item: MenuItem, host: Host): (r: seq<Effect>)
    ensures |r| <= 1
    ensures r != [] && item.isStandard != "false" ==> r == [Execute(item.setName, item.labelText)]
    ensures r != [] && item.isStandard == "false" ==>
      item.scriptId.Some? && r == [Emit(ButtonEventName(item.scriptId.value, item.labelText))]
    ensures item.isStandard != "false" && item.setName == "" ==> r == []
    ensures item.isStandard != "false" && item.setName != "" ==>
      r == TriggerQuickReply(host.quickReplyApi, item.setName, item.labelText)
    ensures item.isStandard == "false" && (item.scriptId.None? || item.scriptId.value == "") ==> r == []
    ensures item.isStandard == "false" && item.scriptId.Some? && item.scriptId.value != "" ==>
      r == TriggerJsRunnerScript(host.context, item.scriptId.value, item.labelText)
  {
    if item.isStandard != "false" then
      if item.setName == "" then [] else TriggerQuickReply(host.quickReplyApi, item.setName, item.labelText)
    else
      match item.scriptId
      case Some(id) => if id != "" then TriggerJsRunnerScript(host.context, id, item.labelText) else []
      case None => []
  }

  /** What a click on a button records: the menu is closed first, then, for
      a button with a label, its trigger; so at most one call into the
      host, never before the close. */
  function ClickEffects(item: MenuItem, host: Host): (r: seq<Effect>)
    ensures 1 <= |r| <= 2 && r[0] == Visibility(false)
    ensures IsBlank(item.labelText) ==> r == [Visibility(false)]
    ensures !IsBlank(item.labelText) ==> r == [Visibility(false)] + ItemTrigger(item, host)
    ensures |r| == 2 ==> r[1].Execute? || r[1].Emit?
  {
    if IsBlank(item.labelText) then [Visibility(false)]
    else [Visibility(false)] + ItemTrigger(item, host)
  }

  /** `handleQuickReplyClick(event)` on a rendered button: the menu closes,
      then the button's trigger runs unless its label is blank. */
  method HandleQuickReplyClick(st: SharedState, item: MenuItem, host: Host)
    modifies st`menuVisible, st`effects, st`chatItems, st`globalItems
    modifies st`menuDisplayed, st`ariaExpanded, st`rocketActive
    ensures !st.menuVisible
    ensures st.effects == old(st.effects) + ClickEffects(item, host)
    ensures st.mounted ==> st.Synced()
    ensures st.chatItems == old(st.chatItems) && st.globalItems == old(st.globalItems)
  {
    var labelText := item.labelText;
    var isStandard := item.isStandard != "false";
    if IsBlank(labelText) {
      st.SetMenuVisible(false);
      UpdateMenuVisibilityUI(st, host, false);
      return;
    }
    st.SetMenuVisible(false);
    UpdateMenuVisibilityUI(st, host, false);
    if isStandard {
      if item.setName == "" {
        return;
      }
      st.effects := st.effects + TriggerQuickReply(host.quickReplyApi, item.setName, labelText);
    } else {
      if item.scriptId.None? || item.scriptId.value == "" {
        return;
      }
      st.effects := st.effects + TriggerJsRunnerScript(host.context, item.scriptId.value, labelText);
    }
  }

  /** A label that neither starts nor ends with white space and is not
      empty is not blank. */
  lemma TrimmedLabelNotBlank(s: string)
    requires s != "" && Trimmed(s)
    ensures !IsBlank(s)
  {
    assert !IsSpace(s[0]);
  }

  /** Clicking the button rendered for a fetched reply runs that reply: the
      quick-reply API with its set and label for a standard one, the
      script event with its id and label for a script one with an id, and
      nothing beyond closing the menu for a script one without. */
  lemma ClickRunsReply(host: Host, x: Reply)
    requires x in ChatReplies(host) || x in GlobalReplies(host)
    ensures var e := ClickEffects(CreateQuickReplyItem(x), host);
      && (x.isStandard ==>
            e == [Visibility(false)] + TriggerQuickReply(host.quickReplyApi, x.setName, x.labelText))
      && (!x.isStandard && x.scriptId.Some? && x.scriptId.value != "" ==>
            e == [Visibility(false)] + TriggerJsRunnerScript(host.context, x.scriptId.value, x.labelText))
      && (!x.isStandard && !(x.scriptId.Some? && x.scriptId.value != "") ==> e == [Visibility(false)])
  {
    ChatEntryOrigin(host);
    GlobalMembers(host);
    assert StandardShape(x) || ScriptShape(x);
    ItemAttributes(x);
    TrimOfTrimmed(x.labelText);
    TrimmedLabelNotBlank(x.labelText);
  }

  // ---------------------------------------------------------------------
  // The style panel

  /** `closeMenuStylePanel()`: the style panel is hidden. */
  method CloseMenuStylePanel(st: SharedState)
    modifies st`stylePanelShown
    ensures !st.stylePanelShown
  {
    st.stylePanelShown := false;
  }

  /** A colour picker and its text box; `None` for a missing element. */
  datatype ColorControl = ColorControl(text: Option<string>, picker: Option<string>)

  /** The style panel's controls. The two opacities are given as the text
      `hexToRgba` prints for them. */
  datatype StyleControls = StyleControls(
    itemBg: ColorControl,
    itemAlpha: string,
    itemText: ColorControl,
    title: ColorControl,
    titleBorder: ColorControl,
    emptyText: ColorControl,
    menuBg: ColorControl,
    menuAlpha: string,
    menuBorder: ColorControl)

  /** The colour a control gives, with its default. */
  function ControlColor(c: ColorControl, default: string): string {
    GetColorValue(c.text, c.picker, default)
  }

  /** The style names `applyMenuStyles` writes. */
  const StyleKeys: set<string> := {"itemBgColor", "itemTextColor", "titleColor", "titleBorderColor",
                                   "emptyTextColor", "menuBgColor", "menuBorderColor"}

  /** The menu styles after `applyMenuStyles`: the stored styles (or the
      defaults when there are none) with the seven colours taken from the
      controls and the obsolete `followTheme` key removed. */
  function AppliedStyles(styles: Option<map<string, string>>, c: StyleControls): (r: map<string, string>)
    ensures r.Keys == (styles.GetOr(Constants.DefaultMenuStyles).Keys - {"followTheme"}) + StyleKeys
    ensures forall k :: k in styles.GetOr(Constants.DefaultMenuStyles) && k !in StyleKeys && k != "followTheme" ==>
      k in r && r[k] == styles.GetOr(Constants.DefaultMenuStyles)[k]
  {
    (styles.GetOr(Constants.DefaultMenuStyles) - {"followTheme"}) + ChosenColors(c)
  }

  /** The seven colours read from the controls, by style name. */
  function ChosenColors(c: StyleControls): (r: map<string, string>)
    ensures r.Keys == StyleKeys
  {
    map["itemBgColor" := HexToRgba(ControlColor(c.itemBg, FallbackHex), c.itemAlpha),
        "itemTextColor" := ControlColor(c.itemText, "#ffffff"),
        "titleColor" := ControlColor(c.title, "#cccccc"),
        "titleBorderColor" := ControlColor(c.titleBorder, "#444444"),
        "emptyTextColor" := ControlColor(c.emptyText, "#666666"),
        "menuBgColor" := HexToRgba(ControlColor(c.menuBg, "#000000"), c.menuAlpha),
        "menuBorderColor" := ControlColor(c.menuBorder, "#555555")]
  }

  /** An opacity as printed: a non-empty run of digits and dots. */
  predicate PrintedAlpha(alpha: string) {
    |alpha| > 0 && forall j :: 0 <= j < |alpha| ==> InClass(alpha[j], DigitsOrDots)
  }

  /** The two defaults `applyMenuStyles` falls back to are colours. */
  lemma BackgroundDefaultsAreColors()
    ensures IsHexColor(FallbackHex) && IsHexColor("#000000")
  {
    assert FallbackHex == "#3c3c3c";
  }

  /** A colour control's colour, printed with a printed opacity, reads back
      as that colour in upper case. */
  lemma ControlRoundTrip(ctl: ColorControl, default: string, alpha: string)
    requires PrintedAlpha(alpha) && IsHexColor(default)
    requires ctl.picker.None? || IsHexColor(ctl.picker.value)
    ensures RgbaToHex(HexToRgba(ControlColor(ctl, default), alpha)) == Upper(ControlColor(ctl, default))
  {
    GetColorValueValid(ctl.text, ctl.picker, default);
    HexRoundTrip(ControlColor(ctl, default), alpha);
  }

  /** The two backgrounds `applyMenuStyles` stores. */
  lemma AppliedBackgrounds(styles: Option<map<string, string>>, c: StyleControls)
    ensures AppliedStyles(styles, c)["itemBgColor"] == HexToRgba(ControlColor(c.itemBg, FallbackHex), c.itemAlpha)
    ensures AppliedStyles(styles, c)["menuBgColor"] == HexToRgba(ControlColor(c.menuBg, "#000000"), c.menuAlpha)
  {
  }

  /** Reopening the panel after applying shows the chosen background colours
      again: the panel reads each stored `rgba()` back to the colour it was
      printed from, in upper case. */
  lemma AppliedBackgroundsReadBack(styles: Option<map<string, string>>, c: StyleControls)
    requires PrintedAlpha(c.itemAlpha) && PrintedAlpha(c.menuAlpha)
    requires c.menuBg.picker.None? || IsHexColor(c.menuBg.picker.value)
    requires c.itemBg.picker.None? || IsHexColor(c.itemBg.picker.value)
    ensures var r := AppliedStyles(styles, c);
      && RgbaToHex(r["itemBgColor"]) == Upper(ControlColor(c.itemBg, FallbackHex))
      && RgbaToHex(r["menuBgColor"]) == Upper(ControlColor(c.menuBg, "#000000"))
  {
    var r := AppliedStyles(styles, c);
    var item := HexToRgba(ControlColor(c.itemBg, FallbackHex), c.itemAlpha);
    var menu := HexToRgba(ControlColor(c.menuBg, "#000000"), c.menuAlpha);
    AppliedBackgrounds(styles, c);
    assert r["itemBgColor"] == item && r["menuBgColor"] == menu;
    BackgroundDefaultsAreColors();
    ControlRoundTrip(c.itemBg, FallbackHex, c.itemAlpha);
    ControlRoundTrip(c.menuBg, "#000000", c.menuAlpha);
  }

  /** `applyMenuStyles()`: the settings' menu styles become `AppliedStyles`
      of the controls, and the style panel closes. */
  method ApplyMenuStyles(s: ExtensionSettings, c: StyleControls, st: SharedState)
    modifies s`menuStyles, st`stylePanelShown
    ensures s.menuStyles == Some(AppliedStyles(old(s.menuStyles), c))
    ensures !st.stylePanelShown
  {
    if s.menuStyles.None? {
      s.menuStyles := Some(Constants.DefaultMenuStyles);
    }
    s.menuStyles := Some(AppliedStyles(s.menuStyles, c));
    CloseMenuStylePanel(st);
  }

  /** `resetMenuStyles()`: the settings' menu styles become a copy of the
      defaults. */
  method ResetMenuStyles(s: ExtensionSettings)
    modifies s`menuStyles
    ensures s.menuStyles == Some(Constants.DefaultMenuStyles)
  {
    s.menuStyles := Some(Constants.DefaultMenuStyles);
  }
}
