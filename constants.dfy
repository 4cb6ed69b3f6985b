/** The values of constants.js that the modelled logic uses. */
module Constants {

  const ExtensionName: string := "quick-reply-menu"

  // The icon types of the settings panel's dropdown.
  const IconRocket: string := "rocket"
  const IconComment: string := "comment"
  const IconStar: string := "star"
  const IconBolt: string := "bolt"
  const IconFontAwesome: string := "fontawesome"
  const IconCustom: string := "custom"

  /** Font Awesome class per preset icon type; the two user-supplied types
      map to the empty string. */
  const IconClassMap: map<string, string> := map[
    IconRocket := "fa-rocket",
    IconComment := "fa-palette",
    IconStar := "fa-star-and-crescent",
    IconBolt := "fa-star-of-david",
    IconCustom := "",
    IconFontAwesome := ""
  ]

  /** The default colours of the menu, keyed by the style names the settings
      object stores. */
  const DefaultMenuStyles: map<string, string> := map[
    "itemBgColor" := "rgba(60, 60, 60, 0.7)",
    "itemTextColor" := "#ffffff",
    "titleColor" := "#cccccc",
    "titleBorderColor" := "#444444",
    "emptyTextColor" := "#666666",
    "menuBgColor" := "rgba(0, 0, 0, 0.85)",
    "menuBorderColor" := "#555555"
  ]

  const DefaultCustomIconSize: int := 20
}
