# Quick-reply menu extension, modelled in Dafny

This project models the core of a chat-front-end extension that adds a
"rocket" button beside the send button. Clicking the button opens a menu of
quick replies:
- the chat's standard quick replies and the script buttons of the
  JS-Slash-Runner extension, with duplicate labels dropped;
- the global standard quick replies whose labels the chat list does not
  already use.

The extension also has a settings panel. It chooses the rocket's icon (a
built-in glyph, Font Awesome markup, or a custom image, SVG or base64 blob),
keeps a list of saved custom icons, and offers a style panel for the menu's
colours. Settings are saved to the host and to a browser-storage backup.

The model has one module per source file:
- `Api` (api.js): collecting and de-duplicating replies, and the two
  triggers;
- `Ui` (ui.js): building buttons, rendering the two lists, syncing the
  menu with its visibility flag;
- `Colors` and `Events` (events.js): the colour helpers, the click
  handlers, and applying or resetting the menu styles;
- `Settings` (settings.js): icon display, the panel's handlers, save,
  load, and saved icons;
- `Index` (index.js): the start-up settings, the storage backup, and the
  once-only initialisation.

Helper modules:
- `Options`: the option type;
- `Text`: the JavaScript string operations used;
- `Constants`: the constants of constants.js;
- `State`: the shared UI state, a `SharedState` class whose fields the
  handlers update;
- `Store`: the settings object, an `ExtensionSettings` class, and the
  storage slot.

Calls into the host are recorded on the `effects` trace of `SharedState`:
- `Visibility(v)` for a change to the menu's visibility flag;
- `Execute(set, label)` for the quick-reply API call;
- `Emit(name)` for a script-button event.

The code that walks lists is modelled imperatively. This covers
`fetchQuickReplies` and its `processScripts`, rendering, and filling the
saved-icon dropdown. Each such method is written with loops and proved
equal to a recursive specification function. The properties are proved
about that function.

## Model

| member | source | states |
|---|---|---|
| Api.FetchQuickReplies | api.js:20-198 | the chat and global lists the loops build are exactly `ChatReplies` and `GlobalReplies` of the host |
| Api.ProcessScripts | api.js:116-152 | a disabled script type adds nothing; otherwise each shown button of each enabled script is added unless its trimmed label is already taken, and the label set tracks the list |
| Api.AddChatSets | api.js:39-63 | the chat set-list loop keeps the first reply for each label and keeps the label set in step |
| Api.AddGlobalSets | api.js:66-90 | the global loop appends exactly the shown entries whose label is not among the chat labels |
| Api.ChatIsFirstOfEachLabel | api.js:24-177 | the chat list is the first candidate of each label, in order, standard replies before script buttons, and no label appears twice |
| Api.StandardChatFirst | api.js:39-63 | the de-duplicated standard chat replies form a prefix of the chat list |
| Api.AbsorbUnique | api.js:47-55 | adding candidates through the label set never creates a duplicate label |
| Api.AbsorbIsFirstOccurrences | api.js:45-56 | keeping a candidate only when its label is new is the same as keeping the first occurrence of each label |
| Api.GlobalMembers | api.js:66-87 | a reply is global iff it is a shown global candidate whose label no standard chat reply uses; every global reply is a standard one |
| Api.ChatEntryOrigin | api.js:45-56 | every chat reply is either a standard candidate of standard shape or a script candidate with a script id |
| Api.StandardReplyShape | api.js:45-54 | a shown quick reply becomes a standard reply with its trimmed label and a non-empty set name |
| Api.ScriptReplyShape | api.js:131-142 | a shown script button becomes a non-standard reply carrying the script's id and the trimmed button name |
| Api.GroupShape | api.js:116-128 | script-group candidates exist only when the type is enabled, come from enabled scripts and carry their ids |
| Api.UnseenMembers | api.js:75 | a candidate survives the label filter iff its label is not among the seen ones |
| Api.UnseenKeepsAll | api.js:66-90 | the global label filter drops nothing exactly when no candidate's label is seen, so global entries that repeat a label among themselves all stay |
| Api.ScriptsIgnoreGlobal | api.js:130-142 | the global collection does not depend on the scripts, and a script button first of its label among the chat candidates is in the chat collection whatever the global entries are |
| Api.TriggerQuickReply | api.js:207-227 | the API is called once with the set and label iff the API exists and is not explicitly disabled, else nothing happens |
| Api.ButtonEventName | api.js:254 | the event name is the script id, `_`, and the label |
| Api.EventNameSplits | api.js:254 | for an id without `_`, the first `_` of the event name separates the id from the label |
| Api.TriggerJsRunnerScript | api.js:234-260 | the event is emitted once iff the context can emit and the runner settings exist and are not disabled |
| Ui.Shorten | ui.js:113 | a tooltip message longer than 70 is cut to its first 70 characters plus `...`; a shorter one is kept |
| Ui.ItemSetName | ui.js:103 | the button's set name is never empty |
| Ui.ItemAttributes | ui.js:90-122 | the button carries the trimmed label, `isStandard` is `false` only for a non-standard reply, a script id only for a non-standard reply with one, and the title is exactly set name, ` > `, label, `:` and a newline followed by the tooltip message cut to 70 characters plus `...`, where the message is the reply's own or, when empty, `(标准回复)` for a standard reply and `(JS脚本)` otherwise |
| Ui.NonBlankMembers | ui.js:142-147 | rendering skips exactly the replies with a blank label |
| Ui.RenderedOfLabelled | ui.js:160-173 | a non-empty list of labelled replies renders one button per reply, in order |
| Ui.PlaceholderIffEmpty | ui.js:160-173 | a list shows the placeholder iff it is empty |
| Ui.AllBlankRendersEmpty | ui.js:142-166 | a non-empty list of blank labels renders nothing, not even the placeholder |
| Ui.RenderList | ui.js:160-173 | the loop renders a list exactly as `Rendered` specifies |
| Ui.RenderQuickReplies | ui.js:130-174 | with the containers present both lists are rendered with their own empty texts; without them nothing changes |
| Ui.Refill | ui.js:201-222 | opening renders the fetched lists, or both containers show the error placeholder `加载回复列表失败` when fetching fails |
| Ui.UpdateMenuVisibilityUI | ui.js:192-239 | display, `aria-expanded` and `active` follow the visibility flag, and the lists are refilled only when opening |
| Colors.RgbaToHex | events.js:362-384 | the result is always an upper-case `#RRGGBB` colour |
| Colors.RgbaToHexOfMatch | events.js:367-383 | when the unanchored match finds an `rgb()`/`rgba()` anywhere in the text, the leftmost one's three channels clamped to 255 are returned as upper-case hex |
| Colors.RgbaToHexFallback | events.js:363-374 | empty text, and any text with no match that is not a hex colour, gives `#000000` |
| Colors.HexToRgba | events.js:343-357 | text that is not `#` and six hex digits is printed as the fallback grey, channels 60, 60, 60 |
| Colors.HexFallbackReadsBack | events.js:345-348 | any invalid colour prints as `#3c3c3c` does, and reads back as `#3C3C3C` |
| Colors.HexRoundTrip | events.js:343-384 | printing a valid colour with an opacity and reading it back gives the colour in upper case |
| Colors.HexPassesThrough | events.js:368-372 | a valid `#RRGGBB` colour reads back as itself in upper case |
| Colors.GetColorValue | events.js:226-239 | a valid colour in the text box wins; otherwise a non-empty picker value; otherwise the default, so an invalid text value never wins |
| Colors.GetColorValueValid | events.js:226-239 | with a valid picker and a valid default the chosen colour is valid |
| Colors.AgreeingControlGivesPicker | events.js:226-239 | when the text box shows the picker's colour in upper case, the chosen colour is that colour |
| Colors.NormalizeColorText | events.js:425-427 | trimmed text is accepted exactly when it, or it with a `#` in front, is a valid `#RRGGBB` colour, and the result is that text or that text with the `#` |
| Colors.NormalizeAcceptsColors | events.js:425-427 | a colour is accepted with or without its `#` |
| Colors.NormalizeIdempotent | events.js:425-427 | normalising an accepted colour again changes nothing |
| Colors.ColorSync.OnPickerInput | events.js:419-421 | the text box shows the picker's colour in upper case |
| Colors.ColorSync.OnTextInput | events.js:424-432 | accepted text moves the picker and both agree; other text leaves the picker alone |
| Colors.ColorSync.OnTextChange | events.js:434-444 | accepted text moves the picker; otherwise the text box reverts to the picker's colour; both agree afterwards |
| Events.HandleRocketButtonClick | events.js:16-19 | the visibility flag is negated, the change is recorded, and the menu follows it: refilled with the fetched lists when it opens, or with the load-error placeholder in both lists when fetching fails; an unmounted menu is left alone |
| Events.HandleOutsideClick | events.js:26-61 | menu, style panel and usage panel are each closed by their own test, independently of each other |
| Events.ClickAwayClosesAll | events.js:34-60 | a click away from everything closes whichever of the three is open |
| Events.ItemTrigger | events.js:87-115 | a standard button calls the quick-reply API exactly when its set name is non-empty, a script button emits its event exactly when its script id is non-empty, and nothing else triggers |
| Events.ClickEffects | events.js:71-117 | a click first closes the menu; a blank label does only that; otherwise the button's own trigger follows |
| Events.HandleQuickReplyClick | events.js:71-117 | the menu ends closed and in sync, and the trace grows by exactly `ClickEffects` |
| Events.ClickRunsReply | events.js:71-117 | clicking the button rendered for a fetched reply closes the menu, then triggers that reply with its own set, label and id; a script reply without an id only closes the menu |
| Events.CloseMenuStylePanel | events.js:198-203 | the style panel is hidden |
| Events.AppliedStyles | events.js:214-258 | the styles keep every other key, drop `followTheme`, and hold the seven colours |
| Events.AppliedBackgrounds | events.js:242-253 | the two backgrounds are the chosen colours printed with their opacities |
| Events.ControlRoundTrip | events.js:226-253 | a control's colour, printed with an opacity, reads back as that colour in upper case |
| Events.AppliedBackgroundsReadBack | events.js:242-253 | after applying, both stored backgrounds read back as the colours chosen in the panel |
| Events.ApplyMenuStyles | events.js:208-264 | the settings' styles become `AppliedStyles` of the controls, starting from the defaults when missing, and the panel closes |
| Events.ResetMenuStyles | events.js:280-287 | the settings' styles become the defaults |
| Settings.EffectiveSize | settings.js:18 | the size in use is never zero: the stored one when truthy, else 20 |
| Settings.Base64Url | settings.js:52-58 | a blob without `data:` gets a `data:` prefix with the guessed MIME type followed by the text after `base64,` |
| Settings.Base64Payload | settings.js:57 | the payload kept is a piece of the original text with no `base64,` in it |
| Settings.ClassifyCustomIcon | settings.js:35-66 | a custom icon is an SVG, an image URL at the chosen size, or `?` |
| Settings.ClassifyCases | settings.js:35-66 | SVG markup is tested first, then direct image URLs, then base64 blobs, and only what matches none shows `?` |
| Settings.ClassifyImageStable | settings.js:46-59 | classifying the URL an image resolved to gives the same image |
| Settings.DataUrlIsDirect | settings.js:46 | a `data:` URL is a direct image and not SVG markup |
| Settings.IconDisplayCases | settings.js:35-82 | the custom branch needs a custom type and URL, the markup branch a Font Awesome type and code, and the glyph branch falls back to the rocket |
| Settings.RocketClasses | settings.js:25-32 | the rocket keeps `interactable` and carries exactly one of the primary and secondary classes; other classes stay |
| Settings.UpdateIconDisplay | settings.js:11-99 | without the rocket nothing changes; otherwise it shows `IconDisplay` with the primary class iff colours match and the send button is primary |
| Settings.BodyClasses | settings.js:444-445 | the body carries exactly one of `qra-enabled` and `qra-disabled`; other classes stay |
| Settings.CloseUsagePanel | settings.js:428-433 | the usage panel is hidden |
| Settings.TypedUrl | settings.js:469-476 | a URL longer than 1000 characters is stashed and the box shows the placeholder; a shorter one is shown as typed |
| Settings.UrlStashRoundTrip | settings.js:469-476 | saving a typed URL reads back exactly the URL that was typed, stashed or not |
| Settings.SizeFromText | settings.js:482 | the size read is never zero: a parsed non-zero integer is the size, and text that parses to nothing or to zero gives 20 |
| Settings.SizeRoundTrip | settings.js:729 | a non-zero size shown in the box reads back as itself |
| Settings.ReadControls | settings.js:511-525 | saving reads the enabled flag from the dropdown text, the URL preferring the stash, and a non-zero size, and keeps the styles and saved icons |
| Settings.WithDefaults | settings.js:700-705 | after the defaults every panel key holds a usable value, and the styles and saved icons are untouched |
| Settings.DefaultsPerKey | settings.js:700-705 | the flags are true unless exactly false, and each other key keeps its value iff truthy, else takes its default |
| Settings.FlagKept | settings.js:700-709 | a present flag survives both its defaulting and its round trip through the dropdown text |
| Settings.CompleteUnchanged | settings.js:700-705 | settings that already hold usable values are left unchanged |
| Settings.DefaultsIdempotent | settings.js:700-705 | applying the defaults twice equals applying them once |
| Settings.DefaultsKeepDisplay | settings.js:16-20 | the defaults do not change what the rocket shows |
| Settings.LoadThenSaveKeepsSettings | settings.js:700-735 | saving right after loading into the panel gives back the same settings, a stashed URL included |
| Settings.ChangeAgreesWithSave | settings.js:436-489 | an edit handled by the change handler gives the same settings as saving the edited panel |
| Settings.ChangedSizeNonZero | settings.js:482 | a size edit always stores a non-zero size |
| Settings.HandleSettingsChange | settings.js:436-496 | each control updates its own key, the enabled flag also the body class and the rocket's display, the icon type also the groups, and the icon is redrawn |
| Settings.SaveSettings | settings.js:499-552 | settings are read from the panel, the backup is written when storage is writable, and the result is true iff the host save or the backup succeeded |
| Settings.IconOptions | settings.js:844-849 | one option per saved icon, in order, with the icon's id and name |
| Settings.DefaultOption | settings.js:839-841 | only the first option, the default one, survives the clearing |
| Settings.UpdateCustomIconSelect | settings.js:832-850 | without the dropdown or the list nothing changes; otherwise the default option is followed by one option per saved icon |
| Settings.FindIcon | settings.js:863 | the index found is the first with the id, and none means no icon has it |
| Settings.SelectFindsIcon | settings.js:844-863 | choosing an option finds the icon it was built from, when ids are unique |
| Settings.DefaultIconName | settings.js:789-799 | the default name is the first min(20, length) characters of the last `/` piece, or `图标_` and the time when that piece is empty |
| Settings.AddedIconsShape | settings.js:772-815 | a blank URL changes nothing; otherwise the list exists, and unless the prompt is cancelled exactly one icon is appended, with the URL, the parsed size, the answer or the default name, and a time-based id |
| Settings.SavedIconGetsPlaceholder | settings.js:769 | as written, an icon saved from a stashed URL stores the placeholder text |
| Settings.SaveCustomIcon | settings.js:767-818 | only the saved icon list changes, as `AddedIcons` says, with the URL read as saving reads it (the stash first, the corrected reading of settings.js:769), and the dropdown is refilled only when an icon is appended |
| Settings.SelectedIcon | settings.js:856-864 | an empty id, a missing list or an unknown id selects nothing; otherwise the icon with that id |
| Settings.StaleStashRevertsSelection | settings.js:866-874 | as written, choosing a saved icon while a long URL is stashed, then saving, brings the stashed URL back |
| Settings.SelectThenSaveKeepsIcon | settings.js:866-874 | with the stash cleared, saving after choosing a saved icon keeps its URL, the custom type and a valid size |
| Settings.HandleCustomIconSelect | settings.js:855-880 | nothing happens unless a known icon is chosen; then its URL, size and the custom type go to the settings, the panel shows them with the URL field updated as a typed URL (the corrected update of settings.js:866-874, which also replaces an earlier stash), the icon and the rocket's classes are redrawn, and the dropdown resets |
| Settings.LoadAndApplySettings | settings.js:695-762 | the settings get their defaults, the panel shows them, a disabled extension hides the rocket, the icon is redrawn and the dropdown refilled |
| Index.StartupSettings | index.js:17-28 | without a kept entry the settings start complete, with the default styles and no saved icons |
| Index.InitialDefaults | index.js:116-122 | after the start-up defaults every key is usable and the styles exist, a present style map being kept |
| Index.InitialDefaultsExtendPanel | index.js:116-122 | the start-up defaults agree with the panel's defaults and add only the default styles |
| Index.InitialDefaultsIdempotent | index.js:116-122 | applying the start-up defaults twice equals applying them once |
| Index.PanelDefaultsAfterStartup | index.js:171-172 | the panel's defaults change nothing after the start-up defaults |
| Index.InitialSettingsAreDefaulted | index.js:17-28 | the initial settings already hold every default |
| Index.LoadAndApplyInitialSettings | index.js:113-137 | settings get their defaults, the body carries exactly one enabled class, and the mounted rocket is shown as `flex` when enabled and `none` otherwise, and redrawn with its icon and classes |
| Index.MergeOverwritesOnlyPresent | index.js:153 | a key changes only when the stored object holds it, and then takes the stored value |
| Index.MergeIdempotent | index.js:153 | loading the same backup twice equals loading it once |
| Index.MergeNoKeys | index.js:153 | an object with no keys changes nothing |
| Index.SaveThenLoadRestores | index.js:147-161 | a backup holding every key restores exactly the settings saved, whatever the current ones |
| Index.LoadSettingsFromLocalStorage | index.js:147-161 | the result is true iff a backup exists and parses, and then its keys are copied over; otherwise nothing changes |
| Index.InitializePlugin | index.js:73-108 | without a send button nothing happens; otherwise a hidden, empty menu is mounted and the start-up settings are applied: body class, rocket display `flex` or `none`, icon and style classes |
| Index.Plugin.PerformInitialization | index.js:163-174 | a second call changes nothing; the first initialises (body class, hidden menu with empty lists, or nothing without a send button), loads the panel's controls, input groups and icon dropdown, redraws the rocket's icon, classes and display, and sets the flag, so initialisation runs at most once |
| Index.InitializeTwice | index.js:165-174 | two calls in a row initialise exactly once |

## Left out

- Floating point: opacities are the text `hexToRgba` prints. Their `parseFloat`, range check, 0.7 fallback and `getOpacityFromRgba` are not modelled.
- Colors.HexRoundTrip: holds for printed opacities made of digits and dots; the exponent forms a JavaScript number can print are not modelled.
- Asynchrony, `setTimeout` status messages, console logging and the `onReady`/host-event wiring that decides when initialisation runs are not modelled.
- HTML templates, `createSettingsHtml`, `createMenuElement`, `createMenuButton`, listener registration (`setupEventListeners`, `setupSettingsEventListeners`) and rocket injection are not modelled. Injection appears only as `sendPrimary`: `None` when there is no send button.
- `updateMenuStylesUI`, `loadMenuStylesIntoPanel`, `handleMenuStyleButtonClick`, and the positioning in `handleUsageButtonClick`: these are CSS and DOM writes.
- `handleFileUpload`: it reads a file through `FileReader`, which is I/O.
- `encodeURIComponent` of SVG markup: the model keeps the markup itself.
- Settings.UpdateIconDisplay: writes the icon as a value (`RocketIcon`), not as inline styles.
- Exceptions: a failing fetch is the `fails` parameter, and a failing host save is `hostSave`. `hostSave` is `None` when the global `context` is missing, which also stands for the source's reliance on an undeclared global. A failing backup write is `LocalStore.writable`.
- Host data: the quick-reply and script settings the host hands over are typed here. A label or button name that is not a string, or a set list that is not an array, cannot occur. With them goes the `catch` at api.js:93-95: a throw inside the standard-reply loops keeps the chat replies collected so far and skips the rest, global replies included.
- The clock: the two time reads of `saveCustomIcon` (name and id) are the parameters `nameTime` and `idTime`. `prompt` is the `answer` parameter, `None` when cancelled.
- The stored backup: unknown keys, a JSON value of the wrong type (for example the string `"false"`) and `null` values are not modelled. A blob that parses but is not an object is a `Blob` with no keys.
- Settings panel controls: they are either all present or all absent. `HandleCustomIconSelect` and `SaveCustomIcon` require them present, as the source dereferences them without a check.
- Select value semantics: a dropdown's value is taken as given, where a browser ignores a value that has no option. This covers the saved-icon dropdown's id and the icon-type dropdown: an icon type outside its six options is written at settings.js:712 but reads back as `""` at settings.js:512, so in the source Settings.LoadThenSaveKeepsSettings holds only for icon types among those options.
- Settings.SizeRoundTrip and Settings.LoadThenSaveKeepsSettings: sizes are unbounded integers, where JavaScript numbers are doubles. Above 2^53 the source's size is already rounded, `parseInt` rounds text with more than 15 or so significant digits, and from 10^21 on `String(n)` prints exponent form, of which `parseInt` reads only the leading digit. In the source the two round trips hold only for sizes whose magnitude is below 2^53.
- Strings: characters are code points, not UTF-16 units, and case changes cover ASCII only.
- Settings object always present: `applyMenuStyles` and `resetMenuStyles` return early when `extension_settings` has no entry for the extension. The model always has one, because index.js creates it at load.
- The rocket button that already exists when `injectRocketButton` runs: the model mounts a fresh button, with `aria-expanded` false and no `active` class.
- state.js is not part of this model: `SharedState` and `SetMenuVisible` stand for the shared state it exports.
- Settings.SaveCustomIcon: stores `SavedUrl` of the URL field (the stashed full URL when there is one), where settings.js:769 stores the field's shown value, which is the placeholder for a URL over 1000 characters. The as-written reading is `Settings.IconUrlAsWritten`; see Findings.
- Settings.HandleCustomIconSelect: puts the chosen URL into the field through `TypedUrl`, so a URL over 1000 characters is stashed behind the placeholder and an earlier stash is replaced, where settings.js:868 writes the full URL into the shown value and leaves the stash alone. The as-written update is `Settings.SelectedControlsAsWritten`; see Findings.
- `saveCustomIcon` creates an empty `savedCustomIcons` list before the name prompt, so a cancelled prompt still leaves the list created. The model follows the code here.

## Findings

| source | as written | input that shows it | evidently intended | confidence | as-written member | corrected member |
|---|---|---|---|---|---|---|
| settings.js:769 | `saveCustomIcon` reads the URL box's shown value, which is the placeholder once a URL longer than 1000 characters has been stashed | type a 1001-character data URL, then save it as a custom icon: the saved icon's URL is `[图片数据已保存，但不在输入框显示以提高性能]` | save the stashed full URL, as `saveSettings` does at settings.js:515-520 | not executed | Settings.IconUrlAsWritten | Settings.SavedUrl |
| settings.js:866-874 | `handleCustomIconSelect` sets the URL box's value but leaves an earlier stash in place | stash a 1001-character URL, choose a saved icon with a short URL, then save: `saveSettings` prefers the stash and the settings revert to the long URL | choosing an icon clears the stash, so saving keeps the chosen icon | not executed | Settings.SelectedControlsAsWritten | Settings.SelectedControls |

For the first row, `Settings.SavedIconGetsPlaceholder` shows the discrepancy. `Settings.UrlStashRoundTrip` proves the corrected reading, and `Settings.SaveCustomIcon` uses it. For the second row, `Settings.StaleStashRevertsSelection` shows the discrepancy. `Settings.SelectThenSaveKeepsIcon` proves the corrected update, and `Settings.HandleCustomIconSelect` uses it.
