/** api.js: collecting the menu's entries from the two host registries (Quick
    Reply v2's sets and JS-Slash-Runner's script buttons) and calling back
    into the host when an entry is chosen. */
module Api {
  import opened Options
  import opened Text
  import opened State

  // ---------------------------------------------------------------------
  // Quick Reply v2 (`window.quickReplyApi`)
  // ---------------------------------------------------------------------

  /** One entry of a reply set's `qrList`. An absent label or message is the
      empty string: the source only tests them for truthiness. */
  datatype QrEntry = QrEntry(labelText: string, message: string, isHidden: bool)

  /** A reply set; `qrList` is `None` when it is missing or not an array. */
  datatype QrSet = QrSet(name: string, qrList: Option<seq<QrEntry>>)

  /** An element of a `setList`. */
  datatype SetLink = SetLink(isVisible: bool, qrSet: Option<QrSet>)

  /** `quickReplyApi.settings`: `chatSets` is `chatConfig.setList` and
      `globalSets` is `config.setList`, each `None` when missing. */
  datatype QrSettings = QrSettings(
    isEnabled: Option<bool>,
    chatSets: Option<seq<SetLink>>,
    globalSets: Option<seq<SetLink>>)

  datatype QrApi = QrApi(settings: Option<QrSettings>)

  // ---------------------------------------------------------------------
  // JS-Slash-Runner (extension settings key "TavernHelper")
  // ---------------------------------------------------------------------

  datatype ScriptButton = ScriptButton(name: string, visible: bool)

  /** A script; `buttons` is `None` when missing or not an array. */
  datatype Script = Script(id: string, name: string, enabled: bool, buttons: Option<seq<ScriptButton>>)

  /** `TavernHelper.script`. */
  datatype ScriptConfig = ScriptConfig(
    globalScriptEnabled: Option<bool>,
    scriptsRepository: Option<seq<Script>>,
    charactersWithScriptsEnabled: Option<bool>,
    charactersWithScripts: Option<seq<string>>)

  datatype JsRunnerSettings = JsRunnerSettings(enabledExtension: Option<bool>, script: Option<ScriptConfig>)

  /** A character card; `scripts` is `data.extensions.TavernHelper_scripts`. */
  datatype Character = Character(avatar: string, scripts: Option<seq<Script>>)

  /** The host context `SillyTavern.getContext()`: `jsRunner` is
      `extensionSettings.TavernHelper` (`None` when either is missing),
      `canEmit` says `eventSource.emit` is a function, `thisChid` is the
      selected character's index (`None` when undefined or null). */
  datatype Context = Context(
    jsRunner: Option<JsRunnerSettings>,
    characters: Option<seq<Character>>,
    thisChid: Option<int>,
    canEmit: bool)

  /** What the page offers the extension: `window.quickReplyApi` and the host
      context, each possibly missing. */
  datatype Host = Host(quickReplyApi: Option<QrApi>, context: Option<Context>)

  datatype Source = QuickReplyV2 | JSSlashRunner

  /** One collected entry. `scriptId` is `None` for standard replies, which
      carry no script id. */
  datatype Reply = Reply(
    setName: string,
    labelText: string,
    message: string,
    isStandard: bool,
    scriptId: Option<string>,
    source: Source)

  // ---------------------------------------------------------------------
  // Candidate entries, in the order the source visits them
  // ---------------------------------------------------------------------

  /** Only an explicit `isEnabled === false` disables Quick Reply v2. */
  predicate StandardEnabled(api: QrApi) {
    !(api.settings.Some? && api.settings.value.isEnabled == Some(false))
  }

  predicate EntryShown(qr: QrEntry) {
    !qr.isHidden && !IsBlank(qr.labelText)
  }

  predicate LinkShown(link: SetLink) {
    link.isVisible && link.qrSet.Some? && link.qrSet.value.qrList.Some?
  }

  /** The entry a shown reply contributes. */
  function StandardReply(qs: QrSet, qr: QrEntry): Reply
    requires EntryShown(qr)
  {
    var labelText := Trim(qr.labelText);
    Reply(
      if qs.name == "" then "Unknown Set" else qs.name,
      labelText,
      if qr.message == "" then "(标准回复: " + labelText + ")" else qr.message,
      true, None, QuickReplyV2)
  }

  /** The shown entries of a set's `qrList`, in order. */
  function EntryCandidates(qs: QrSet, qrs: seq<QrEntry>): seq<Reply>
    decreases |qrs|
  {
    if qrs == [] then []
    else
      var q := qrs[|qrs| - 1];
      EntryCandidates(qs, qrs[..|qrs| - 1]) + (if EntryShown(q) then [StandardReply(qs, q)] else [])
  }

  function LinkCandidates(link: SetLink): seq<Reply> {
    if LinkShown(link) then EntryCandidates(link.qrSet.value, link.qrSet.value.qrList.value) else []
  }

  /** The candidates of a `setList`, set after set. */
  function SetListCandidates(links: seq<SetLink>): seq<Reply>
    decreases |links|
  {
    if links == [] then []
    else SetListCandidates(links[..|links| - 1]) + LinkCandidates(links[|links| - 1])
  }

  /** The standard chat candidates: only when the API exists, is not disabled
      and has a chat set list. */
  function StandardChatCandidates(api: Option<QrApi>): seq<Reply> {
    if api.Some? && StandardEnabled(api.value) && api.value.settings.Some?
      && api.value.settings.value.chatSets.Some?
    then SetListCandidates(api.value.settings.value.chatSets.value)
    else []
  }

  function StandardGlobalCandidates(api: Option<QrApi>): seq<Reply> {
    if api.Some? && StandardEnabled(api.value) && api.value.settings.Some?
      && api.value.settings.value.globalSets.Some?
    then SetListCandidates(api.value.settings.value.globalSets.value)
    else []
  }

  predicate ButtonShown(b: ScriptButton) {
    b.visible && !IsBlank(b.name)
  }

  /** The entry a shown script button contributes. */
  function ScriptReply(s: Script, b: ScriptButton): Reply
    requires ButtonShown(b)
  {
    Reply(
      if s.name == "" then "JS脚本" else s.name,
      Trim(b.name),
      "(JS脚本: " + (if s.name == "" then "未命名" else s.name) + ")",
      false, Some(s.id), JSSlashRunner)
  }

  function ButtonCandidates(s: Script, bs: seq<ScriptButton>): seq<Reply>
    decreases |bs|
  {
    if bs == [] then []
    else
      var b := bs[|bs| - 1];
      ButtonCandidates(s, bs[..|bs| - 1]) + (if ButtonShown(b) then [ScriptReply(s, b)] else [])
  }

  /** A script contributes its buttons only when it is enabled and has a
      button list. */
  function ScriptButtons(s: Script): seq<Reply> {
    if s.enabled && s.buttons.Some? then ButtonCandidates(s, s.buttons.value) else []
  }

  function ScriptListCandidates(scripts: seq<Script>): seq<Reply>
    decreases |scripts|
  {
    if scripts == [] then []
    else ScriptListCandidates(scripts[..|scripts| - 1]) + ScriptButtons(scripts[|scripts| - 1])
  }

  /** What `processScripts(scripts, _, typeEnabled)` would add with no label
      yet taken. */
  function GroupCandidates(scripts: Option<seq<Script>>, typeEnabled: bool): seq<Reply> {
    if typeEnabled && scripts.Some? then ScriptListCandidates(scripts.value) else []
  }

  /** JS-Slash-Runner's settings, when the context offers them and the runner
      is not explicitly disabled. */
  function ActiveRunner(host: Host): Option<JsRunnerSettings> {
    if host.context.Some? && host.context.value.jsRunner.Some?
      && host.context.value.jsRunner.value.enabledExtension != Some(false)
    then host.context.value.jsRunner
    else None
  }

  /** Global scripts are on unless `global_script_enabled === false`. */
  predicate GlobalScriptsEnabled(js: JsRunnerSettings) {
    !(js.script.Some? && js.script.value.globalScriptEnabled == Some(false))
  }

  function Repository(js: JsRunnerSettings): Option<seq<Script>> {
    if js.script.Some? then js.script.value.scriptsRepository else None
  }

  /** The list of avatars with character scripts on; `[]` when it is not an
      array. */
  function AllowedAvatars(js: JsRunnerSettings): seq<string> {
    if js.script.Some? && js.script.value.charactersWithScripts.Some?
    then js.script.value.charactersWithScripts.value
    else []
  }

  /** `characters[this_chid]`, when both exist and the index is in range. */
  function CurrentCharacter(ctx: Context): Option<Character> {
    if ctx.characters.Some? && ctx.thisChid.Some?
      && 0 <= ctx.thisChid.value < |ctx.characters.value|
    then Some(ctx.characters.value[ctx.thisChid.value])
    else None
  }

  /** The current character's scripts count when it has an avatar, character
      scripts are not switched off, and its avatar is in the allow list. */
  predicate CharacterScriptsOn(js: JsRunnerSettings, ch: Character) {
    ch.avatar != ""
    && !(js.script.Some? && js.script.value.charactersWithScriptsEnabled == Some(false))
    && ch.avatar in AllowedAvatars(js)
  }

  function CharacterCandidates(host: Host, js: JsRunnerSettings): seq<Reply>
    requires host.context.Some?
  {
    match CurrentCharacter(host.context.value)
    case Some(ch) => if CharacterScriptsOn(js, ch) then GroupCandidates(ch.scripts, true) else []
    case None => []
  }

  /** Script-button candidates: global scripts first, then the current
      character's. */
  function ScriptCandidates(host: Host): seq<Reply> {
    match ActiveRunner(host)
    case None => []
    case Some(js) =>
      GroupCandidates(Repository(js), GlobalScriptsEnabled(js)) + CharacterCandidates(host, js)
  }

  // ---------------------------------------------------------------------
  // Label de-duplication
  // ---------------------------------------------------------------------

  function LabelSet(rs: seq<Reply>): set<string>
    decreases |rs|
  {
    if rs == [] then {}
    else LabelSet(rs[..|rs| - 1]) + {rs[|rs| - 1].labelText}
  }

  predicate UniqueLabels(rs: seq<Reply>) {
    forall i, j :: 0 <= i < j < |rs| ==> rs[i].labelText != rs[j].labelText
  }

  /** Append `c` unless its label is already taken. */
  function Keep(chat: seq<Reply>, c: Reply): seq<Reply> {
    if c.labelText in LabelSet(chat) then chat else chat + [c]
  }

  /** Offer the candidates one by one to `chat`, keeping each whose label is
      not yet taken. */
  function Absorb(chat: seq<Reply>, cands: seq<Reply>): seq<Reply>
    decreases |cands|
  {
    if cands == [] then chat
    else Keep(Absorb(chat, cands[..|cands| - 1]), cands[|cands| - 1])
  }

  /** The candidates whose labels are not in `seen`, in order; duplicates
      among themselves stay. */
  function Unseen(cands: seq<Reply>, seen: set<string>): seq<Reply>
    decreases |cands|
  {
    if cands == [] then []
    else
      var c := cands[|cands| - 1];
      Unseen(cands[..|cands| - 1], seen) + (if c.labelText in seen then [] else [c])
  }

  /** The entry at `i` is the first one with its label. */
  predicate FirstOfLabel(cands: seq<Reply>, i: int)
    requires 0 <= i < |cands|
  {
    forall j :: 0 <= j < i ==> cands[j].labelText != cands[i].labelText
  }

  /** Reference definition of the chat collection: the candidates that are the
      first of their label, in order. */
  function FirstOccurrences(cands: seq<Reply>): seq<Reply>
    decreases |cands|
  {
    if cands == [] then []
    else
      var n := |cands| - 1;
      FirstOccurrences(cands[..n]) + (if FirstOfLabel(cands, n) then [cands[n]] else [])
  }

  /** The whole chat collection and the whole global collection, as the source
      builds them. */
  function ChatReplies(host: Host): seq<Reply> {
    Absorb([], StandardChatCandidates(host.quickReplyApi) + ScriptCandidates(host))
  }

  function GlobalReplies(host: Host): seq<Reply> {
    Unseen(StandardGlobalCandidates(host.quickReplyApi),
      LabelSet(Absorb([], StandardChatCandidates(host.quickReplyApi))))
  }

  // ---------------------------------------------------------------------
  // What the candidate lists hold
  // ---------------------------------------------------------------------

  /** The shape every standard entry has: flagged standard, from Quick Reply
      v2, no script id, a non-empty trimmed label and a non-empty set name. */
  predicate StandardShape(x: Reply) {
    x.isStandard && x.source == QuickReplyV2 && x.scriptId.None?
    && x.labelText != "" && Trimmed(x.labelText) && x.setName != ""
  }

  /** The shape every script-button entry has. */
  predicate ScriptShape(x: Reply) {
    !x.isStandard && x.source == JSSlashRunner && x.scriptId.Some?
    && x.labelText != "" && Trimmed(x.labelText) && x.setName != ""
  }

  lemma StandardReplyShape(qs: QrSet, qr: QrEntry)
    requires EntryShown(qr)
    ensures StandardShape(StandardReply(qs, qr))
    ensures StandardReply(qs, qr).labelText == Trim(qr.labelText)
  {
    BlankIffTrimEmpty(qr.labelText);
  }

  lemma ScriptReplyShape(s: Script, b: ScriptButton)
    requires ButtonShown(b)
    ensures ScriptShape(ScriptReply(s, b))
    ensures ScriptReply(s, b).scriptId == Some(s.id) && ScriptReply(s, b).labelText == Trim(b.name)
  {
    BlankIffTrimEmpty(b.name);
  }

  /** A set contributes exactly its shown entries. */
  lemma {:induction false} EntryMembers(qs: QrSet, qrs: seq<QrEntry>)
    ensures forall x :: x in EntryCandidates(qs, qrs) <==>
      exists q :: q in qrs && EntryShown(q) && x == StandardReply(qs, q)
    decreases |qrs|
  {
    if qrs != [] {
      var init := qrs[..|qrs| - 1];
      EntryMembers(qs, init);
      assert forall p :: p in qrs <==> p in init || p == qrs[|qrs| - 1];
    }
  }

  /** A set list contributes exactly the entries of its shown links. */
  lemma {:induction false} SetListMembers(links: seq<SetLink>)
    ensures forall x :: x in SetListCandidates(links) <==> exists l :: l in links && x in LinkCandidates(l)
    decreases |links|
  {
    if links != [] {
      var init := links[..|links| - 1];
      SetListMembers(init);
      assert forall l :: l in links <==> l in init || l == links[|links| - 1];
    }
  }

  /** Every standard candidate has the standard shape. */
  lemma SetListShape(links: seq<SetLink>)
    ensures forall x :: x in SetListCandidates(links) ==> StandardShape(x)
  {
    SetListMembers(links);
    forall x | x in SetListCandidates(links) ensures StandardShape(x) {
      var l :| l in links && x in LinkCandidates(l);
      EntryMembers(l.qrSet.value, l.qrSet.value.qrList.value);
      var q :| q in l.qrSet.value.qrList.value && EntryShown(q) && x == StandardReply(l.qrSet.value, q);
      StandardReplyShape(l.qrSet.value, q);
    }
  }

  lemma {:induction false} ButtonMembers(s: Script, bs: seq<ScriptButton>)
    ensures forall x :: x in ButtonCandidates(s, bs) <==>
      exists b :: b in bs && ButtonShown(b) && x == ScriptReply(s, b)
    decreases |bs|
  {
    if bs != [] {
      var init := bs[..|bs| - 1];
      ButtonMembers(s, init);
      assert forall c :: c in bs <==> c in init || c == bs[|bs| - 1];
    }
  }

  lemma {:induction false} ScriptListMembers(scripts: seq<Script>)
    ensures forall x :: x in ScriptListCandidates(scripts) <==>
      exists s :: s in scripts && x in ScriptButtons(s)
    decreases |scripts|
  {
    if scripts != [] {
      var init := scripts[..|scripts| - 1];
      ScriptListMembers(init);
      assert forall s :: s in scripts <==> s in init || s == scripts[|scripts| - 1];
    }
  }

  /** Every script-button candidate has the script shape and comes from an
      enabled script of the group. */
  lemma GroupShape(scripts: Option<seq<Script>>, typeEnabled: bool)
    ensures forall x :: x in GroupCandidates(scripts, typeEnabled) ==>
      ScriptShape(x) && typeEnabled && exists s :: s in scripts.value && s.enabled && x.scriptId == Some(s.id)
  {
    if typeEnabled && scripts.Some? {
      ScriptListMembers(scripts.value);
      forall x | x in GroupCandidates(scripts, typeEnabled)
        ensures ScriptShape(x) && exists s :: s in scripts.value && s.enabled && x.scriptId == Some(s.id)
      {
        var s :| s in scripts.value && x in ScriptButtons(s);
        ButtonMembers(s, s.buttons.value);
        var b :| b in s.buttons.value && ButtonShown(b) && x == ScriptReply(s, b);
        ScriptReplyShape(s, b);
      }
    }
  }

  lemma ScriptCandidatesShape(host: Host)
    ensures forall x :: x in ScriptCandidates(host) ==> ScriptShape(x)
  {
    match ActiveRunner(host)
    case None =>
    case Some(js) =>
      GroupShape(Repository(js), GlobalScriptsEnabled(js));
      match CurrentCharacter(host.context.value)
      case None =>
      case Some(ch) => GroupShape(ch.scripts, true);
  }

  // ---------------------------------------------------------------------
  // Lemmas about the de-duplication
  // ---------------------------------------------------------------------

  lemma {:induction false} LabelSetMembers(rs: seq<Reply>)
    ensures forall l :: l in LabelSet(rs) <==> exists x :: x in rs && x.labelText == l
    decreases |rs|
  {
    if rs != [] {
      var init := rs[..|rs| - 1];
      LabelSetMembers(init);
      assert forall x :: x in rs <==> x in init || x == rs[|rs| - 1];
    }
  }

  lemma {:induction false} UnseenMembers(cands: seq<Reply>, seen: set<string>)
    ensures forall x :: x in Unseen(cands, seen) <==> x in cands && x.labelText !in seen
    decreases |cands|
  {
    if cands != [] {
      var init := cands[..|cands| - 1];
      UnseenMembers(init, seen);
      assert forall x :: x in cands <==> x in init || x == cands[|cands| - 1];
    }
  }

  /** The label filter drops nothing exactly when no candidate's label is
      seen: entries that repeat a label among themselves all stay. */
  lemma {:induction false} UnseenKeepsAll(cands: seq<Reply>, seen: set<string>)
    ensures (forall i :: 0 <= i < |cands| ==> cands[i].labelText !in seen) <==> Unseen(cands, seen) == cands
    decreases |cands|
  {
    if cands != [] {
      var init := cands[..|cands| - 1];
      UnseenKeepsAll(init, seen);
      if forall i :: 0 <= i < |cands| ==> cands[i].labelText !in seen {
        assert forall i :: 0 <= i < |init| ==> init[i].labelText !in seen by {
          forall i | 0 <= i < |init| ensures init[i].labelText !in seen {
            assert init[i] == cands[i];
          }
        }
        assert init + [cands[|cands| - 1]] == cands;
      }
    }
    UnseenMembers(cands, seen);
    if Unseen(cands, seen) == cands {
      forall i | 0 <= i < |cands| ensures cands[i].labelText !in seen {
        assert cands[i] in Unseen(cands, seen);
      }
    }
  }

  lemma LabelSetSnoc(rs: seq<Reply>, c: Reply)
    ensures LabelSet(rs + [c]) == LabelSet(rs) + {c.labelText}
  {
    assert (rs + [c])[..|rs|] == rs;
  }

  lemma AbsorbSnoc(chat: seq<Reply>, cands: seq<Reply>, c: Reply)
    ensures Absorb(chat, cands + [c]) == Keep(Absorb(chat, cands), c)
  {
    assert (cands + [c])[..|cands|] == cands;
  }

  /** Absorbing two lists is absorbing one after the other. */
  lemma {:induction false} AbsorbAppend(chat: seq<Reply>, a: seq<Reply>, b: seq<Reply>)
    ensures Absorb(chat, a + b) == Absorb(Absorb(chat, a), b)
    decreases |b|
  {
    if b == [] {
      assert a + b == a;
    } else {
      var init, last := b[..|b| - 1], b[|b| - 1];
      var ai := a + init;
      assert a + b == ai + [last];
      AbsorbSnoc(chat, ai, last);
      AbsorbAppend(chat, a, init);
      assert b == init + [last];
      AbsorbSnoc(Absorb(chat, a), init, last);
    }
  }

  /** The labels after absorbing are the old labels and the candidates'. */
  lemma {:induction false} AbsorbLabels(chat: seq<Reply>, cands: seq<Reply>)
    ensures LabelSet(Absorb(chat, cands)) == LabelSet(chat) + LabelSet(cands)
    decreases |cands|
  {
    if cands != [] {
      var init, c := cands[..|cands| - 1], cands[|cands| - 1];
      AbsorbLabels(chat, init);
      var prev := Absorb(chat, init);
      if c.labelText !in LabelSet(prev) {
        LabelSetSnoc(prev, c);
      }
    }
  }

  /** Every absorbed entry is an old one or a candidate. */
  lemma {:induction false} AbsorbFrom(chat: seq<Reply>, cands: seq<Reply>)
    ensures forall x :: x in Absorb(chat, cands) ==> x in chat || x in cands
    decreases |cands|
  {
    if cands != [] {
      var init := cands[..|cands| - 1];
      AbsorbFrom(chat, init);
      assert forall x :: x in init ==> x in cands;
    }
  }

  /** Absorbing only appends. */
  lemma {:induction false} AbsorbPrefix(chat: seq<Reply>, cands: seq<Reply>)
    ensures |chat| <= |Absorb(chat, cands)| && Absorb(chat, cands)[..|chat|] == chat
    decreases |cands|
  {
    if cands != [] {
      var init := cands[..|cands| - 1];
      AbsorbPrefix(chat, init);
      var prev := Absorb(chat, init);
      assert (prev + [cands[|cands| - 1]])[..|chat|] == prev[..|chat|];
    }
  }

  /** Absorbing keeps the labels of the collection pairwise distinct. */
  lemma {:induction false} AbsorbUnique(chat: seq<Reply>, cands: seq<Reply>)
    requires UniqueLabels(chat)
    ensures UniqueLabels(Absorb(chat, cands))
    decreases |cands|
  {
    if cands != [] {
      var init, c := cands[..|cands| - 1], cands[|cands| - 1];
      AbsorbUnique(chat, init);
      var prev := Absorb(chat, init);
      if c.labelText !in LabelSet(prev) {
        LabelSetMembers(prev);
        var next := prev + [c];
        forall i, j | 0 <= i < j < |next| ensures next[i].labelText != next[j].labelText {
          if j == |prev| {
            assert prev[i] in prev;
          }
        }
      }
    }
  }

  lemma FirstOccurrencesSnoc(cands: seq<Reply>, c: Reply)
    ensures FirstOccurrences(cands + [c])
         == FirstOccurrences(cands) + (if c.labelText in LabelSet(cands) then [] else [c])
  {
    var s := cands + [c];
    assert s[..|cands|] == cands;
    LabelSetMembers(cands);
    if c.labelText in LabelSet(cands) {
      var x :| x in cands && x.labelText == c.labelText;
      var j :| 0 <= j < |cands| && cands[j] == x;
      assert s[j].labelText == s[|cands|].labelText;
    } else {
      forall j | 0 <= j < |cands| ensures s[j].labelText != c.labelText {
        assert cands[j] in cands;
      }
    }
  }

  /** The source's loop with its label set computes exactly the first entry of
      each label, in order of appearance. */
  lemma {:induction false} AbsorbIsFirstOccurrences(cands: seq<Reply>)
    ensures Absorb([], cands) == FirstOccurrences(cands)
    decreases |cands|
  {
    if cands != [] {
      var init, c := cands[..|cands| - 1], cands[|cands| - 1];
      AbsorbIsFirstOccurrences(init);
      AbsorbLabels([], init);
      assert cands == init + [c];
      AbsorbSnoc([], init, c);
      FirstOccurrencesSnoc(init, c);
    }
  }

  // ---------------------------------------------------------------------
  // Properties of the two collections
  // ---------------------------------------------------------------------

  /** The chat collection is the first entry of each label among the standard
      chat entries followed by the global and then the character script
      buttons, and no two of its entries share a label. */
  lemma ChatIsFirstOfEachLabel(host: Host)
    ensures ChatReplies(host)
         == FirstOccurrences(StandardChatCandidates(host.quickReplyApi) + ScriptCandidates(host))
    ensures UniqueLabels(ChatReplies(host))
  {
    var cands := StandardChatCandidates(host.quickReplyApi) + ScriptCandidates(host);
    AbsorbIsFirstOccurrences(cands);
    AbsorbUnique([], cands);
  }

  /** Standard entries come first: the de-duplicated standard chat entries are
      a prefix of the chat collection, so a script button never displaces a
      standard entry with the same label. */
  lemma StandardChatFirst(host: Host)
    ensures var std := Absorb([], StandardChatCandidates(host.quickReplyApi));
      |std| <= |ChatReplies(host)| && ChatReplies(host)[..|std|] == std
  {
    var std := StandardChatCandidates(host.quickReplyApi);
    AbsorbAppend([], std, ScriptCandidates(host));
    AbsorbPrefix(Absorb([], std), ScriptCandidates(host));
  }

  /** The global collection holds exactly the shown standard global entries
      whose label is not a standard chat label; script buttons never appear
      in it. */
  lemma GlobalMembers(host: Host)
    ensures forall g :: g in GlobalReplies(host) <==>
      g in StandardGlobalCandidates(host.quickReplyApi)
      && g.labelText !in LabelSet(StandardChatCandidates(host.quickReplyApi))
    ensures forall g :: g in GlobalReplies(host) ==> StandardShape(g)
  {
    var api := host.quickReplyApi;
    AbsorbLabels([], StandardChatCandidates(api));
    UnseenMembers(StandardGlobalCandidates(api), LabelSet(Absorb([], StandardChatCandidates(api))));
    if api.Some? && StandardEnabled(api.value) && api.value.settings.Some?
      && api.value.settings.value.globalSets.Some? {
      SetListShape(api.value.settings.value.globalSets.value);
    }
  }

  /** An entry that is the first of its label among the candidates is kept. */
  lemma {:induction false} FirstOfLabelKept(cands: seq<Reply>, i: nat)
    requires i < |cands| && FirstOfLabel(cands, i)
    ensures cands[i] in FirstOccurrences(cands)
    decreases |cands|
  {
    var n := |cands| - 1;
    if i < n {
      var init := cands[..n];
      assert FirstOfLabel(init, i) by {
        forall j | 0 <= j < i ensures init[j].labelText != init[i].labelText {
          assert init[j] == cands[j] && init[i] == cands[i];
        }
      }
      FirstOfLabelKept(init, i);
    }
  }

  /** Script buttons and global entries do not filter each other: the global
      collection is the same whatever scripts the context offers, and a script
      button that is the first of its label among the chat candidates is
      shown in the chat collection even when a global entry has that label. */
  lemma ScriptsIgnoreGlobal(host: Host, ctx: Option<Context>, i: nat)
    requires var cands := StandardChatCandidates(host.quickReplyApi) + ScriptCandidates(host);
      i < |cands| && FirstOfLabel(cands, i)
    ensures GlobalReplies(Host(host.quickReplyApi, ctx)) == GlobalReplies(host)
    ensures (StandardChatCandidates(host.quickReplyApi) + ScriptCandidates(host))[i] in ChatReplies(host)
  {
    var cands := StandardChatCandidates(host.quickReplyApi) + ScriptCandidates(host);
    ChatIsFirstOfEachLabel(host);
    FirstOfLabelKept(cands, i);
  }

  /** Every chat entry is a standard chat candidate or a script-button
      candidate, and its kind, source and script id agree. */
  lemma ChatEntryOrigin(host: Host)
    ensures forall x :: x in ChatReplies(host) ==>
      (x in StandardChatCandidates(host.quickReplyApi) && StandardShape(x))
      || (x in ScriptCandidates(host) && ScriptShape(x))
  {
    var api := host.quickReplyApi;
    AbsorbFrom([], StandardChatCandidates(api) + ScriptCandidates(host));
    ScriptCandidatesShape(host);
    if api.Some? && StandardEnabled(api.value) && api.value.settings.Some?
      && api.value.settings.value.chatSets.Some? {
      SetListShape(api.value.settings.value.chatSets.value);
    }
  }

  // ---------------------------------------------------------------------
  // fetchQuickReplies
  // ---------------------------------------------------------------------

  // One more element of a list extends its candidates by that element's.

  lemma EntryStep(qs: QrSet, qrs: seq<QrEntry>, j: nat)
    requires j < |qrs|
    ensures EntryCandidates(qs, qrs[..j + 1]) == EntryCandidates(qs, qrs[..j])
      + (if EntryShown(qrs[j]) then [StandardReply(qs, qrs[j])] else [])
  {
    assert qrs[..j + 1][..j] == qrs[..j];
  }

  lemma SetListStep(links: seq<SetLink>, i: nat)
    requires i < |links|
    ensures SetListCandidates(links[..i + 1]) == SetListCandidates(links[..i]) + LinkCandidates(links[i])
  {
    assert links[..i + 1][..i] == links[..i];
  }

  lemma ButtonStep(s: Script, bs: seq<ScriptButton>, j: nat)
    requires j < |bs|
    ensures ButtonCandidates(s, bs[..j + 1]) == ButtonCandidates(s, bs[..j])
      + (if ButtonShown(bs[j]) then [ScriptReply(s, bs[j])] else [])
  {
    assert bs[..j + 1][..j] == bs[..j];
  }

  lemma ScriptListStep(scripts: seq<Script>, i: nat)
    requires i < |scripts|
    ensures ScriptListCandidates(scripts[..i + 1]) == ScriptListCandidates(scripts[..i]) + ScriptButtons(scripts[i])
  {
    assert scripts[..i + 1][..i] == scripts[..i];
  }

  /** One chat set's `qrList` loop: append each shown entry whose label is
      not yet taken. */
  method AddChatEntries(qs: QrSet, qrs: seq<QrEntry>, chat0: seq<Reply>, labels0: set<string>)
    returns (chat: seq<Reply>, labels: set<string>)
    requires labels0 == LabelSet(chat0)
    ensures chat == Absorb(chat0, EntryCandidates(qs, qrs))
    ensures labels == LabelSet(chat)
  {
    chat, labels := chat0, labels0;
    var j := 0;
    while j < |qrs|
      invariant 0 <= j <= |qrs|
      invariant chat == Absorb(chat0, EntryCandidates(qs, qrs[..j]))
      invariant labels == LabelSet(chat)
    {
      var qr := qrs[j];
      EntryStep(qs, qrs, j);
      if !qr.isHidden && !IsBlank(qr.labelText) {
        var labelText := Trim(qr.labelText);
        var reply := StandardReply(qs, qr);
        assert reply.labelText == labelText;
        AbsorbSnoc(chat0, EntryCandidates(qs, qrs[..j]), reply);
        if labelText !in labels {
          LabelSetSnoc(chat, reply);
          chat := chat + [reply];
          labels := labels + {labelText};
        }
      } else {
        assert EntryCandidates(qs, qrs[..j]) + [] == EntryCandidates(qs, qrs[..j]);
      }
      j := j + 1;
    }
    assert qrs[..|qrs|] == qrs;
  }

  /** The chat `setList` loop. */
  method AddChatSets(links: seq<SetLink>, chat0: seq<Reply>, labels0: set<string>)
    returns (chat: seq<Reply>, labels: set<string>)
    requires labels0 == LabelSet(chat0)
    ensures chat == Absorb(chat0, SetListCandidates(links))
    ensures labels == LabelSet(chat)
  {
    chat, labels := chat0, labels0;
    var i := 0;
    while i < |links|
      invariant 0 <= i <= |links|
      invariant chat == Absorb(chat0, SetListCandidates(links[..i]))
      invariant labels == LabelSet(chat)
    {
      var link := links[i];
      SetListStep(links, i);
      AbsorbAppend(chat0, SetListCandidates(links[..i]), LinkCandidates(link));
      if link.isVisible && link.qrSet.Some? && link.qrSet.value.qrList.Some? {
        chat, labels := AddChatEntries(link.qrSet.value, link.qrSet.value.qrList.value, chat, labels);
      }
      i := i + 1;
    }
    assert links[..|links|] == links;
  }

  /** One global set's `qrList` loop: append each shown entry whose label is
      not among the chat labels; the global list itself is not de-duplicated. */
  method AddGlobalEntries(qs: QrSet, qrs: seq<QrEntry>, seen: set<string>, global0: seq<Reply>)
    returns (global: seq<Reply>)
    ensures global == global0 + Unseen(EntryCandidates(qs, qrs), seen)
  {
    global := global0;
    var j := 0;
    assert Unseen(EntryCandidates(qs, qrs[..0]), seen) == [] by { assert qrs[..0] == []; }
    while j < |qrs|
      invariant 0 <= j <= |qrs|
      invariant global == global0 + Unseen(EntryCandidates(qs, qrs[..j]), seen)
    {
      var qr := qrs[j];
      ghost var prev := global;
      if !qr.isHidden && !IsBlank(qr.labelText) {
        var labelText := Trim(qr.labelText);
        if labelText !in seen {
          global := global + [StandardReply(qs, qr)];
        }
      }
      GlobalEntryNext(qs, qrs, j, seen, global0, prev, global);
      j := j + 1;
    }
    assert qrs[..|qrs|] == qrs;
  }

  /** One step of the global `qrList` loop keeps its invariant. */
  lemma GlobalEntryNext(qs: QrSet, qrs: seq<QrEntry>, j: nat, seen: set<string>,
                        global0: seq<Reply>, prev: seq<Reply>, next: seq<Reply>)
    requires j < |qrs| && prev == global0 + Unseen(EntryCandidates(qs, qrs[..j]), seen)
    requires next == if EntryShown(qrs[j]) && Trim(qrs[j].labelText) !in seen
      then prev + [StandardReply(qs, qrs[j])] else prev
    ensures next == global0 + Unseen(EntryCandidates(qs, qrs[..j + 1]), seen)
  {
    var qr := qrs[j];
    var added := if EntryShown(qr) then [StandardReply(qs, qr)] else [];
    EntryStep(qs, qrs, j);
    UnseenExtend(global0, EntryCandidates(qs, qrs[..j]), added, seen);
    UnseenOfEntry(qs, qr, seen);
  }

  /** The label filter applied to one entry's candidates. */
  lemma UnseenOfEntry(qs: QrSet, qr: QrEntry, seen: set<string>)
    ensures Unseen(if EntryShown(qr) then [StandardReply(qs, qr)] else [], seen)
         == if EntryShown(qr) && Trim(qr.labelText) !in seen then [StandardReply(qs, qr)] else []
  {
    if EntryShown(qr) {
      assert [StandardReply(qs, qr)][..0] == [];
    }
  }

  lemma {:induction false} UnseenAppend(a: seq<Reply>, b: seq<Reply>, seen: set<string>)
    ensures Unseen(a + b, seen) == Unseen(a, seen) + Unseen(b, seen)
    decreases |b|
  {
    if b == [] {
      assert a + b == a;
    } else {
      var init := b[..|b| - 1];
      UnseenAppend(a, init, seen);
      assert (a + b)[..|a + b| - 1] == a + init;
      assert (a + b)[|a + b| - 1] == b[|b| - 1];
    }
  }

  /** One step of the global `setList` loop keeps its invariant. */
  lemma GlobalSetNext(links: seq<SetLink>, i: nat, seen: set<string>,
                      global0: seq<Reply>, prev: seq<Reply>, next: seq<Reply>)
    requires i < |links| && prev == global0 + Unseen(SetListCandidates(links[..i]), seen)
    requires next == prev + Unseen(LinkCandidates(links[i]), seen)
    ensures next == global0 + Unseen(SetListCandidates(links[..i + 1]), seen)
  {
    SetListStep(links, i);
    UnseenExtend(global0, SetListCandidates(links[..i]), LinkCandidates(links[i]), seen);
  }

  /** Filtering more candidates onto a filtered list is filtering them all. */
  lemma UnseenExtend(global0: seq<Reply>, before: seq<Reply>, added: seq<Reply>, seen: set<string>)
    ensures global0 + Unseen(before, seen) + Unseen(added, seen) == global0 + Unseen(before + added, seen)
  {
    UnseenAppend(before, added, seen);
  }

  /** The global `setList` loop. */
  method AddGlobalSets(links: seq<SetLink>, seen: set<string>, global0: seq<Reply>)
    returns (global: seq<Reply>)
    ensures global == global0 + Unseen(SetListCandidates(links), seen)
  {
    global := global0;
    var i := 0;
    while i < |links|
      invariant 0 <= i <= |links|
      invariant global == global0 + Unseen(SetListCandidates(links[..i]), seen)
    {
      var link := links[i];
      ghost var prev := global;
      if link.isVisible && link.qrSet.Some? && link.qrSet.value.qrList.Some? {
        global := AddGlobalEntries(link.qrSet.value, link.qrSet.value.qrList.value, seen, global);
      }
      GlobalSetNext(links, i, seen, global0, prev, global);
      i := i + 1;
    }
    assert links[..|links|] == links;
  }

  /** One script's `buttons` loop. */
  method AddButtons(s: Script, bs: seq<ScriptButton>, chat0: seq<Reply>, labels0: set<string>)
    returns (chat: seq<Reply>, labels: set<string>)
    requires labels0 == LabelSet(chat0)
    ensures chat == Absorb(chat0, ButtonCandidates(s, bs))
    ensures labels == LabelSet(chat)
  {
    chat, labels := chat0, labels0;
    var j := 0;
    while j < |bs|
      invariant 0 <= j <= |bs|
      invariant chat == Absorb(chat0, ButtonCandidates(s, bs[..j]))
      invariant labels == LabelSet(chat)
    {
      var b := bs[j];
      ButtonStep(s, bs, j);
      if b.visible && !IsBlank(b.name) {
        var labelText := Trim(b.name);
        var reply := ScriptReply(s, b);
        assert reply.labelText == labelText;
        AbsorbSnoc(chat0, ButtonCandidates(s, bs[..j]), reply);
        if labelText !in labels {
          LabelSetSnoc(chat, reply);
          chat := chat + [reply];
          labels := labels + {labelText};
        }
      } else {
        assert ButtonCandidates(s, bs[..j]) + [] == ButtonCandidates(s, bs[..j]);
      }
      j := j + 1;
    }
    assert bs[..|bs|] == bs;
  }

  /** `processScripts(scripts, scriptType, typeEnabled)`: offers the buttons
      of every enabled script, in order, to the chat collection. */
  method ProcessScripts(scripts: Option<seq<Script>>, typeEnabled: bool, chat0: seq<Reply>, labels0: set<string>)
    returns (chat: seq<Reply>, labels: set<string>)
    requires labels0 == LabelSet(chat0)
    ensures chat == Absorb(chat0, GroupCandidates(scripts, typeEnabled))
    ensures labels == LabelSet(chat)
  {
    chat, labels := chat0, labels0;
    if !typeEnabled || scripts.None? {
      return;
    }
    var list := scripts.value;
    var i := 0;
    while i < |list|
      invariant 0 <= i <= |list|
      invariant chat == Absorb(chat0, ScriptListCandidates(list[..i]))
      invariant labels == LabelSet(chat)
    {
      var s := list[i];
      ScriptListStep(list, i);
      AbsorbAppend(chat0, ScriptListCandidates(list[..i]), ScriptButtons(s));
      if s.enabled && s.buttons.Some? {
        chat, labels := AddButtons(s, s.buttons.value, chat, labels);
      }
      i := i + 1;
    }
    assert list[..|list|] == list;
  }

  /** `fetchQuickReplies()`: the chat collection (standard chat entries, then
      global script buttons, then the current character's script buttons,
      keeping the first entry of each label) and the global collection
      (standard global entries whose labels are not among the standard chat
      labels). */
  method FetchQuickReplies(host: Host) returns (chat: seq<Reply>, global: seq<Reply>)
    ensures chat == ChatReplies(host)
    ensures global == GlobalReplies(host)
  {
    chat, global := [], [];
    var labels: set<string> := {};
    var api := host.quickReplyApi;
    if api.Some? && StandardEnabled(api.value) && api.value.settings.Some? {
      var settings := api.value.settings.value;
      if settings.chatSets.Some? {
        chat, labels := AddChatSets(settings.chatSets.value, chat, labels);
      }
      if settings.globalSets.Some? {
        global := AddGlobalSets(settings.globalSets.value, labels, global);
      }
    }
    assert chat == Absorb([], StandardChatCandidates(api));
    var std := chat;
    AbsorbAppend([], StandardChatCandidates(api), ScriptCandidates(host));
    if host.context.Some? && host.context.value.jsRunner.Some? {
      var js := host.context.value.jsRunner.value;
      if js.enabledExtension != Some(false) {
        var globalOn := !(js.script.Some? && js.script.value.globalScriptEnabled == Some(false));
        var repo := if js.script.Some? then js.script.value.scriptsRepository else None;
        chat, labels := ProcessScripts(repo, globalOn, chat, labels);
        AbsorbAppend(std, GroupCandidates(Repository(js), GlobalScriptsEnabled(js)), CharacterCandidates(host, js));
        var ctx := host.context.value;
        if ctx.characters.Some? && ctx.thisChid.Some? && 0 <= ctx.thisChid.value < |ctx.characters.value| {
          var ch := ctx.characters.value[ctx.thisChid.value];
          if ch.avatar != "" {
            var typeOn := !(js.script.Some? && js.script.value.charactersWithScriptsEnabled == Some(false));
            var allowed := if js.script.Some? && js.script.value.charactersWithScripts.Some?
              then js.script.value.charactersWithScripts.value else [];
            if typeOn && ch.avatar in allowed {
              chat, labels := ProcessScripts(ch.scripts, true, chat, labels);
            }
          }
        }
      }
    }
  }

  // ---------------------------------------------------------------------
  // Triggers
  // ---------------------------------------------------------------------

  /** `triggerQuickReply(setName, label)`: asks Quick Reply v2 to run the
      named reply, unless the API is missing or explicitly disabled. */
  function TriggerQuickReply(api: Option<QrApi>, setName: string, labelText: string): (r: seq<Effect>)
    ensures r == [] || r == [Execute(setName, labelText)]
    ensures r != [] <==> api.Some? && StandardEnabled(api.value)
  {
    if api.None? then []
    else if !StandardEnabled(api.value) then []
    else [Execute(setName, labelText)]
  }

  /** The event name JS-Slash-Runner listens on for a button. */
  function ButtonEventName(scriptId: string, labelText: string): (r: string)
    ensures StartsWith(r, scriptId) && EndsWith(r, labelText) && |r| == |scriptId| + 1 + |labelText|
    ensures r[|scriptId|] == '_'
  {
    scriptId + "_" + labelText
  }

  /** `triggerJsRunnerScript(scriptId, buttonLabel)`: emits the button's
      event, unless the context cannot emit or JS-Slash-Runner's settings are
      missing or explicitly disabled. */
  function TriggerJsRunnerScript(ctx: Option<Context>, scriptId: string, labelText: string): (r: seq<Effect>)
    ensures r == [] || r == [Emit(ButtonEventName(scriptId, labelText))]
    ensures r != [] <==> ctx.Some? && ctx.value.canEmit && ctx.value.jsRunner.Some?
                         && ctx.value.jsRunner.value.enabledExtension != Some(false)
  {
    if ctx.None? || !ctx.value.canEmit then []
    else if ctx.value.jsRunner.None? then []
    else if ctx.value.jsRunner.value.enabledExtension == Some(false) then []
    else [Emit(ButtonEventName(scriptId, labelText))]
  }

  /** The button's label and script id can be read back from its event name
      when the id holds no underscore. */
  lemma EventNameSplits(scriptId: string, labelText: string)
    requires '_' !in scriptId
    ensures var n := ButtonEventName(scriptId, labelText);
      IndexOf(n, "_", 0) == Some(|scriptId|)
      && n[..|scriptId|] == scriptId && n[|scriptId| + 1..] == labelText
  {
    var n := ButtonEventName(scriptId, labelText);
    forall j | 0 <= j < |scriptId| ensures !OccursAt(n, "_", j) {
      assert n[j] == scriptId[j];
      assert n[j..j + 1] == [n[j]];
    }
    assert OccursAt(n, "_", |scriptId|) by {
      assert n[|scriptId|..|scriptId| + 1] == [n[|scriptId|]];
    }
    IndexOfFirst(n, "_", |scriptId|);
  }

  lemma IndexOfFirst(s: string, p: string, k: nat)
    requires OccursAt(s, p, k)
    requires forall j :: 0 <= j < k ==> !OccursAt(s, p, j)
    ensures IndexOf(s, p, 0) == Some(k)
  {
  }
}
