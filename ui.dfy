/** Rendering of the menu (ui.js): one button per quick reply, the
    empty-state placeholders, and the menu's visibility. */
module Ui {
  import opened Options
  import opened Text
  import opened State
  import opened Api

  const ChatEmptyText: string := "没有可用的聊天快速回复或脚本按钮"
  const GlobalEmptyText: string := "没有可用的全局快速回复"
  const LoadErrorText: string := "加载回复列表失败"

  /** Tooltip messages longer than this are cut and marked with `...`. */
  const TooltipLimit: nat := 70

  /** The tooltip's message part: short messages whole, long ones cut to the
      limit and followed by `...`. */
  function Shorten(m: string): (r: string)
    ensures |r| <= TooltipLimit + 3
    ensures |m| <= TooltipLimit ==> r == m
    ensures |m| > TooltipLimit ==>
      |r| == TooltipLimit + 3 && r[..TooltipLimit] == m[..TooltipLimit] && EndsWith(r, "...")
  {
    if |m| > TooltipLimit then
      var r := m[..TooltipLimit] + "...";
      assert r[|r| - 3..] == "...";
      r
    else m
  }

  /** The message shown in the tooltip: the reply's message, or a note saying
      which kind of reply it is. */
  function TooltipMessage(reply: Reply): string {
    if reply.message != "" then reply.message
    else if reply.isStandard then "(标准回复)"
    else "(JS脚本)"
  }

  /** The `data-set-name` attribute: the reply's set name, else a name for
      its source. */
  function ItemSetName(reply: Reply): (r: string)
    ensures r != ""
  {
    if reply.setName != "" then reply.setName
    else if reply.source == JSSlashRunner then "JS脚本"
    else "未知回复集"
  }

  /** `createQuickReplyItem(reply)`. */
  function CreateQuickReplyItem(reply: Reply): MenuItem {
    var labelText := Trim(reply.labelText);
    var setName := ItemSetName(reply);
    MenuItem(
      labelText,
      if reply.isStandard then "true" else "false",
      setName,
      if !reply.isStandard && reply.scriptId.Some? && reply.scriptId.value != "" then reply.scriptId else None,
      setName + " > " + labelText + ":\n" + Shorten(TooltipMessage(reply)))
  }

  /** The attributes of a reply's button: the trimmed label, `"false"` as the
      standard flag exactly for script replies, the script id only on script
      replies that have a non-empty one, and a tooltip that starts with the
      set and label and goes on with the cut tooltip message: the reply's own
      message when it has one, else a note naming its kind. */
  lemma ItemAttributes(reply: Reply)
    ensures var it := CreateQuickReplyItem(reply);
      && it.labelText == Trim(reply.labelText) && it.setName != ""
      && (it.isStandard == "false" <==> !reply.isStandard)
      && (it.scriptId.Some? <==> !reply.isStandard && reply.scriptId.Some? && reply.scriptId.value != "")
      && (it.scriptId.Some? ==> it.scriptId == reply.scriptId)
      && StartsWith(it.title, it.setName + " > " + it.labelText + ":\n")
      && |it.title| <= |it.setName| + |it.labelText| + 5 + TooltipLimit + 3
      && it.title == it.setName + " > " + it.labelText + ":\n" + Shorten(TooltipMessage(reply))
      && (reply.message != "" ==> TooltipMessage(reply) == reply.message)
      && (reply.message == "" ==> TooltipMessage(reply) == (if reply.isStandard then "(标准回复)" else "(JS脚本)"))
  {
    var it := CreateQuickReplyItem(reply);
    var head := it.setName + " > " + it.labelText + ":\n";
    var message := Shorten(TooltipMessage(reply));
    assert it.title == head + message;
    assert it.title[..|head|] == head;
  }

  /** The replies that get a button: those whose label is not blank, in
      order. */
  function NonBlank(rs: seq<Reply>): seq<Reply> {
    if rs == [] then []
    else
      var last := rs[|rs| - 1];
      NonBlank(rs[..|rs| - 1]) + (if IsBlank(last.labelText) then [] else [last])
  }

  /** One button per reply, in order. */
  function Buttons(rs: seq<Reply>): (r: seq<Node>)
    ensures |r| == |rs|
  {
    seq(|rs|, i requires 0 <= i < |rs| => Item(CreateQuickReplyItem(rs[i])))
  }

  /** A container's children after rendering `rs`: the placeholder when the
      list is empty, otherwise the buttons of the replies with a label. */
  function Rendered(rs: seq<Reply>, emptyText: string): seq<Node> {
    if rs == [] then [Placeholder(emptyText)] else Buttons(NonBlank(rs))
  }

  /** The kept replies are exactly the replies with a label. */
  lemma {:induction false} NonBlankMembers(rs: seq<Reply>)
    ensures |NonBlank(rs)| <= |rs|
    ensures forall r :: r in NonBlank(rs) <==> r in rs && !IsBlank(r.labelText)
  {
    if rs != [] {
      var init := rs[..|rs| - 1];
      NonBlankMembers(init);
      assert forall r :: r in rs <==> r in init || r == rs[|rs| - 1];
    }
  }

  /** With no blank label, every reply is kept. */
  lemma {:induction false} NonBlankOfLabelled(rs: seq<Reply>)
    requires forall i :: 0 <= i < |rs| ==> !IsBlank(rs[i].labelText)
    ensures NonBlank(rs) == rs
  {
    if rs != [] {
      var n := |rs| - 1;
      var init := rs[..n];
      forall i | 0 <= i < n ensures !IsBlank(init[i].labelText) {
        assert init[i] == rs[i];
      }
      NonBlankOfLabelled(init);
      assert NonBlank(rs) == NonBlank(init) + [rs[n]];
      assert init + [rs[n]] == rs;
    }
  }

  /** With only blank labels, nothing is kept. */
  lemma {:induction false} NonBlankOfBlank(rs: seq<Reply>)
    requires forall i :: 0 <= i < |rs| ==> IsBlank(rs[i].labelText)
    ensures NonBlank(rs) == []
  {
    if rs != [] {
      NonBlankOfBlank(rs[..|rs| - 1]);
    }
  }

  /** With no blank label, a non-empty list renders one button per reply, in
      order. */
  lemma RenderedOfLabelled(rs: seq<Reply>, emptyText: string)
    requires rs != [] && forall i :: 0 <= i < |rs| ==> !IsBlank(rs[i].labelText)
    ensures |Rendered(rs, emptyText)| == |rs|
    ensures forall i :: 0 <= i < |rs| ==> Rendered(rs, emptyText)[i] == Item(CreateQuickReplyItem(rs[i]))
  {
    NonBlankOfLabelled(rs);
  }

  /** A container shows a placeholder exactly when its list is empty, and
      then only the placeholder. */
  lemma PlaceholderIffEmpty(rs: seq<Reply>, emptyText: string)
    ensures (exists n :: n in Rendered(rs, emptyText) && n.Placeholder?) <==> rs == []
    ensures rs == [] ==> Rendered(rs, emptyText) == [Placeholder(emptyText)]
  {
    if rs == [] {
      assert Placeholder(emptyText) in Rendered(rs, emptyText);
    }
  }

  /** A non-empty list whose labels are all blank leaves the container
      empty: neither buttons nor a placeholder. */
  lemma AllBlankRendersEmpty(rs: seq<Reply>, emptyText: string)
    requires rs != [] && forall i :: 0 <= i < |rs| ==> IsBlank(rs[i].labelText)
    ensures Rendered(rs, emptyText) == []
  {
    NonBlankOfBlank(rs);
  }

  lemma NonBlankStep(rs: seq<Reply>, i: nat)
    requires i < |rs|
    ensures NonBlank(rs[..i + 1]) == NonBlank(rs[..i]) + (if IsBlank(rs[i].labelText) then [] else [rs[i]])
  {
    assert rs[..i + 1][..i] == rs[..i];
  }

  lemma ButtonsSnoc(kept: seq<Reply>, r: Reply)
    ensures Buttons(kept + [r]) == Buttons(kept) + [Item(CreateQuickReplyItem(r))]
  {
    ButtonsPrefix(kept, r);
    assert Buttons(kept + [r])[..|kept|] == Buttons(kept);
  }

  /** Appending a reply leaves the earlier buttons in place. */
  lemma ButtonsPrefix(kept: seq<Reply>, r: Reply)
    ensures Buttons(kept + [r])[..|kept|] == Buttons(kept)
  {
    var a, b := Buttons(kept + [r])[..|kept|], Buttons(kept);
    forall i | 0 <= i < |kept| ensures a[i] == b[i] {
      assert (kept + [r])[i] == kept[i];
    }
  }

  /** Filling one container: the placeholder for an empty list, otherwise a
      button per reply with a label, skipping the rest. */
  method RenderList(rs: seq<Reply>, emptyText: string) returns (nodes: seq<Node>)
    ensures nodes == Rendered(rs, emptyText)
  {
    nodes := [];
    if |rs| > 0 {
      var i := 0;
      while i < |rs|
        invariant 0 <= i <= |rs|
        invariant nodes == Buttons(NonBlank(rs[..i]))
      {
        NonBlankStep(rs, i);
        if !IsBlank(rs[i].labelText) {
          ButtonsSnoc(NonBlank(rs[..i]), rs[i]);
          nodes := nodes + [Item(CreateQuickReplyItem(rs[i]))];
        } else {
          assert NonBlank(rs[..i]) + [] == NonBlank(rs[..i]);
        }
        i := i + 1;
      }
      assert rs[..|rs|] == rs;
    } else {
      nodes := [Placeholder(emptyText)];
    }
  }

  /** `renderQuickReplies(chat, global)`: both containers are replaced; without
      the containers nothing happens. */
  method RenderQuickReplies(st: SharedState, chat: seq<Reply>, global: seq<Reply>)
    modifies st`chatItems, st`globalItems
    ensures st.mounted ==>
      (st.chatItems == Rendered(chat, ChatEmptyText) && st.globalItems == Rendered(global, GlobalEmptyText))
    ensures !st.mounted ==> st.chatItems == old(st.chatItems) && st.globalItems == old(st.globalItems)
  {
    if !st.mounted {
      return;
    }
    st.chatItems := RenderList(chat, ChatEmptyText);
    st.globalItems := RenderList(global, GlobalEmptyText);
  }

  /** The refill done when the menu opens: the fetched lists rendered, or,
      when `fails` (an exception thrown while fetching or rendering), the
      error placeholder in both containers. */
  method Refill(st: SharedState, host: Host, fails: bool)
    requires st.mounted
    modifies st`chatItems, st`globalItems
    ensures !fails ==>
      (st.chatItems == Rendered(ChatReplies(host), ChatEmptyText)
       && st.globalItems == Rendered(GlobalReplies(host), GlobalEmptyText))
    ensures fails ==>
      (st.chatItems == [Placeholder(LoadErrorText)] && st.globalItems == [Placeholder(LoadErrorText)])
  {
    if fails {
      st.chatItems := [Placeholder(LoadErrorText)];
      st.globalItems := [Placeholder(LoadErrorText)];
    } else {
      var chat, global := FetchQuickReplies(host);
      RenderQuickReplies(st, chat, global);
    }
  }

  /** `updateMenuVisibilityUI()`. When the menu opens it is refilled first;
      open or closed, the display, `aria-expanded` and the `active` class
      then follow the visibility flag. */
  method UpdateMenuVisibilityUI(st: SharedState, host: Host, fails: bool)
    modifies st`chatItems, st`globalItems, st`menuDisplayed, st`ariaExpanded, st`rocketActive
    ensures st.mounted ==> st.Synced()
    ensures st.mounted && st.menuVisible && !fails ==>
      (st.chatItems == Rendered(ChatReplies(host), ChatEmptyText)
       && st.globalItems == Rendered(GlobalReplies(host), GlobalEmptyText))
    ensures st.mounted && st.menuVisible && fails ==>
      (st.chatItems == [Placeholder(LoadErrorText)] && st.globalItems == [Placeholder(LoadErrorText)])
    ensures !(st.mounted && st.menuVisible) ==>
      (st.chatItems == old(st.chatItems) && st.globalItems == old(st.globalItems))
    ensures !st.mounted ==>
      (st.menuDisplayed == old(st.menuDisplayed) && st.ariaExpanded == old(st.ariaExpanded)
       && st.rocketActive == old(st.rocketActive))
  {
    if !st.mounted {
      return;
    }
    if st.menuVisible {
      Refill(st, host, fails);
      st.menuDisplayed, st.ariaExpanded, st.rocketActive := true, true, true;
    } else {
      st.menuDisplayed, st.ariaExpanded, st.rocketActive := false, false, false;
    }
  }
}
