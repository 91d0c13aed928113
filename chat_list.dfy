/**
 * The pure list transforms behind the chat store's handlers (App.tsx): each handler hands
 * React a `prev => prev.map(...)`, `prev.filter(...)` or spread over the list of chats, and
 * these are those expressions.
 */
module ChatList {
  import opened Types

  const DefaultChatId := "default"
  const NewChatTitle := "New Conversation"
  const VisionTitle := "Vision Analysis"
  /** `slice(0, 35)`: how much of the first message becomes the chat's title. */
  const TitleLength := 35

  /** The conversation that fills an empty list. */
  function DefaultChat(now: int): Chat {
    Chat(DefaultChatId, [], NewChatTitle, now)
  }

  /** A fresh, empty conversation. */
  function NewChat(id: string, now: int): Chat {
    Chat(id, [], NewChatTitle, now)
  }

  predicate HasChat(chats: seq<Chat>, id: string) {
    exists i :: 0 <= i < |chats| && chats[i].id == id
  }

  /** The position of the first chat with that id. */
  function FindIndex(chats: seq<Chat>, id: string): (r: Option<nat>)
    ensures r.Some? ==> r.value < |chats| && chats[r.value].id == id
    ensures r.Some? ==> forall j :: 0 <= j < r.value ==> chats[j].id != id
    ensures r.None? <==> !HasChat(chats, id)
  {
    if chats == [] then None
    else if chats[0].id == id then Some(0)
    else
      match FindIndex(chats[1..], id)
      case None =>
        assert forall i :: 1 <= i < |chats| ==> chats[i] == chats[1..][i - 1];
        None
      case Some(k) =>
        assert chats[k + 1] == chats[1..][k];
        Some(k + 1)
  }

  /** `chats.find(c => c.id === id)`: the first chat with that id, if any. */
  function Find(chats: seq<Chat>, id: string): (r: Option<Chat>)
    ensures r.None? <==> !HasChat(chats, id)
    ensures r.Some? ==> r.value in chats && r.value.id == id
    ensures r.Some? ==> r.value == chats[FindIndex(chats, id).value]
  {
    match FindIndex(chats, id)
    case None => None
    case Some(k) => Some(chats[k])
  }

  /** The conversation on screen: `chats.find(c => c.id === currentChatId) || chats[0]` (App.tsx:213). */
  function ActiveChat(chats: seq<Chat>, currentId: string): (r: Option<Chat>)
    ensures r.None? <==> chats == []
    ensures HasChat(chats, currentId) ==> r == Find(chats, currentId)
    ensures !HasChat(chats, currentId) && chats != [] ==> r == Some(chats[0])
  {
    match Find(chats, currentId)
    case Some(c) => Some(c)
    case None => if chats == [] then None else Some(chats[0])
  }

  /** The guard of `startNewChat`: the chat named by the active id exists and has a message. */
  function NewChatAllowed(chats: seq<Chat>, currentId: string): (allowed: bool)
    ensures allowed <==> HasChat(chats, currentId) && |ActiveChat(chats, currentId).value.messages| > 0
    ensures !HasChat(chats, currentId) ==> !allowed
  {
    match Find(chats, currentId)
    case None => false
    case Some(c) => |c.messages| > 0
  }

  /** Two lists with the same ids at the same positions. */
  predicate SameIds(a: seq<Chat>, b: seq<Chat>) {
    |a| == |b| && forall i :: 0 <= i < |a| ==> a[i].id == b[i].id
  }

  /** Lookups by id only see ids: lists with the same ids find the same position. */
  lemma {:induction false} SameIdsSameIndex(a: seq<Chat>, b: seq<Chat>, id: string)
    requires SameIds(a, b)
    ensures FindIndex(a, id) == FindIndex(b, id)
    ensures HasChat(a, id) <==> HasChat(b, id)
  {
    if a != [] {
      assert SameIds(a[1..], b[1..]) by {
        forall i | 0 <= i < |a| - 1 ensures a[1..][i].id == b[1..][i].id {
          assert a[i + 1].id == b[i + 1].id;
        }
      }
      SameIdsSameIndex(a[1..], b[1..], id);
    }
  }

  /** The change a handler makes to each chat its `map` selects. */
  datatype Edit =
    | ClearEdit                                   // `{ ...c, messages: [] }`
    | UserEdit(msg: Message, inputText: string)   // the user's message, with the first-message title
    | AiEdit(msg: Message)                        // the assistant's reply

  function ApplyEdit(e: Edit, c: Chat): Chat {
    match e
    case ClearEdit => c.(messages := [])
    case UserEdit(msg, inputText) =>
      c.(title := if c.messages == [] then FirstMessageTitle(inputText) else c.title,
         messages := c.messages + [msg])
    case AiEdit(msg) => c.(messages := c.messages + [msg])
  }

  /** `chats.map(c => c.id === id ? edit(c) : c)`. */
  function UpdateWhere(chats: seq<Chat>, id: string, e: Edit): (r: seq<Chat>)
    ensures |r| == |chats|
    ensures forall i :: 0 <= i < |chats| ==> r[i] == if chats[i].id == id then ApplyEdit(e, chats[i]) else chats[i]
  {
    if chats == [] then []
    else [if chats[0].id == id then ApplyEdit(e, chats[0]) else chats[0]] + UpdateWhere(chats[1..], id, e)
  }

  /** Clear chat (App.tsx:293): the chats with that id lose their messages, nothing else moves. */
  function ClearMessages(chats: seq<Chat>, id: string): (r: seq<Chat>)
    ensures |r| == |chats|
    ensures forall i :: 0 <= i < |chats| ==>
              r[i].id == chats[i].id && r[i].title == chats[i].title && r[i].createdAt == chats[i].createdAt
    ensures forall i :: 0 <= i < |chats| ==>
              r[i].messages == if chats[i].id == id then [] else chats[i].messages
  {
    UpdateWhere(chats, id, ClearEdit)
  }

  function Min(a: int, b: int): int {
    if a <= b then a else b
  }

  /** The title a chat takes from its first message: `inputText.slice(0, 35) || 'Vision Analysis'`. */
  function FirstMessageTitle(inputText: string): (t: string)
    ensures t != []
    ensures inputText == [] ==> t == VisionTitle
    ensures inputText != [] ==> |t| <= TitleLength && t <= inputText
    ensures inputText != [] && |inputText| <= TitleLength ==> t == inputText
    ensures |inputText| >= TitleLength ==> |t| == TitleLength
  {
    var prefix := inputText[..Min(TitleLength, |inputText|)];
    if prefix == [] then VisionTitle else prefix
  }

  /**
   * Appending the user's message (App.tsx:176-182): only the chats with the target id change;
   * each gains the message at the end, and takes its title from the input if it had no messages.
   */
  function AppendUserMessage(chats: seq<Chat>, targetId: string, msg: Message, inputText: string): (r: seq<Chat>)
    ensures |r| == |chats|
    ensures forall i :: 0 <= i < |chats| && chats[i].id != targetId ==> r[i] == chats[i]
    ensures forall i :: 0 <= i < |chats| && chats[i].id == targetId ==>
              r[i].id == chats[i].id && r[i].createdAt == chats[i].createdAt &&
              r[i].messages == chats[i].messages + [msg] &&
              r[i].title == if chats[i].messages == [] then FirstMessageTitle(inputText) else chats[i].title
  {
    UpdateWhere(chats, targetId, UserEdit(msg, inputText))
  }

  /** The chat on screen is the one that gains the user's message, under the first-message title rule. */
  lemma AppendUserMessageToActive(chats: seq<Chat>, id: string, msg: Message, inputText: string)
    requires HasChat(chats, id)
    ensures var r := AppendUserMessage(chats, id, msg, inputText);
            var before := ActiveChat(chats, id).value;
            HasChat(r, id) && ActiveChat(r, id).value.messages == before.messages + [msg] &&
            ActiveChat(r, id).value.title ==
              if before.messages == [] then FirstMessageTitle(inputText) else before.title
  {
    var r := AppendUserMessage(chats, id, msg, inputText);
    SameIdsSameIndex(r, chats, id);
    var k := FindIndex(chats, id).value;
    assert ActiveChat(chats, id).value == chats[k];
    assert ActiveChat(r, id).value == r[k];
  }

  /** Appending the reply (App.tsx:199-204): the target chats gain it at the end, titles untouched. */
  function AppendAiMessage(chats: seq<Chat>, targetId: string, msg: Message): (r: seq<Chat>)
    ensures |r| == |chats|
    ensures forall i :: 0 <= i < |chats| && chats[i].id != targetId ==> r[i] == chats[i]
    ensures forall i :: 0 <= i < |chats| && chats[i].id == targetId ==>
              r[i].id == chats[i].id && r[i].title == chats[i].title && r[i].createdAt == chats[i].createdAt &&
              r[i].messages == chats[i].messages + [msg]
  {
    UpdateWhere(chats, targetId, AiEdit(msg))
  }

  /** `prev.filter(c => c.id !== id)`. */
  function RemoveChat(chats: seq<Chat>, id: string): (r: seq<Chat>)
    ensures forall c :: c in r <==> c in chats && c.id != id
    ensures !HasChat(chats, id) ==> r == chats
  {
    if chats == [] then []
    else
      assert chats == [chats[0]] + chats[1..];
      assert !HasChat(chats, id) ==> !HasChat(chats[1..], id) by {
        if HasChat(chats[1..], id) {
          var i :| 0 <= i < |chats[1..]| && chats[1..][i].id == id;
          assert chats[i + 1].id == id;
        }
      }
      (if chats[0].id == id then [] else [chats[0]]) + RemoveChat(chats[1..], id)
  }

  /** Filtering keeps every chat without that id as often as it occurs, and no other. */
  lemma {:induction false} RemoveChatCounts(chats: seq<Chat>, id: string)
    ensures forall c :: multiset(RemoveChat(chats, id))[c] == if c.id == id then 0 else multiset(chats)[c]
  {
    if chats != [] {
      assert chats == [chats[0]] + chats[1..];
      RemoveChatCounts(chats[1..], id);
    }
  }

  /** Filtering distributes over concatenation. */
  lemma {:induction false} RemoveChatAppend(a: seq<Chat>, b: seq<Chat>, id: string)
    ensures RemoveChat(a + b, id) == RemoveChat(a, id) + RemoveChat(b, id)
  {
    if a != [] {
      var head := if a[0].id == id then [] else [a[0]];
      assert (a + b)[0] == a[0] && (a + b)[1..] == a[1..] + b;
      assert RemoveChat(a + b, id) == head + RemoveChat(a[1..] + b, id);
      RemoveChatAppend(a[1..], b, id);
      assert RemoveChat(a, id) == head + RemoveChat(a[1..], id);
    } else {
      assert a + b == b;
    }
  }

  /** Filtering keeps the order of the chats it keeps. */
  lemma RemoveChatKeepsOrder(chats: seq<Chat>, id: string, i: nat, j: nat)
    requires i < j < |chats| && chats[i].id != id && chats[j].id != id
    ensures exists p, q :: 0 <= p < q < |RemoveChat(chats, id)| &&
              RemoveChat(chats, id)[p] == chats[i] && RemoveChat(chats, id)[q] == chats[j]
  {
    var a, b := chats[..j], chats[j..];
    assert chats == a + b;
    RemoveChatAppend(a, b, id);
    var ra, rb := RemoveChat(a, id), RemoveChat(b, id);
    assert chats[i] == a[i];
    assert chats[i] in ra;
    var p :| 0 <= p < |ra| && ra[p] == chats[i];
    assert rb == [b[0]] + RemoveChat(b[1..], id);
    var r := RemoveChat(chats, id);
    assert r == ra + rb;
    assert r[p] == chats[i] && r[|ra|] == chats[j];
  }

  /**
   * Deleting a chat (App.tsx:335-338): every chat with that id goes; if nothing is left the
   * list becomes the single default chat, so it is never empty.
   */
  function DeleteChat(chats: seq<Chat>, id: string, now: int): (r: seq<Chat>)
    ensures r != []
    ensures (exists i :: 0 <= i < |chats| && chats[i].id != id) ==> r == RemoveChat(chats, id)
    ensures (forall i :: 0 <= i < |chats| ==> chats[i].id == id) ==> r == [DefaultChat(now)]
  {
    var filtered := RemoveChat(chats, id);
    if |filtered| == 0 then
      assert forall i :: 0 <= i < |chats| ==> chats[i] in chats && chats[i] !in filtered;
      [DefaultChat(now)]
    else
      assert filtered[0] in chats;
      filtered
  }

  /** The active id after a delete, as App.tsx:339 computes it: "default" when the active chat went. */
  function NextActiveIdAsWritten(currentId: string, deletedId: string): (r: string)
    ensures currentId == deletedId ==> r == DefaultChatId
    ensures currentId != deletedId ==> r == currentId
  {
    if currentId == deletedId then DefaultChatId else currentId
  }

  /**
   * As written, deleting the active chat while another chat remains points the active id at
   * "default", which names no chat: the screen falls back to the first remaining chat, but a
   * message sent there lands nowhere and "new chat" is refused although that chat has messages.
   */
  lemma DeleteActiveChatStrandsSends()
    ensures
      var m := Message("1", UserRole, "hi", 1, None);
      var chats := [Chat("1", [m], "hi", 1), Chat("2", [m], "hi", 2)];
      var after := DeleteChat(chats, "1", 3);
      var activeId := NextActiveIdAsWritten("1", "1");
      after == [chats[1]] && ActiveChat(after, activeId) == Some(chats[1]) && !HasChat(after, activeId) &&
      AppendUserMessage(after, activeId, m, "hi") == after && !NewChatAllowed(after, activeId)
  {
    var m := Message("1", UserRole, "hi", 1, None);
    var chats := [Chat("1", [m], "hi", 1), Chat("2", [m], "hi", 2)];
    assert chats[1].id != "1";
    assert RemoveChat(chats, "1") == [chats[1]] by {
      assert chats[1..] == [chats[1]];
      assert chats[1..][1..] == [];
    }
    var after := DeleteChat(chats, "1", 3);
    assert after == [chats[1]];
    assert !HasChat(after, DefaultChatId);
  }

  /**
   * The active id after a delete, corrected: when the active chat is deleted, the chat the
   * screen then shows becomes active, which is the "default" chat when one remains and the
   * first remaining chat otherwise; deleting another chat keeps the active id.
   */
  function NextActiveId(currentId: string, deletedId: string, remaining: seq<Chat>): (r: string)
    requires remaining != []
    ensures HasChat(remaining, r) || (r == currentId && currentId != deletedId)
    ensures currentId == deletedId ==> Some(ActiveChat(remaining, r).value) == ActiveChat(remaining, DefaultChatId)
    ensures currentId == deletedId && HasChat(remaining, DefaultChatId) ==> r == DefaultChatId
    ensures currentId == deletedId && !HasChat(remaining, DefaultChatId) ==> r == remaining[0].id
    ensures currentId != deletedId ==> r == currentId
  {
    if currentId == deletedId then ActiveChat(remaining, DefaultChatId).value.id else currentId
  }

  /** With the correction, the active id names a chat after every delete. */
  lemma DeleteKeepsActiveChat(chats: seq<Chat>, currentId: string, deletedId: string, now: int)
    requires HasChat(chats, currentId) || currentId == deletedId
    ensures HasChat(DeleteChat(chats, deletedId, now), NextActiveId(currentId, deletedId, DeleteChat(chats, deletedId, now)))
  {
    var r := DeleteChat(chats, deletedId, now);
    if currentId != deletedId {
      var i :| 0 <= i < |chats| && chats[i].id == currentId;
      assert r == RemoveChat(chats, deletedId);
      assert chats[i] in r;
      var k :| 0 <= k < |r| && r[k] == chats[i];
    }
  }

  /**
   * The correction agrees with App.tsx:339 exactly when the as-written active id still names a
   * chat: it differs only where the source strands its sends.
   */
  lemma NextActiveIdAgrees(chats: seq<Chat>, currentId: string, deletedId: string, now: int)
    requires HasChat(chats, currentId) || currentId == deletedId
    ensures var after := DeleteChat(chats, deletedId, now);
            NextActiveId(currentId, deletedId, after) == NextActiveIdAsWritten(currentId, deletedId)
            <==> HasChat(after, NextActiveIdAsWritten(currentId, deletedId))
  {
    DeleteKeepsActiveChat(chats, currentId, deletedId, now);
  }
}
