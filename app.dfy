/**
 * The conversation store of App.tsx: the component's state fields and the handlers that update
 * them. Ids and timestamps that the source draws from `Date.now()` are parameters.
 */
module App {
  import opened Types
  import JsText
  import opened ChatList
  import GeminiService

  const MinPhoneLength := 10
  const NeedMessageNotice := "Please send at least one message before starting a new chat."

  /** Login shows the phone field (1), then the name field (2). */
  type LoginStep = s: int | s == 1 || s == 2 witness 1

  /** The arguments `handleSendMessage` hands to `getAIResponse` once the user's message is in. */
  datatype PendingReply = PendingReply(targetId: string, prompt: string, history: seq<Message>,
                                       userName: string, image: Option<string>)

  /** One full send: the request built for the model and the reply appended to the chat. */
  datatype Exchange = Exchange(request: GeminiService.Request, reply: string)

  /** The message `handleSendMessage` builds from the composer (App.tsx:167-173). */
  function UserMessage(id: string, inputText: string, selectedImage: Option<string>, now: int): (m: Message)
    ensures m.role == UserRole && m.text == inputText
    ensures m.image.Some? <==> JsText.Truthy(selectedImage)
    ensures m.image.Some? ==> m.image == selectedImage
  {
    Message(id, UserRole, inputText, now, if JsText.Truthy(selectedImage) then selectedImage else None)
  }

  /** The reply's message (App.tsx:192-197): written by the assistant, never with an image. */
  function AiMessage(id: string, text: string, now: int): (m: Message)
    ensures m.role == AiRole && m.text == text && m.image.None?
  {
    Message(id, AiRole, text, now, None)
  }

  lemma AppendTwo<T>(s: seq<T>, a: T, b: T)
    ensures s + [a] + [b] == s + [a, b]
  {
  }

  class ChatApp {
    var user: User
    var loginStep: LoginStep
    var chats: seq<Chat>
    var currentChatId: string

    /** The list of chats is never empty and the active id names one of them. */
    ghost predicate Valid()
      reads this
    {
      chats != [] && HasChat(chats, currentChatId)
    }

    /** The conversation on screen (App.tsx:213); with `Valid()` the fallback to `chats[0]` is never taken. */
    function Active(): (c: Chat)
      reads this
      requires Valid()
      ensures c in chats && c.id == currentChatId
      ensures Some(c) == ActiveChat(chats, currentChatId) && Some(c) == Find(chats, currentChatId)
    {
      ActiveChat(chats, currentChatId).value
    }

    /** The state before anything is restored from storage (App.tsx:42-52). */
    constructor (now: int)
      ensures Valid()
      ensures user == User("", "", false) && loginStep == 1
      ensures chats == [DefaultChat(now)] && currentChatId == DefaultChatId
    {
      user := User("", "", false);
      loginStep := 1;
      chats := [DefaultChat(now)];
      currentChatId := DefaultChatId;
      new;
      assert chats[0].id == DefaultChatId;
    }

    /** Typing in the phone field (App.tsx:234). */
    method SetPhone(phone: string)
      requires Valid()
      modifies this
      ensures Valid()
      ensures user == old(user).(phone := phone)
      ensures loginStep == old(loginStep) && chats == old(chats) && currentChatId == old(currentChatId)
    {
      user := user.(phone := phone);
    }

    /** Typing in the name field (App.tsx:251). */
    method SetName(name: string)
      requires Valid()
      modifies this
      ensures Valid()
      ensures user == old(user).(name := name)
      ensures loginStep == old(loginStep) && chats == old(chats) && currentChatId == old(currentChatId)
    {
      user := user.(name := name);
    }

    /**
     * `handleLogin` (App.tsx:119-126): a phone of at least ten characters opens step 2; in step 2
     * a name that is not all whitespace signs the user in; anything else changes nothing.
     */
    method Login()
      requires Valid()
      modifies this
      ensures Valid()
      ensures chats == old(chats) && currentChatId == old(currentChatId)
      ensures old(loginStep) == 1 && |old(user).phone| >= MinPhoneLength ==>
                loginStep == 2 && user == old(user)
      ensures old(loginStep) == 2 && !JsText.IsBlank(old(user).name) ==>
                loginStep == 2 && user == old(user).(isLoggedIn := true)
      ensures (old(loginStep) == 1 && |old(user).phone| < MinPhoneLength) ||
              (old(loginStep) == 2 && JsText.IsBlank(old(user).name)) ==>
                loginStep == old(loginStep) && user == old(user)
    {
      if loginStep == 1 && |user.phone| >= MinPhoneLength {
        loginStep := 2;
      } else if loginStep == 2 && !JsText.TrimsToEmpty(user.name) {
        user := user.(isLoggedIn := true);
      }
    }

    /** `handleLogout` (App.tsx:128-136): everything back to the signed-out state with one default chat. */
    method Logout(now: int)
      requires Valid()
      modifies this
      ensures Valid()
      ensures user == User("", "", false) && loginStep == 1
      ensures chats == [DefaultChat(now)] && currentChatId == DefaultChatId
    {
      user := User("", "", false);
      loginStep := 1;
      chats := [DefaultChat(now)];
      currentChatId := DefaultChatId;
      assert chats[0].id == DefaultChatId;
    }

    /**
     * `startNewChat` (App.tsx:138-150): refused, with a notice, while the active chat has no
     * messages; otherwise one empty chat goes in front and becomes active.
     */
    method StartNewChat(newId: string, now: int) returns (notice: Option<string>)
      requires Valid()
      modifies this
      ensures Valid()
      ensures user == old(user) && loginStep == old(loginStep)
      ensures notice.None? <==> NewChatAllowed(old(chats), old(currentChatId))
      ensures notice.None? <==> |old(Active()).messages| > 0
      ensures notice.None? ==> chats == [NewChat(newId, now)] + old(chats) && currentChatId == newId
      ensures notice.Some? ==>
                notice.value == NeedMessageNotice && chats == old(chats) && currentChatId == old(currentChatId)
    {
      var currentChat := Find(chats, currentChatId);
      if currentChat.None? || |currentChat.value.messages| == 0 {
        return Some(NeedMessageNotice);
      }
      chats := [NewChat(newId, now)] + chats;
      currentChatId := newId;
      assert chats[0].id == newId;
      notice := None;
    }

    /** Picking a chat in the sidebar (App.tsx:327); the sidebar lists only chats that exist. */
    method SelectChat(id: string)
      requires Valid() && HasChat(chats, id)
      modifies this
      ensures Valid()
      ensures currentChatId == id
      ensures user == old(user) && loginStep == old(loginStep) && chats == old(chats)
    {
      currentChatId := id;
    }

    /**
     * The delete button (App.tsx:335-339), with the active id corrected: deleting the active chat
     * makes "default" active as the source does when such a chat remains, and otherwise the first
     * remaining chat, which the screen shows; deleting another chat leaves the active id alone.
     */
    method DeleteChat(id: string, now: int)
      requires Valid()
      modifies this
      ensures Valid()
      ensures chats == ChatList.DeleteChat(old(chats), id, now)
      ensures currentChatId == NextActiveId(old(currentChatId), id, chats)
      ensures HasChat(chats, NextActiveIdAsWritten(old(currentChatId), id)) ==>
                currentChatId == NextActiveIdAsWritten(old(currentChatId), id)
      ensures old(currentChatId) != id ==> currentChatId == old(currentChatId)
      ensures user == old(user) && loginStep == old(loginStep)
    {
      DeleteKeepsActiveChat(chats, currentChatId, id, now);
      NextActiveIdAgrees(chats, currentChatId, id, now);
      chats := ChatList.DeleteChat(chats, id, now);
      if currentChatId == id {
        currentChatId := DefaultChatId;
        if Find(chats, currentChatId).None? {
          currentChatId := chats[0].id;
        }
      }
    }

    /** The clear button (App.tsx:293): the active chat loses its messages. */
    method ClearChat()
      requires Valid()
      modifies this
      ensures Valid()
      ensures chats == ClearMessages(old(chats), old(currentChatId))
      ensures Active().messages == [] && Active().title == old(Active()).title
      ensures currentChatId == old(currentChatId) && user == old(user) && loginStep == old(loginStep)
    {
      var before := chats;
      chats := ClearMessages(chats, currentChatId);
      SameIdsSameIndex(chats, before, currentChatId);
    }

    /**
     * The first half of `handleSendMessage` (App.tsx:163-190): nothing happens when the text is
     * blank and there is no image; otherwise the message is appended to the active chat and the
     * call to `getAIResponse` is returned, with that chat's messages up to and including it.
     */
    method SendUserMessage(inputText: string, selectedImage: Option<string>, msgId: string, now: int)
      returns (pending: Option<PendingReply>)
      requires Valid()
      modifies this
      ensures Valid()
      ensures currentChatId == old(currentChatId) && user == old(user) && loginStep == old(loginStep)
      ensures pending.None? <==> JsText.IsBlank(inputText) && !JsText.Truthy(selectedImage)
      ensures pending.None? ==> chats == old(chats)
      ensures pending.Some? ==>
                var msg := UserMessage(msgId, inputText, selectedImage, now);
                chats == AppendUserMessage(old(chats), old(currentChatId), msg, inputText) &&
                pending.value == PendingReply(old(currentChatId), inputText, old(Active()).messages + [msg],
                                              old(user).name, msg.image) &&
                Active().messages == old(Active()).messages + [msg] &&
                Active().title == if old(Active()).messages == [] then FirstMessageTitle(inputText) else old(Active()).title
    {
      if JsText.TrimsToEmpty(inputText) && !JsText.Truthy(selectedImage) {
        return None;
      }
      var currentMsg := UserMessage(msgId, inputText, selectedImage, now);
      var targetId := currentChatId;
      var found := Find(chats, targetId);
      var activeChatMessages := if found.Some? then found.value.messages else [];
      assert activeChatMessages == Active().messages;
      AppendUserTurn(currentMsg, inputText);
      pending := Some(PendingReply(targetId, currentMsg.text, activeChatMessages + [currentMsg], user.name, currentMsg.image));
    }

    /**
     * The `setChats` of App.tsx:176-182: the active chat gains the user's message, taking its
     * title from the message when it had none.
     */
    method AppendUserTurn(msg: Message, inputText: string)
      requires Valid()
      modifies this
      ensures Valid()
      ensures chats == AppendUserMessage(old(chats), currentChatId, msg, inputText)
      ensures Active().messages == old(Active()).messages + [msg]
      ensures Active().title == if old(Active()).messages == [] then FirstMessageTitle(inputText) else old(Active()).title
      ensures currentChatId == old(currentChatId) && user == old(user) && loginStep == old(loginStep)
    {
      AppendUserMessageToActive(chats, currentChatId, msg, inputText);
      chats := AppendUserMessage(chats, currentChatId, msg, inputText);
    }

    /** The second half of `handleSendMessage` (App.tsx:192-204): the reply joins the chat the message went to. */
    method AppendAiReply(targetId: string, text: string, msgId: string, now: int)
      requires Valid()
      modifies this
      ensures Valid()
      ensures chats == AppendAiMessage(old(chats), targetId, AiMessage(msgId, text, now))
      ensures targetId == currentChatId ==>
                Active().messages == old(Active()).messages + [AiMessage(msgId, text, now)] &&
                Active().title == old(Active()).title
      ensures currentChatId == old(currentChatId) && user == old(user) && loginStep == old(loginStep)
    {
      var before := chats;
      chats := AppendAiMessage(chats, targetId, AiMessage(msgId, text, now));
      SameIdsSameIndex(chats, before, currentChatId);
    }

    /**
     * `handleSendMessage` as two steps around the model call, which `generate` stands for: the
     * active chat gains exactly the user's message and then exactly the reply.
     */
    method HandleSendMessage(inputText: string, selectedImage: Option<string>, msgId: string, now: int,
                             generate: GeminiService.Request -> GeminiService.CallOutcome,
                             replyId: string, replyTime: int)
      returns (exchange: Option<Exchange>)
      requires Valid()
      modifies this
      ensures Valid()
      ensures currentChatId == old(currentChatId) && user == old(user) && loginStep == old(loginStep)
      ensures exchange.None? <==> JsText.IsBlank(inputText) && !JsText.Truthy(selectedImage)
      ensures exchange.None? ==> chats == old(chats)
      ensures exchange.Some? ==>
                var msg := UserMessage(msgId, inputText, selectedImage, now);
                var firstName := GeminiService.FirstName(old(user).name);
                var e := exchange.value;
                e.request == GeminiService.Request(GeminiService.ModelName,
                  GeminiService.RequestContents(inputText, old(Active()).messages + [msg], msg.image),
                  GeminiService.SystemInstruction(firstName)) &&
                e.reply == GeminiService.SelectReply(generate(e.request), firstName) &&
                chats == AppendAiMessage(AppendUserMessage(old(chats), old(currentChatId), msg, inputText),
                                         old(currentChatId), AiMessage(replyId, e.reply, replyTime)) &&
                Active().messages == old(Active()).messages + [msg, AiMessage(replyId, e.reply, replyTime)]
    {
      ghost var before := Active().messages;
      ghost var msg := UserMessage(msgId, inputText, selectedImage, now);
      var pending := SendUserMessage(inputText, selectedImage, msgId, now);
      if pending.None? {
        return None;
      }
      var p := pending.value;
      assert p == PendingReply(currentChatId, inputText, before + [msg], user.name, msg.image);
      ghost var sent := Active().messages;
      assert sent == before + [msg];
      var request, reply := GeminiService.GetAIResponse(p.prompt, p.history, p.userName, p.image, generate);
      AppendAiReply(p.targetId, reply, replyId, replyTime);
      assert Active().messages == sent + [AiMessage(replyId, reply, replyTime)];
      AppendTwo(before, msg, AiMessage(replyId, reply, replyTime));
      exchange := Some(Exchange(request, reply));
    }
  }
}
