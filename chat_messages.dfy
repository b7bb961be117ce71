/**
 * The message thread (`ChatMessages`): loads the selected chat's messages
 * from the local cache and then from the backend, and sends the composer's
 * text as a new row. Each `await` splits an operation into the step before it
 * and the step after it; the backend's answers arrive as parameters.
 */
module ChatMessages {
  import opened Wrappers
  import opened Text
  import opened Schema
  import opened Display
  import opened MessageCache

  /** The row `onSubmit` inserts into `messages`. */
  datatype NewMessage = NewMessage(content: string, chatId: string, senderId: string, isRead: bool)

  /** The `chats` update sent after a successful insert. */
  datatype ChatUpdate = ChatUpdate(chatId: string, lastMessage: string, lastMessageAt: Timestamp)

  /** How `fetchMessages`' query ended: it threw, or it answered with possibly null data. */
  datatype FetchOutcome = FetchFailed | FetchReturned(data: Option<seq<Message>>)

  /**
   * The `onSubmit` guard and the row it builds: nothing without a selected
   * chat, without a session, or for whitespace-only text; otherwise the text as
   * typed, untrimmed, from the session's user, unread.
   */
  function Outgoing(selectedChatId: Option<string>, sessionUser: Option<string>, text: string): (r: Option<NewMessage>)
    ensures r.None? <==> !Truthy(selectedChatId) || sessionUser.None? || Blank(text)
    ensures r.Some? ==> r.value == NewMessage(text, selectedChatId.value, sessionUser.value, false)
  {
    TrimEmptyIffBlank(text);
    if !Truthy(selectedChatId) || sessionUser.None? || Trim(text) == "" then None
    else Some(NewMessage(text, selectedChatId.value, sessionUser.value, false))
  }

  /** `message.sender_id === session?.user.id`: without a session nothing is own. */
  function IsOwnMessage(m: Message, sessionUser: Option<string>): bool {
    sessionUser.Some? && m.senderId == sessionUser.value
  }

  /** A message is own exactly when the signed-in user sent it. */
  lemma IsOwnIff(m: Message, sessionUser: Option<string>)
    ensures IsOwnMessage(m, sessionUser) <==> exists u :: sessionUser == Some(u) && m.senderId == u
  {
    if IsOwnMessage(m, sessionUser) {
      assert sessionUser == Some(sessionUser.value);
    }
  }

  /** Once the backend stores a sent row, the sender sees it as their own. */
  lemma SentIsOwn(selectedChatId: Option<string>, sessionUser: Option<string>, text: string, m: Message)
    requires Outgoing(selectedChatId, sessionUser, text).Some?
    requires m.senderId == Outgoing(selectedChatId, sessionUser, text).value.senderId
    ensures IsOwnMessage(m, sessionUser)
  {
  }

  /** The thread is shown only for a selected chat the store holds; otherwise the placeholder. */
  function ShowsThread(chats: seq<Chat>, selectedChatId: Option<string>): (shown: bool)
    ensures shown <==> Truthy(selectedChatId) && exists c :: c in chats && c.id == selectedChatId.value
  {
    Truthy(selectedChatId) && FindChat(chats, selectedChatId).Some?
  }

  /** One participant's part of the header's second line: a missing name joins as "". */
  function ParticipantName(p: Option<Member>): (name: string)
    ensures p.Some? && p.value.displayName.Some? ==> name == p.value.displayName.value
    ensures p.None? || p.value.displayName.None? ==> name == ""
  {
    if p.Some? then p.value.displayName.GetOr("") else ""
  }

  /** The header's second line: the participants' names joined by ", ". */
  function Subtitle(c: Chat): (s: string)
    ensures |c.participants| == 0 ==> s == ""
    ensures |c.participants| == 1 ==> s == ParticipantName(c.participants[0])
  {
    var names := seq(|c.participants|, k requires 0 <= k < |c.participants| => ParticipantName(c.participants[k]));
    Join(names, ", ")
  }

  /**
   * With two or more participants the line is the first one's name, ", ",
   * and the line of the others; with the one- and zero-participant cases of
   * `Subtitle` this fixes the line for every participant list.
   */
  lemma SubtitleCons(c: Chat, rest: Chat)
    requires |c.participants| >= 2 && rest.participants == c.participants[1..]
    ensures Subtitle(c) == ParticipantName(c.participants[0]) + ", " + Subtitle(rest)
  {
    var names := seq(|c.participants|, k requires 0 <= k < |c.participants| => ParticipantName(c.participants[k]));
    var restNames := seq(|rest.participants|, k requires 0 <= k < |rest.participants| => ParticipantName(rest.participants[k]));
    assert names[1..] == restNames;
  }

  /** What the message area shows. */
  datatype Pane = Loading | NoMessages | Bubbles(shown: seq<Message>)

  function PaneOf(isLoading: bool, messages: seq<Message>): (p: Pane)
    ensures p == Loading <==> isLoading
    ensures p == NoMessages <==> !isLoading && messages == []
    ensures p.Bubbles? ==> p.shown == messages && messages != []
  {
    if isLoading then Loading else if |messages| == 0 then NoMessages else Bubbles(messages)
  }

  /** The component's `messages`, `isLoading` and `isSending` state and the form's `message` field. */
  class Thread {
    var messages: seq<Message>
    var isLoading: bool
    var isSending: bool
    var draft: string

    constructor ()
      ensures messages == [] && !isLoading && !isSending && draft == ""
    {
      messages := [];
      isLoading := false;
      isSending := false;
      draft := "";
    }

    /** The area below the header for the current state. */
    function Pane(): (p: Pane)
      reads this
      ensures p == Loading <==> isLoading
      ensures p == NoMessages <==> !isLoading && messages == []
      ensures p.Bubbles? ==> p.shown == messages && messages != []
    {
      PaneOf(isLoading, messages)
    }

    /**
     * The selection effect up to the cache read: with a selected chat and a
     * session it raises the loading flag and asks the cache (`readsCache`);
     * otherwise it empties the thread.
     */
    method OnSelectionChange(selectedChatId: Option<string>, sessionUser: Option<string>) returns (readsCache: bool)
      modifies this
      ensures readsCache <==> Truthy(selectedChatId) && sessionUser.Some?
      ensures readsCache ==> isLoading && messages == old(messages)
      ensures !readsCache ==> messages == [] && isLoading == old(isLoading)
      ensures isSending == old(isSending) && draft == old(draft)
    {
      if Truthy(selectedChatId) && sessionUser.Some? {
        isLoading := true;
        readsCache := true;
      } else {
        messages := [];
        readsCache := false;
      }
    }

    /**
     * The cache read's continuation: a stored list (any array, even an empty
     * one, is truthy) is shown at once and ends the loading state. A failed
     * read changes nothing. The fetch runs next in every case.
     */
    method OnCacheRead(cache: Cache, chatId: string, readFailed: bool)
      modifies this
      ensures var hit := !readFailed && cache.Get(KeyFor(chatId)).Some?;
              && (hit ==> messages == cache.Get(KeyFor(chatId)).value && !isLoading)
              && (!hit ==> messages == old(messages) && isLoading == old(isLoading))
      ensures isSending == old(isSending) && draft == old(draft)
    {
      if !readFailed {
        var cached := cache.Get(KeyFor(chatId));
        if cached.Some? {
          messages := cached.value;
          isLoading := false;
        }
      }
    }

    /**
     * `fetchMessages` once the query settles. Without a selected chat it
     * returns before doing anything. Otherwise data replaces the thread and is
     * written to the cache, an error keeps the thread, and the loading flag
     * drops on every path.
     */
    method OnFetched(cache: Cache, selectedChatId: Option<string>, outcome: FetchOutcome)
      modifies this, cache
      ensures !Truthy(selectedChatId) ==>
                messages == old(messages) && isLoading == old(isLoading) && cache.entries == old(cache.entries)
      ensures Truthy(selectedChatId) ==> !isLoading
      ensures Truthy(selectedChatId) && outcome.FetchReturned? && outcome.data.Some? ==>
                messages == outcome.data.value
                && cache.entries == old(cache.entries)[KeyFor(selectedChatId.value) := outcome.data.value]
      ensures Truthy(selectedChatId) && !(outcome.FetchReturned? && outcome.data.Some?) ==>
                messages == old(messages) && cache.entries == old(cache.entries)
      ensures isSending == old(isSending) && draft == old(draft)
    {
      if !Truthy(selectedChatId) {
        return;
      }
      if outcome.FetchReturned? && outcome.data.Some? {
        messages := outcome.data.value;
        cache.Set(KeyFor(selectedChatId.value), outcome.data.value);
      }
      isLoading := false;
    }

    /** Typing into the composer, which is disabled while a send is in flight. */
    method Edit(text: string)
      modifies this
      ensures draft == (if old(isSending) then old(draft) else text)
      ensures messages == old(messages) && isLoading == old(isLoading) && isSending == old(isSending)
    {
      if !isSending {
        draft := text;
      }
    }

    /**
     * `onSubmit` up to the insert: returns the row to insert, or nothing and
     * leaves every field as it was when the guard fails.
     */
    method BeginSend(selectedChatId: Option<string>, sessionUser: Option<string>) returns (row: Option<NewMessage>)
      modifies this
      ensures row == Outgoing(selectedChatId, sessionUser, old(draft))
      ensures row.Some? ==> isSending
      ensures row.None? ==> isSending == old(isSending)
      ensures messages == old(messages) && isLoading == old(isLoading) && draft == old(draft)
    {
      row := Outgoing(selectedChatId, sessionUser, draft);
      if row.Some? {
        isSending := true;
      }
    }

    /**
     * `onSubmit` after the insert. A failed insert keeps the typed text; a
     * successful one yields the chat's new preview and clears the composer. The
     * sending flag drops either way, and the thread itself never changes.
     */
    method FinishSend(row: NewMessage, insertFailed: bool, now: Timestamp) returns (update: Option<ChatUpdate>)
      modifies this
      ensures insertFailed ==> update.None? && draft == old(draft)
      ensures !insertFailed ==> update == Some(ChatUpdate(row.chatId, row.content, now)) && draft == ""
      ensures !isSending
      ensures messages == old(messages) && isLoading == old(isLoading)
    {
      if insertFailed {
        update := None;
      } else {
        update := Some(ChatUpdate(row.chatId, row.content, now));
        draft := "";
      }
      isSending := false;
    }
  }

  /**
   * Selecting a chat whose cached list is `[a, b]` while the backend answers
   * `[a, b, c]` ends with `[a, b, c]` shown and cached, and nothing loading.
   */
  method CachedThenFetchedExample(chatId: string, a: Message, b: Message, c: Message)
    returns (shown: seq<Message>, loading: bool, cached: Option<seq<Message>>)
    requires chatId != ""
    ensures shown == [a, b, c] && !loading && cached == Some([a, b, c])
  {
    var cache := new Cache();
    cache.Set(KeyFor(chatId), [a, b]);
    var thread := new Thread();
    var readsCache := thread.OnSelectionChange(Some(chatId), Some("user"));
    thread.OnCacheRead(cache, chatId, false);
    assert thread.messages == [a, b] && !thread.isLoading;
    thread.OnFetched(cache, Some(chatId), FetchReturned(Some([a, b, c])));
    shown, loading, cached := thread.messages, thread.isLoading, cache.Get(KeyFor(chatId));
  }
}
