/**
 * The client state store (`useChatStore`): the signed-in profile, the chat
 * list and one message ledger per chat id, replaced by six actions.
 */
module ChatStore {
  import opened Wrappers
  import opened Schema
  import opened RecencySort

  /** `Partial<Chat>`: each present field replaces the chat's own. */
  datatype ChatPatch = ChatPatch(
    id: Option<string>,
    name: Option<Option<string>>,
    isGroup: Option<bool>,
    lastMessage: Option<Option<string>>,
    lastMessageAt: Option<Option<Timestamp>>,
    createdAt: Option<Timestamp>,
    chatLabels: Option<seq<Option<Label>>>,
    participants: Option<seq<Option<Member>>>)

  /** `{ ...chat, ...data }`. */
  function Merge(c: Chat, p: ChatPatch): Chat {
    Chat(p.id.GetOr(c.id), p.name.GetOr(c.name), p.isGroup.GetOr(c.isGroup),
         p.lastMessage.GetOr(c.lastMessage), p.lastMessageAt.GetOr(c.lastMessageAt),
         p.createdAt.GetOr(c.createdAt), p.chatLabels.GetOr(c.chatLabels),
         p.participants.GetOr(c.participants))
  }

  /** `updateChat`'s `state.chats.map(...)`: merge into the chats with that id, in place. */
  function Patched(chats: seq<Chat>, chatId: string, p: ChatPatch): seq<Chat> {
    seq(|chats|, i requires 0 <= i < |chats| =>
      if chats[i].id == chatId then Merge(chats[i], p) else chats[i])
  }

  /** `state.messages[chatId] || []`. */
  function MessagesOf(messages: map<string, seq<Message>>, chatId: string): seq<Message> {
    if chatId in messages then messages[chatId] else []
  }

  /** `addMessage`'s per-chat update: the message becomes the preview of its own chat. */
  function WithPreview(c: Chat, m: Message): Chat {
    if c.id == m.chatId then c.(lastMessage := Some(m.content), lastMessageAt := Some(m.createdAt))
    else c
  }

  /** `updatedChats` before the sort. */
  function Previewed(chats: seq<Chat>, m: Message): seq<Chat> {
    seq(|chats|, i requires 0 <= i < |chats| => WithPreview(chats[i], m))
  }

  /** The chat list `addMessage` leaves behind. */
  function AfterMessage(chats: seq<Chat>, m: Message): seq<Chat> {
    InsertionSorted(Previewed(chats, m))
  }

  /** The sort neither adds nor drops a chat. */
  lemma SortedMembers(s: seq<Chat>)
    ensures |InsertionSorted(s)| == |s|
    ensures forall c :: c in InsertionSorted(s) <==> c in s
  {
    SortedPermutes(s);
    assert |multiset(InsertionSorted(s))| == |multiset(s)|;
    forall c ensures c in InsertionSorted(s) <==> c in s {
      assert c in InsertionSorted(s) <==> c in multiset(InsertionSorted(s));
      assert c in s <==> c in multiset(s);
    }
  }

  /** Before the sort: previews only on the message's chat, every old chat accounted for. */
  lemma PreviewedMembers(chats: seq<Chat>, m: Message)
    ensures forall c :: c in Previewed(chats, m) && c.id == m.chatId ==>
              c.lastMessage == Some(m.content) && c.lastMessageAt == Some(m.createdAt)
    ensures forall c :: c in Previewed(chats, m) && c.id != m.chatId ==> c in chats
    ensures forall c :: c in chats ==> WithPreview(c, m) in Previewed(chats, m)
  {
    var p := Previewed(chats, m);
    forall c | c in chats
      ensures WithPreview(c, m) in p
    {
      var i :| 0 <= i < |chats| && chats[i] == c;
      assert p[i] == WithPreview(c, m);
    }
  }

  /**
   * After `addMessage` the list has the same length, is newest first, carries
   * the new preview on every chat of the message's id, keeps every other chat
   * as it was, and loses none.
   */
  lemma AfterMessageFacts(chats: seq<Chat>, m: Message)
    ensures |AfterMessage(chats, m)| == |chats|
    ensures NewestFirst(AfterMessage(chats, m))
    ensures forall c :: c in AfterMessage(chats, m) && c.id == m.chatId ==>
              c.lastMessage == Some(m.content) && c.lastMessageAt == Some(m.createdAt)
    ensures forall c :: c in AfterMessage(chats, m) && c.id != m.chatId ==> c in chats
    ensures forall c :: c in chats ==> WithPreview(c, m) in AfterMessage(chats, m)
  {
    SortedMembers(Previewed(chats, m));
    PreviewedMembers(chats, m);
    SortedIsNewestFirst(Previewed(chats, m));
  }

  /** Chats with equal recency keep the relative order they had before `addMessage`. */
  lemma AfterMessageStable(chats: seq<Chat>, m: Message, k: int)
    ensures WithRecency(AfterMessage(chats, m), k) == WithRecency(Previewed(chats, m), k)
  {
    SortedIsStable(Previewed(chats, m), k);
  }

  /** `updateChat` does not re-sort: the order survives only a patch that leaves `last_message_at` alone. */
  lemma PatchedKeepsOrder(chats: seq<Chat>, chatId: string, p: ChatPatch)
    requires p.lastMessageAt.None?
    requires NewestFirst(chats)
    ensures NewestFirst(Patched(chats, chatId, p))
  {
    var r := Patched(chats, chatId, p);
    assert forall i :: 0 <= i < |chats| ==> Recency(r[i]) == Recency(chats[i]);
  }

  /** Copies the list into a fresh array and sorts that array in place. */
  method SortedCopy(s: seq<Chat>) returns (r: seq<Chat>)
    ensures r == InsertionSorted(s)
  {
    var a := new Chat[|s|](i requires 0 <= i < |s| => s[i]);
    assert a[..] == s;
    SortNewestFirst(a);
    r := a[..];
  }

  class Store {
    var profile: Option<Profile>
    var chats: seq<Chat>
    var messages: map<string, seq<Message>>

    constructor ()
      ensures profile == None && chats == [] && messages == map[]
    {
      profile := None;
      chats := [];
      messages := map[];
    }

    method SetProfile(p: Profile)
      modifies this
      ensures profile == Some(p)
      ensures chats == old(chats) && messages == old(messages)
    {
      profile := Some(p);
    }

    method SetChats(cs: seq<Chat>)
      modifies this
      ensures chats == cs
      ensures profile == old(profile) && messages == old(messages)
    {
      chats := cs;
    }

    /** `[chat, ...state.chats]`. */
    method AddChat(c: Chat)
      modifies this
      ensures chats == [c] + old(chats)
      ensures |chats| == |old(chats)| + 1 && chats[0] == c && chats[1..] == old(chats)
      ensures profile == old(profile) && messages == old(messages)
    {
      chats := [c] + chats;
    }

    method UpdateChat(chatId: string, data: ChatPatch)
      modifies this
      ensures chats == Patched(old(chats), chatId, data)
      ensures |chats| == |old(chats)|
      ensures forall i :: 0 <= i < |chats| && old(chats)[i].id != chatId ==> chats[i] == old(chats)[i]
      ensures forall i :: 0 <= i < |chats| && old(chats)[i].id == chatId ==> chats[i] == Merge(old(chats)[i], data)
      ensures profile == old(profile) && messages == old(messages)
    {
      chats := Patched(chats, chatId, data);
    }

    /** `{ ...state.messages, [chatId]: messages }`. */
    method SetMessages(chatId: string, msgs: seq<Message>)
      modifies this
      ensures messages == old(messages)[chatId := msgs]
      ensures forall id :: id != chatId ==> MessagesOf(messages, id) == MessagesOf(old(messages), id)
      ensures profile == old(profile) && chats == old(chats)
    {
      messages := messages[chatId := msgs];
    }

    /**
     * Appends the message to its chat's ledger (no de-duplication), makes it
     * that chat's preview, and re-sorts the chats newest first.
     */
    method AddMessage(m: Message)
      modifies this
      ensures messages == old(messages)[m.chatId := MessagesOf(old(messages), m.chatId) + [m]]
      ensures |MessagesOf(messages, m.chatId)| == |MessagesOf(old(messages), m.chatId)| + 1
      ensures forall id :: id != m.chatId ==> MessagesOf(messages, id) == MessagesOf(old(messages), id)
      ensures chats == AfterMessage(old(chats), m)
      ensures multiset(chats) == multiset(Previewed(old(chats), m))
      ensures NewestFirst(chats)
      ensures profile == old(profile)
    {
      var updatedMessages := MessagesOf(messages, m.chatId) + [m];
      var updatedChats := Previewed(chats, m);
      var sorted := SortedCopy(updatedChats);
      SortedPermutes(updatedChats);
      SortedIsNewestFirst(updatedChats);
      messages := messages[m.chatId := updatedMessages];
      chats := sorted;
    }
  }
}
