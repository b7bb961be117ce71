/**
 * The signed-in shell (`ChatLayout`): it seeds the store from the server's
 * initial rows, picks the first chat when nothing is selected, forwards every
 * pushed message insert to the cache and the store, and renders nothing
 * without a session.
 */
module ChatLayout {
  import opened Wrappers
  import opened Text
  import opened Schema
  import opened Display
  import opened MessageCache
  import opened ChatStore
  import opened RecencySort
  import Middleware

  /** A `chat_participants` row of the signed-in user with its chat joined. */
  datatype Membership = Membership(chatId: string, chat: Chat)

  /** `initialChats.map(chat => ({ ...chat.chats }))`: the joined chats, in order. */
  function StoreChats(initial: seq<Membership>): (cs: seq<Chat>)
    ensures |cs| == |initial|
    ensures forall i :: 0 <= i < |initial| ==> cs[i] == initial[i].chat
  {
    seq(|initial|, i requires 0 <= i < |initial| => initial[i].chat)
  }

  /** The selection the init effect leaves: an existing one stays, else the first membership's chat. */
  function InitialSelection(current: Option<string>, initial: Option<seq<Membership>>): (r: Option<string>)
    ensures Truthy(current) ==> r == current
    ensures initial.Some? && |initial.value| > 0 && !Truthy(current) ==> r == Some(initial.value[0].chatId)
    ensures r != current ==> initial.Some? && |initial.value| > 0 && r == Some(initial.value[0].chatId)
  {
    if initial.Some? && |initial.value| > 0 && !Truthy(current) then Some(initial.value[0].chatId)
    else current
  }

  /** Running the selection rule again changes nothing. */
  lemma InitialSelectionIdempotent(current: Option<string>, initial: Option<seq<Membership>>)
    ensures InitialSelection(InitialSelection(current, initial), initial) == InitialSelection(current, initial)
  {
  }

  /**
   * When the first membership points at its own chat and nothing usable is
   * selected, the chat picked first is one the store holds, so the thread and
   * the details panel find it.
   */
  lemma FirstSelectionIsFound(initial: seq<Membership>, current: Option<string>)
    requires |initial| > 0 && initial[0].chatId == initial[0].chat.id
    requires !Truthy(current)
    ensures FindChat(StoreChats(initial), InitialSelection(current, Some(initial))) == Some(initial[0].chat)
  {
    FindChatIsFirst(StoreChats(initial), initial[0].chatId, 0);
  }

  /** The session gate: render the shell, or render nothing and ask for `/login`. */
  datatype Gate = Render | BlankAndGo(path: string)

  function GateOf(hasSession: bool): (g: Gate)
    ensures g == Render <==> hasSession
    ensures g.BlankAndGo? ==> g.path == Middleware.LoginPath
  {
    if hasSession then Render else BlankAndGo(Middleware.LoginPath)
  }

  /**
   * The client gate and the edge guard agree on every non-login page when
   * they see the same session: the guard lets the request through exactly
   * when the shell renders, and both send a visitor without a session to the
   * same path.
   */
  lemma GateAgreesWithGuard(edgeSession: bool, clientSession: bool, url: Middleware.Url)
    requires edgeSession == clientSession
    requires !Middleware.IsLoginRoute(url.pathname)
    ensures Middleware.Guard(edgeSession, url) == Middleware.Next <==> GateOf(clientSession) == Render
    ensures !edgeSession ==>
              Middleware.Guard(edgeSession, url).location.pathname == GateOf(clientSession).path
  {
  }

  /**
   * The sessions differ while the client has not read its session yet: a
   * signed-in visitor whom the guard lets through gets a blank shell and a
   * push to `/login`, which the guard then sends on to `/chats`.
   */
  lemma SessionsDisagreeBeforeRead(url: Middleware.Url)
    requires !Middleware.IsLoginRoute(url.pathname)
    ensures Middleware.Guard(true, url) == Middleware.Next
    ensures GateOf(false) == BlankAndGo(Middleware.LoginPath)
    ensures Middleware.Guard(true, Middleware.WithPath(url, Middleware.LoginPath))
              == Middleware.Redirect(Middleware.WithPath(url, Middleware.ChatsPath))
  {
    assert Middleware.LoginPath[..|Middleware.LoginPath|] == Middleware.LoginPath;
  }

  class Layout {
    var selectedChatId: Option<string>
    const store: Store
    const cache: Cache
    const initialProfile: Option<Profile>
    const initialChats: Option<seq<Membership>>

    constructor (store: Store, cache: Cache, initialProfile: Option<Profile>, initialChats: Option<seq<Membership>>)
      ensures selectedChatId == None
      ensures this.store == store && this.cache == cache
      ensures this.initialProfile == initialProfile && this.initialChats == initialChats
    {
      selectedChatId := None;
      this.store := store;
      this.cache := cache;
      this.initialProfile := initialProfile;
      this.initialChats := initialChats;
    }

    /**
     * The init effect: store the initial profile if there is one, replace the
     * store's chats with the initial ones, and select the first chat only when
     * nothing is selected.
     */
    method RunInitEffect()
      modifies this, store
      ensures store.profile == if initialProfile.Some? then initialProfile else old(store.profile)
      ensures store.chats == if initialChats.Some? then StoreChats(initialChats.value) else old(store.chats)
      ensures store.messages == old(store.messages)
      ensures selectedChatId == InitialSelection(old(selectedChatId), initialChats)
    {
      if initialProfile.Some? {
        store.SetProfile(initialProfile.value);
      }
      if initialChats.Some? {
        store.SetChats(StoreChats(initialChats.value));
        if |initialChats.value| > 0 && !Truthy(selectedChatId) {
          selectedChatId := Some(initialChats.value[0].chatId);
        }
      }
    }

    /**
     * The mount: the init effect runs, and when it picked a chat the changed
     * selection, one of its dependencies, runs it once more.
     */
    method Mount()
      modifies this, store
      ensures store.profile == if initialProfile.Some? then initialProfile else old(store.profile)
      ensures store.chats == if initialChats.Some? then StoreChats(initialChats.value) else old(store.chats)
      ensures store.messages == old(store.messages)
      ensures selectedChatId == InitialSelection(old(selectedChatId), initialChats)
    {
      var before := selectedChatId;
      RunInitEffect();
      if selectedChatId != before {
        InitialSelectionIdempotent(before, initialChats);
        RunInitEffect();
      }
    }

    /**
     * `onSelectChat`, the state setter. Setting the chat already selected
     * changes nothing, so no effect runs. A new selection re-runs the init
     * effect, which lists it among its dependencies, so the store's chats go
     * back to the initial rows.
     */
    method SelectChat(chatId: string)
      modifies this, store
      ensures Some(chatId) == old(selectedChatId) ==>
                selectedChatId == old(selectedChatId) && store.chats == old(store.chats)
                && store.profile == old(store.profile)
      ensures Some(chatId) != old(selectedChatId) ==>
                selectedChatId == InitialSelection(Some(chatId), initialChats)
                && store.chats == (if initialChats.Some? then StoreChats(initialChats.value) else old(store.chats))
                && store.profile == (if initialProfile.Some? then initialProfile else old(store.profile))
      ensures chatId != "" ==> selectedChatId == Some(chatId)
      ensures store.messages == old(store.messages)
    {
      if Some(chatId) != selectedChatId {
        selectedChatId := Some(chatId);
        RunInitEffect();
      }
    }

    /**
     * A selection that leaves the init effect's seeding alone: only the
     * selection changes, so the store keeps what pushed messages did to it.
     */
    method SelectChatKeepingStore(chatId: string)
      modifies this
      ensures selectedChatId == Some(chatId)
    {
      selectedChatId := Some(chatId);
    }

    /**
     * The realtime INSERT handler: appends the message to the cached list of
     * its chat (an absent entry counts as empty), unless the cache read fails,
     * and hands it to `addMessage` whatever chat is selected.
     */
    method OnInsert(m: Message, readFailed: bool)
      modifies cache, store
      ensures readFailed ==> cache.entries == old(cache.entries)
      ensures !readFailed ==>
                cache.entries == old(cache.entries)[KeyFor(m.chatId) := old(cache.Get(KeyFor(m.chatId))).GetOr([]) + [m]]
      ensures forall k :: k != KeyFor(m.chatId) ==> cache.Get(k) == old(cache.Get(k))
      ensures store.messages == old(store.messages)[m.chatId := MessagesOf(old(store.messages), m.chatId) + [m]]
      ensures store.chats == AfterMessage(old(store.chats), m)
      ensures store.profile == old(store.profile)
      ensures selectedChatId == old(selectedChatId)
    {
      if !readFailed {
        var existing := cache.Get(KeyFor(m.chatId));
        cache.Set(KeyFor(m.chatId), existing.GetOr([]) + [m]);
      }
      store.AddMessage(m);
    }
  }

  /** A single chat with a pushed message takes that message as its preview. */
  lemma OnePreviewed(c: Chat, m: Message)
    requires m.chatId == c.id
    ensures AfterMessage([c], m) == [WithPreview(c, m)]
    ensures WithPreview(c, m).lastMessage == Some(m.content)
  {
    var x := WithPreview(c, m);
    assert Previewed([c], m) == [x];
    assert [x][..0] == [];
    assert InsertionSorted([x]) == Insert([], x) == [x];
  }

  /**
   * As written: with two initial chats, the mount selects the first; a
   * message pushed to it previews it; selecting the second chat re-seeds the
   * store with the server's rows, so the preview is gone.
   */
  method PushThenSelectExample(c1: Chat, c2: Chat, m: Message) returns (afterPush: seq<Chat>, afterSelect: seq<Chat>)
    requires c1.id != c2.id && m.chatId == c1.id
    requires c1.lastMessage != Some(m.content)
    ensures WithPreview(c1, m) in afterPush
    ensures afterSelect == [c1, c2]
    ensures WithPreview(c1, m) !in afterSelect
  {
    var store := new Store();
    var cache := new Cache();
    var layout := new Layout(store, cache, None, Some([Membership(c1.id, c1), Membership(c2.id, c2)]));
    layout.Mount();
    assert StoreChats([Membership(c1.id, c1), Membership(c2.id, c2)]) == [c1, c2];
    assert layout.selectedChatId == Some(c1.id);
    layout.OnInsert(m, false);
    AfterMessageFacts([c1, c2], m);
    afterPush := store.chats;
    layout.SelectChat(c2.id);
    afterSelect := store.chats;
    assert WithPreview(c1, m).lastMessage == Some(m.content);
  }

  /** With a selection that does not re-seed the store, the pushed preview survives the switch. */
  method PushThenSelectKeepingStoreExample(c1: Chat, c2: Chat, m: Message) returns (afterPush: seq<Chat>, afterSelect: seq<Chat>)
    requires c1.id != c2.id && m.chatId == c1.id
    ensures WithPreview(c1, m) in afterPush
    ensures afterSelect == afterPush
    ensures WithPreview(c1, m) in afterSelect
  {
    var store := new Store();
    var cache := new Cache();
    var layout := new Layout(store, cache, None, Some([Membership(c1.id, c1), Membership(c2.id, c2)]));
    layout.Mount();
    assert StoreChats([Membership(c1.id, c1), Membership(c2.id, c2)]) == [c1, c2];
    layout.OnInsert(m, false);
    AfterMessageFacts([c1, c2], m);
    afterPush := store.chats;
    layout.SelectChatKeepingStore(c2.id);
    afterSelect := store.chats;
  }
}
