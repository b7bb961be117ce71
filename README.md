# Chat client core, modelled in Dafny

This project models the client-side logic of a small chat application built
on Next.js, a zustand store and a hosted backend (auth, tables, realtime
inserts), with IndexedDB as a local message cache. It covers:

- **the client state store** (`stores/chat-store.ts`). This is a `Store` class with `profile`, `chats` and
  `messages`, and the six actions. `addMessage` appends to one chat's ledger,
  rewrites that chat's preview, and re-sorts the chat list newest first. The
  sort is an in-place insertion sort on an array (`RecencySort.SortNewestFirst`).
  It is proved equal to a reference definition, and that definition is proved
  ordered, a permutation, stable, and the only stable arrangement;
- **the conversation list** (`components/chat/chat-sidebar.tsx`). This covers the search and
  label filters, the deduplicated label chips, chip toggling, the badge colour
  table, and the three pieces of component state;
- **the edge route guard** (`middleware.ts`) and its path matcher;
- **the message thread** (`components/chat/chat-messages.tsx`). This covers the selection effect,
  the cache read, the fetch continuation, and the send guard with the row it builds.
  Each `await` splits a handler into a step before it and a step after it;
- **the layout shell** (`components/chat/chat-layout.tsx`). This covers seeding the store, the
  first-chat selection, the realtime insert handler and the session gate;
- **the details panel** (`components/chat/chat-details.tsx`). This covers label extraction, display
  defaults and the two dialog flags;
- **the sign-in page** (`app/login/page.tsx`). This covers the zod length rules and the
  login and sign-up control flow.

Shared modules:

- `Wrappers` holds `Option`.
- `Text` holds the JavaScript string built-ins the code relies on: `toLowerCase` and `toUpperCase` on
  ASCII letters, `includes`, `startsWith`, one-character `split`, `join`, `trim`
  with the ECMAScript whitespace set, and `.length` in UTF-16 code units.
- `Schema` holds the row types of `lib/supabase/schema.ts`, with integer timestamps and
  `Option` for nullable columns.
- `Display` holds `getInitials` and `getChatName`, together with `chats.find` by id.
  The sidebar, the thread header and the details panel each define `getInitials`
  identically. The sidebar and the thread header each define `getChatName`; the
  details panel has none. Each helper is defined once here.
- `MessageCache` is the `idb-keyval` store, a class over
  `map<string, seq<Message>>` keyed `"chat_messages_" + chatId`.

The backend's answers and the clock are parameters:

- an insert error is `Option<string>`;
- a fetch outcome is `FetchOutcome`;
- the signed-in user is `Option<string>`;
- `now` is a timestamp.

The zod email check is the function parameter `isEmail`.

Where the code and its design description disagree, the model follows the code:

- The composer is cleared only after the insert succeeds (`chat-messages.tsx:117`). A failed send keeps the typed text.
- A pushed insert does not touch the thread's own `messages` list. The realtime handler (`chat-layout.tsx:85-93`) only writes the cache and calls `addMessage`.
- Nothing de-duplicates messages by id: not the store, not the cache append, not the fetch.
- A null `last_message_at` sorts as the epoch, not strictly last. A chat last messaged before 1970 sorts after an unmessaged one (`RecencySort.NullIsEpochNotOldest`).

## Model

| member | source | states |
|---|---|---|
| `ChatStore.Merge` | stores/chat-store.ts:56 | `{ ...chat, ...data }`: each present key of the patch overrides the chat's field |
| `ChatStore.Patched` | stores/chat-store.ts:54-58 | `updateChat`'s map: merge into the chats with that id; `ChatStore.PatchedKeepsOrder` proves it never reorders |
| `ChatStore.MessagesOf` | stores/chat-store.ts:64 | a chat's ledger, or the empty list when there is none |
| `ChatStore.WithPreview` | stores/chat-store.ts:68-77 | the message becomes the preview of its own chat; other chats are unchanged |
| `ChatStore.Previewed` | stores/chat-store.ts:68-77 | the preview applied to every chat; `ChatStore.PreviewedMembers` states its members |
| `ChatStore.AfterMessage` | stores/chat-store.ts:62-93 | the chat list `addMessage` leaves; `ChatStore.AfterMessageFacts` and `AfterMessageStable` state what it is |
| `ChatStore.Store.constructor` | stores/chat-store.ts:46-48 | the store starts with no profile, no chats and an empty ledger map |
| `ChatStore.Store.SetProfile` | stores/chat-store.ts:49 | replaces the profile and nothing else |
| `ChatStore.Store.SetChats` | stores/chat-store.ts:50 | replaces the chat list and nothing else |
| `ChatStore.Store.AddChat` | stores/chat-store.ts:51-53 | the new chat is at index 0, the old list follows shifted by one, other fields unchanged |
| `ChatStore.Store.UpdateChat` | stores/chat-store.ts:54-58 | same length and order; chats with the id get the patch merged over them, all others are untouched |
| `ChatStore.Store.SetMessages` | stores/chat-store.ts:59-61 | replaces exactly one ledger key; every other chat's ledger and the other fields are unchanged |
| `ChatStore.Store.AddMessage` | stores/chat-store.ts:62-93 | the message is appended (no de-duplication) to its chat's ledger, a missing ledger counting as empty, which grows by one; other ledgers and the profile unchanged; the chats become the previewed list stably sorted, a permutation of it, newest first |
| `ChatStore.SortedMembers` | stores/chat-store.ts:80-84 | sorting the chat list keeps its length and holds exactly the chats it was given |
| `ChatStore.PreviewedMembers` | stores/chat-store.ts:68-77 | the preview map puts the message's content and time on every chat of its id, leaves every other chat unchanged, and maps every old chat |
| `ChatStore.AfterMessageFacts` | stores/chat-store.ts:68-84 | after `addMessage` the list keeps its length, is newest first, every chat of the message's id carries the new preview, every other chat is an old one, and no chat is lost |
| `ChatStore.AfterMessageStable` | stores/chat-store.ts:80-84 | chats of equal recency keep the relative order they had before the sort |
| `ChatStore.PatchedKeepsOrder` | stores/chat-store.ts:54-58 | `updateChat` does not re-sort; a patch that leaves `last_message_at` alone keeps a newest-first list newest first |
| `ChatStore.SortedCopy` | stores/chat-store.ts:80-84 | sorting the copied array in place yields the reference stable sort |
| `RecencySort.Recency` | stores/chat-store.ts:81-82 | a chat's sort key: its last message time, or 0 for null |
| `RecencySort.Compare` | stores/chat-store.ts:80-84 | the comparator `dateB - dateA`: negative when the first chat is newer |
| `RecencySort.NewestFirst` | stores/chat-store.ts:80-84 | the order the comparator asks for: recency never increases along the list |
| `RecencySort.Insert` | stores/chat-store.ts:80-84 | one insertion step of a stable sort; `RecencySort.InsertPermutes`, `InsertKeepsOrder` and `InsertStable` state what it does |
| `RecencySort.InsertionSorted` | stores/chat-store.ts:80-84 | the reference stable sort; `SortedPermutes`, `SortedIsNewestFirst`, `SortedIsStable` and `StableSortIsUnique` state what it is |
| `RecencySort.WithRecency` | stores/chat-store.ts:80-84 | the chats of one recency in list order, the groups a stable sort must keep in order |
| `RecencySort.InsertPermutes` | stores/chat-store.ts:80-84 | inserting adds exactly the inserted chat to the multiset |
| `RecencySort.SortedPermutes` | stores/chat-store.ts:80-84 | the sort is a permutation of its input |
| `RecencySort.InsertKeepsOrder` | stores/chat-store.ts:80-84 | inserting into a newest-first list keeps it newest first |
| `RecencySort.SortedIsNewestFirst` | stores/chat-store.ts:80-84 | the result is non-increasing by `last_message_at`, null as 0 |
| `RecencySort.WithRecencySnoc` | stores/chat-store.ts:80-84 | appending a chat extends only its own recency group |
| `RecencySort.InsertStable` | stores/chat-store.ts:80-84 | inserting puts the chat last in its recency group and leaves other groups unchanged |
| `RecencySort.SortedIsStable` | stores/chat-store.ts:80-84 | every recency group keeps its input order, as JavaScript's stable sort guarantees |
| `RecencySort.WithRecencyMembers` | stores/chat-store.ts:80-84 | a recency group holds only chats of the list with that recency |
| `RecencySort.LastHasGroup` | stores/chat-store.ts:80-84 | the last chat of a non-empty list belongs to a non-empty group |
| `RecencySort.LastIsOldest` | stores/chat-store.ts:80-84 | in a newest-first list the last chat has the least recency |
| `RecencySort.DropLastGroup` | stores/chat-store.ts:80-84 | dropping the last chat shortens its own group by one and no other |
| `RecencySort.SameGroupsSameList` | stores/chat-store.ts:80-84 | two newest-first lists with equal recency groups are equal |
| `RecencySort.StableSortIsUnique` | stores/chat-store.ts:80-84 | any newest-first arrangement that keeps each group in input order is the reference sort, so the model's sort is the only stable result |
| `RecencySort.NullSortsLastExample` | stores/chat-store.ts:80-84 | chats with null, `t2` and `t1` (`t2 > t1 > 0`) sort to the `t2` chat, the `t1` chat, then the null one |
| `RecencySort.NullIsEpochNotOldest` | stores/chat-store.ts:81-82 | a null timestamp counts as 0, so it sorts before a negative timestamp |
| `RecencySort.InsertLandsAt` | stores/chat-store.ts:80-84 | the inserted chat lands after the last chat the comparator does not put behind it |
| `RecencySort.InsertAt` | stores/chat-store.ts:80-84 | the in-place step turns the array prefix into the reference insertion and leaves the suffix alone |
| `RecencySort.SortNewestFirst` | stores/chat-store.ts:80-84 | the in-place sort leaves exactly the reference stable sort of the old array |
| `Display.MemberName` | components/chat/chat-sidebar.tsx:38 | a participant's display name, or "Unknown User"; `Display.MemberNameNonEmpty` proves it is never empty |
| `Display.ChatName` | components/chat/chat-sidebar.tsx:33-40 | `getChatName`: a truthy name, else the member names joined by ", "; `Display.ChatNameEmptyIff` says when it is empty |
| `Display.FirstChars` | components/chat/chat-sidebar.tsx:28-29 | `map(n => n[0]).join('')`: the first character of every non-empty piece |
| `Display.Initials` | components/chat/chat-sidebar.tsx:25-31 | `getInitials`; `Display.InitialsOfWord` and `Display.InitialsAppend` fix its value word by word |
| `Display.ChatAvatarInitials` | components/chat/chat-sidebar.tsx:171 | the avatar fallback: initials of the name's first comma piece, or of "Chat" |
| `Display.MemberNames` | components/chat/chat-sidebar.tsx:36-39 | one name per participant link, in order, each the display name or "Unknown User" |
| `Display.MemberNameNonEmpty` | components/chat/chat-sidebar.tsx:38 | a participant's shown name is never empty |
| `Display.JoinEmptyIff` | components/chat/chat-sidebar.tsx:37-39 | joining non-empty names is empty only for no names |
| `Display.ChatNameEmptyIff` | components/chat/chat-sidebar.tsx:33-40 | the chat name is empty exactly when the chat has no truthy name and no participants |
| `Display.FirstCharsAppend` | components/chat/chat-sidebar.tsx:28-29 | first characters of pieces concatenate piecewise |
| `Display.InitialsOfWord` | components/chat/chat-sidebar.tsx:25-31 | a word without spaces gives its upper-cased first character, an empty word nothing |
| `Display.SplitOfWord` | components/chat/chat-sidebar.tsx:27 | a word without spaces splits into itself |
| `Display.InitialsAppend` | components/chat/chat-sidebar.tsx:25-31 | words separated by one space give their initials in order |
| `Display.FindChat` | components/chat/chat-details.tsx:22 | finds a chat exactly when one has the id; the found chat is in the list and has that id |
| `Display.FindChatIsFirst` | components/chat/chat-messages.tsx:32 | `find` returns the chat at the first matching index |
| `ChatSidebar.LabelName` | components/chat/chat-sidebar.tsx:57 | a link's label name, or "" when the label row is missing |
| `ChatSidebar.HasLabel` | components/chat/chat-sidebar.tsx:71-73 | a chat has a label link with that name |
| `ChatSidebar.AllNames` | components/chat/chat-sidebar.tsx:56-57 | the `flatMap` of every chat's label names; `ChatSidebar.AllNamesMembers` states its members |
| `ChatSidebar.NonEmpty` | components/chat/chat-sidebar.tsx:58 | `filter(Boolean)` on names; `ChatSidebar.NonEmptyMembers` states its members |
| `ChatSidebar.Dedup` | components/chat/chat-sidebar.tsx:54-55 | `Array.from(new Set(...))`; `ChatSidebar.DedupFacts` and `DedupFirstOccurrenceOrder` state what it keeps |
| `ChatSidebar.AllLabels` | components/chat/chat-sidebar.tsx:54-60 | `allLabels`; `ChatSidebar.AllLabelsFacts` states what the chips are |
| `ChatSidebar.Toggled` | components/chat/chat-sidebar.tsx:78-84 | `toggleLabel`'s update: remove the chip if present, else append it; `ToggledMembers` and `ToggleTwice` state its effect |
| `ChatSidebar.MatchesSearch` | components/chat/chat-sidebar.tsx:64-67 | the search filter: an empty term, or a case-blind substring of the name or the preview |
| `ChatSidebar.MatchesLabels` | components/chat/chat-sidebar.tsx:70-73 | the label filter: no chip selected, or some link's name is selected |
| `ChatSidebar.Keeps` | components/chat/chat-sidebar.tsx:75 | a chat stays in the list when it passes both filters |
| `ChatSidebar.BadgeColor` | components/chat/chat-sidebar.tsx:42-52 | `getBadgeColor`: five mapped names, gray otherwise; `ChatSidebar.BadgeGrayIff` states when it is gray |
| `ChatSidebar.RowAvatar` | components/chat/chat-sidebar.tsx:170 | the row avatar: none for a group, else the first participant's truthy avatar |
| `ChatSidebar.RowOf` | components/chat/chat-sidebar.tsx:154-199 | one list row; `ChatSidebar.RowFacts` states each field |
| `ChatSidebar.LabelNames` | components/chat/chat-sidebar.tsx:156 | one name per label link, in order, a missing label row giving "" |
| `ChatSidebar.NonEmptyMembers` | components/chat/chat-sidebar.tsx:58 | `filter(Boolean)` keeps exactly the non-empty names |
| `ChatSidebar.DedupFacts` | components/chat/chat-sidebar.tsx:55 | `Array.from(new Set(...))` keeps exactly the input's values, each once |
| `ChatSidebar.DedupOfDistinct` | components/chat/chat-sidebar.tsx:55 | a list without repetitions passes through unchanged |
| `ChatSidebar.DedupFirstOccurrenceOrder` | components/chat/chat-sidebar.tsx:55 | the kept values appear in the order of their first occurrences |
| `ChatSidebar.AllNamesMembers` | components/chat/chat-sidebar.tsx:56-57 | a name is collected exactly when some chat has a label link with that name |
| `ChatSidebar.AllLabelsFacts` | components/chat/chat-sidebar.tsx:54-60 | the chips have no duplicates and no empty name, are in first-occurrence order, and are exactly the non-empty label names some chat carries |
| `ChatSidebar.Without` | components/chat/chat-sidebar.tsx:81 | removes every copy of the chip and keeps all other entries; the length drops by the chip's number of copies |
| `ChatSidebar.WithoutAppend` | components/chat/chat-sidebar.tsx:81 | removal splits over concatenation, so the other entries keep their order and their copies |
| `ChatSidebar.WithoutKeepsDistinct` | components/chat/chat-sidebar.tsx:81 | removing from a duplicate-free list keeps it duplicate-free |
| `ChatSidebar.ToggledMembers` | components/chat/chat-sidebar.tsx:78-84 | toggling flips the chip's own membership and no other |
| `ChatSidebar.ToggledKeepsDistinct` | components/chat/chat-sidebar.tsx:78-84 | toggling keeps a duplicate-free selection duplicate-free |
| `ChatSidebar.ToggleTwice` | components/chat/chat-sidebar.tsx:78-84 | selecting an absent chip and deselecting it restores the selection |
| `ChatSidebar.Filtered` | components/chat/chat-sidebar.tsx:62-76 | the listed chats are never more than the store's |
| `ChatSidebar.FilteredMembers` | components/chat/chat-sidebar.tsx:62-76 | a chat is listed exactly when it is in the store and passes search AND label filter |
| `ChatSidebar.FilteredAppend` | components/chat/chat-sidebar.tsx:62 | filtering splits over concatenation: the listed chats are an order-preserving subsequence |
| `ChatSidebar.NoFilterListsAll` | components/chat/chat-sidebar.tsx:65-70 | with an empty search and no selected label every chat is listed, in order |
| `ChatSidebar.SearchIsSubstring` | components/chat/chat-sidebar.tsx:64-67 | a non-empty term matches exactly when its lower-cased form occurs in the lower-cased name or preview (null preview as "") |
| `ChatSidebar.EmptyTermIsSubstring` | components/chat/chat-sidebar.tsx:65 | the empty term occurs in every name, so its shortcut agrees with `includes` |
| `ChatSidebar.SingleChipListsItsChats` | components/chat/chat-sidebar.tsx:70-73 | selecting one offered chip alone lists every chat carrying it, so never nothing |
| `ChatSidebar.BadgeGrayIff` | components/chat/chat-sidebar.tsx:42-52 | a badge is gray exactly when its name is not one of the five mapped names |
| `ChatSidebar.RowFacts` | components/chat/chat-sidebar.tsx:154-199 | a row carries the chat's id, its `getChatName` title and avatar initials, is highlighted exactly when selected, shows `last_message_at` else `created_at`, a preview or "No messages yet", one badge per label link, and an avatar only for non-group chats |
| `ChatSidebar.Rows` | components/chat/chat-sidebar.tsx:154 | one row per listed chat, in list order, each the row of that chat |
| `ChatSidebar.Sidebar.constructor` | components/chat/chat-sidebar.tsx:20-22 | empty search, closed filter panel, no selected label |
| `ChatSidebar.Sidebar.Visible` | components/chat/chat-sidebar.tsx:62-76 | the shown chats are exactly those passing the current search and selection |
| `ChatSidebar.Sidebar.SetSearchTerm` | components/chat/chat-sidebar.tsx:118 | sets the term only, keeping the selection duplicate-free |
| `ChatSidebar.Sidebar.ToggleFilters` | components/chat/chat-sidebar.tsx:124 | flips the panel flag only, keeping the selection duplicate-free |
| `ChatSidebar.Sidebar.ToggleLabel` | components/chat/chat-sidebar.tsx:78-84 | the chip's membership flips, others keep theirs, the selection stays duplicate-free, and it grows or shrinks by exactly one entry |
| `ChatSidebar.WithoutDropsOne` | components/chat/chat-sidebar.tsx:81 | removing a chip from a duplicate-free selection removes exactly one entry |
| `Middleware.IsLoginRoute` | middleware.ts:14 | `pathname.startsWith('/login')`, a prefix test |
| `Middleware.WithPath` | middleware.ts:15-16 | `nextUrl.clone()` with only the pathname reassigned |
| `Middleware.Guard` | middleware.ts:14-27 | the guard's answer; `Middleware.PassesIff`, `RedirectTarget` and `NoRedirectLoop` state what it does |
| `Middleware.Matched` | middleware.ts:30-32 | the matcher: every path except the build assets and `favicon.ico` |
| `Middleware.Edge` | middleware.ts:5-32 | unmatched paths pass untouched, matched ones go through the guard; `Middleware.AssetsBypassGuard` and `RedirectTargetsAreMatched` state how the two meet |
| `Middleware.PassesIff` | middleware.ts:14-27 | a request passes exactly when having a session and asking for a `/login` path disagree, so exactly one outcome holds |
| `Middleware.RedirectTarget` | middleware.ts:14-25 | a redirect goes to `/login` without a session and to `/chats` with one, keeping every URL component except the pathname |
| `Middleware.NoRedirectLoop` | middleware.ts:14-27 | following a redirect with the same session passes |
| `Middleware.LoginPrefixExamples` | middleware.ts:14 | `/login/x` and `/loginx` count as the login route, `/logi` and `/chats` do not |
| `Middleware.AssetsBypassGuard` | middleware.ts:30-32 | paths under `/_next/static`, `/_next/image` and `/favicon?ico` never reach the guard |
| `Middleware.RedirectTargetsAreMatched` | middleware.ts:14-32 | both redirect targets are matched paths, so the guard runs on them |
| `ChatMessages.IsOwnMessage` | components/chat/chat-messages.tsx:196 | a bubble is own when a session exists and its user sent the message; `ChatMessages.IsOwnIff` restates it as an equivalence |
| `ChatMessages.Outgoing` | components/chat/chat-messages.tsx:92-102 | no row without a truthy selected chat, without a session, or for whitespace-only text; else the untrimmed text, the chat, the session user, unread |
| `ChatMessages.IsOwnIff` | components/chat/chat-messages.tsx:196 | a message is own exactly when a session exists and its user sent it |
| `ChatMessages.SentIsOwn` | components/chat/chat-messages.tsx:100 | a stored row of a sent message is seen as own by its sender |
| `ChatMessages.ShowsThread` | components/chat/chat-messages.tsx:130 | the thread shows exactly for a truthy selection the store holds |
| `ChatMessages.ParticipantName` | components/chat/chat-messages.tsx:170-171 | a participant contributes their raw display name, or "" when the profile or the name is missing |
| `ChatMessages.Subtitle` | components/chat/chat-messages.tsx:170-171 | no participants give an empty line; one participant gives their name |
| `ChatMessages.SubtitleCons` | components/chat/chat-messages.tsx:170-171 | with two or more participants the line is the first name, ", ", and the line of the rest |
| `ChatMessages.PaneOf` | components/chat/chat-messages.tsx:190-194 | loading wins; otherwise "No messages yet" exactly for an empty list, else the messages |
| `ChatMessages.Thread.constructor` | components/chat/chat-messages.tsx:25-27 | empty thread, not loading, not sending, empty composer |
| `ChatMessages.Thread.Pane` | components/chat/chat-messages.tsx:190-194 | the spinner exactly while loading; otherwise "No messages yet" exactly for an empty list, else the thread's messages |
| `ChatMessages.Thread.OnSelectionChange` | components/chat/chat-messages.tsx:38-58 | with a truthy selection and a session the loading flag rises and the cache is read; otherwise the thread becomes empty |
| `ChatMessages.Thread.OnCacheRead` | components/chat/chat-messages.tsx:43-54 | a stored list, even an empty one, is shown at once and ends loading; a miss or failed read changes nothing |
| `ChatMessages.Thread.OnFetched` | components/chat/chat-messages.tsx:60-89 | data replaces the thread and is cached under `"chat_messages_" + id`; an error or null data keeps the thread; loading ends on every path after the guard |
| `ChatMessages.Thread.Edit` | components/chat/chat-messages.tsx:241-246 | the composer changes only while no send is in flight |
| `ChatMessages.Thread.BeginSend` | components/chat/chat-messages.tsx:91-94 | returns the guarded row; the sending flag rises only for a row; the thread is untouched |
| `ChatMessages.Thread.FinishSend` | components/chat/chat-messages.tsx:104-122 | a failed insert keeps the text; a successful one clears it and yields the chat's new preview; sending ends either way; the thread is untouched |
| `ChatMessages.CachedThenFetchedExample` | components/chat/chat-messages.tsx:38-89 | cached `[a, b]` then fetched `[a, b, c]` ends showing and caching `[a, b, c]`, not loading |
| `ChatLayout.StoreChats` | components/chat/chat-layout.tsx:65-67 | the store gets the memberships' joined chats, same length, same order |
| `ChatLayout.InitialSelection` | components/chat/chat-layout.tsx:69-71 | a truthy selection is never overwritten; with memberships and nothing usable selected the first membership's chat is selected; a change only ever selects that chat |
| `ChatLayout.InitialSelectionIdempotent` | components/chat/chat-layout.tsx:69-71 | running the rule twice equals running it once |
| `ChatLayout.FirstSelectionIsFound` | components/chat/chat-layout.tsx:69-71 | when the first membership points at its chat and nothing usable is selected, the chat picked is one the store holds |
| `ChatLayout.GateOf` | components/chat/chat-layout.tsx:53-57 | renders exactly with a session; otherwise renders nothing and asks for `/login` |
| `ChatLayout.GateAgreesWithGuard` | components/chat/chat-layout.tsx:102 | given the same session for the edge and the client, on every non-login page the edge guard passes exactly when the shell renders, and both send a visitor without a session to `/login` |
| `ChatLayout.SessionsDisagreeBeforeRead` | components/chat/chat-layout.tsx:53-57 | while the client session is still null, a signed-in visitor passes the guard but gets a blank shell and a push to `/login`, which the guard sends on to `/chats` |
| `ChatLayout.Layout.constructor` | components/chat/chat-layout.tsx:47-51 | nothing is selected at mount |
| `ChatLayout.Layout.RunInitEffect` | components/chat/chat-layout.tsx:59-73 | stores the profile if given, reseeds the chats from the initial rows if given, and selects the first chat only when nothing is selected |
| `ChatLayout.Layout.Mount` | components/chat/chat-layout.tsx:59-73 | the mount seeds the store and applies the selection rule; the re-run its own selection triggers changes nothing further |
| `ChatLayout.Layout.SelectChat` | components/chat/chat-layout.tsx:73 | re-selecting the selected chat changes nothing; a new selection re-runs the init effect, so the store's chats return to the initial rows |
| `ChatLayout.Layout.SelectChatKeepingStore` | components/chat/chat-layout.tsx:107 | a selection that changes nothing but the selection |
| `ChatLayout.Layout.OnInsert` | components/chat/chat-layout.tsx:85-93 | the cache entry becomes the old entry (or empty) plus the message, other keys unchanged; `addMessage` runs whatever is selected |
| `ChatLayout.OnePreviewed` | stores/chat-store.ts:68-84 | a one-chat list takes a pushed message as its preview |
| `ChatLayout.PushThenSelectExample` | components/chat/chat-layout.tsx:59-73 | as written, with two chats, a preview pushed to the selected one is lost when the user switches to the other |
| `ChatLayout.PushThenSelectKeepingStoreExample` | components/chat/chat-layout.tsx:85-93 | with a selection that does not reseed, the pushed preview survives the switch |
| `ChatDetails.MemberRowOf` | components/chat/chat-details.tsx:80-97 | one member line; `ChatDetails.MemberRowDefaults` states its fallbacks |
| `ChatDetails.ViewOf` | components/chat/chat-details.tsx:22-138 | the panel for the selection; `ChatDetails.ViewFacts` states what it shows |
| `ChatDetails.PresentLabels` | components/chat/chat-details.tsx:35 | no more labels than links |
| `ChatDetails.PresentLabelsMembers` | components/chat/chat-details.tsx:35 | a label is listed exactly when a link carries it |
| `ChatDetails.PresentLabelsAppend` | components/chat/chat-details.tsx:35 | extraction splits over concatenation, so the links' order is kept |
| `ChatDetails.PresentLabelsEmptyIff` | components/chat/chat-details.tsx:136-138 | the list is empty exactly when every link's label row is missing |
| `ChatDetails.MemberRowDefaults` | components/chat/chat-details.tsx:83-93 | defaults: name "Unknown User", initials "U" (from "User"), phone "", no avatar for a falsy URL |
| `ChatDetails.BadgeOf` | components/chat/chat-details.tsx:131-133 | the colour is the label's, or "#888" when empty; the name is kept |
| `ChatDetails.ViewFacts` | components/chat/chat-details.tsx:22-138 | the placeholder exactly when no chat has the id; otherwise one row per participant, one badge per present label, in order, each that label's badge, and "No labels" exactly when no label row exists |
| `ChatDetails.Dialogs.constructor` | components/chat/chat-details.tsx:18-19 | both dialogs start closed |
| `ChatDetails.Dialogs.SetAddMemberOpen` | components/chat/chat-details.tsx:62 | sets its own flag only; no chat data is in its frame |
| `ChatDetails.Dialogs.SetAddLabelOpen` | components/chat/chat-details.tsx:109 | sets its own flag only; no chat data is in its frame |
| `LoginPage.LoginValid` | app/login/page.tsx:35-40 | `loginSchema`: an email and a password of at least six UTF-16 code units |
| `LoginPage.SignupValid` | app/login/page.tsx:42-45 | `signupSchema`: the login rules plus a name of at least two and a phone of at least ten code units |
| `LoginPage.SignupThenLoginExample` | app/login/page.tsx:42-45 | a valid sign-up inserts its profile row and lands on `/chats`, and the same email and password then pass the login form and land on `/chats` too |
| `LoginPage.BmpLengthRules` | app/login/page.tsx:35-45 | for BMP text, valid sign-up means email check, password ≥ 6, name ≥ 2 and phone ≥ 10 characters |
| `LoginPage.PhoneIsNotCheckedForDigits` | app/login/page.tsx:44 | ten letters pass as a phone number |
| `LoginPage.Page.constructor` | app/login/page.tsx:56 | not loading, no toast, no navigation |
| `LoginPage.Page.BeginLogin` | app/login/page.tsx:79-80 | only schema-valid values are submitted, and submitting raises the loading flag |
| `LoginPage.Page.FinishLogin` | app/login/page.tsx:82-108 | navigates to `/chats` exactly without an error, shows the matching toast, and loading ends |
| `LoginPage.Page.BeginSignup` | app/login/page.tsx:111-112 | only schema-valid values are submitted, and submitting raises the loading flag |
| `LoginPage.Page.FinishSignup` | app/login/page.tsx:114-156 | a sign-up error stops before any insert; the profile row (user id, name, phone) is inserted exactly when a user is returned; navigation only after the whole sequence succeeds; loading ends on every path |
| `MessageCache.KeyFor` | components/chat/chat-messages.tsx:43 | the cache key `chat_messages_` followed by the chat id |
| `MessageCache.Cache.constructor` | components/chat/chat-messages.tsx:43 | an empty store: no key holds a list |
| `MessageCache.KeyForInjective` | components/chat/chat-messages.tsx:43 | distinct chats never share a cache key |
| `MessageCache.Cache.Get` | components/chat/chat-layout.tsx:87-88 | a value exactly for stored keys, the stored one |
| `MessageCache.Cache.Set` | components/chat/chat-messages.tsx:82 | replaces exactly one key |
| `Text.Truthy` | components/chat/chat-sidebar.tsx:34 | a nullable string is truthy exactly when present and non-empty |
| `Text.OrElse` | components/chat/chat-sidebar.tsx:38 | `x || fallback` on a nullable string: the value when truthy, else the fallback |
| `Text.Lower` | components/chat/chat-sidebar.tsx:66 | `toLowerCase` on ASCII letters, character by character |
| `Text.Upper` | components/chat/chat-sidebar.tsx:30 | `toUpperCase` on ASCII letters; `Text.UpperAppend` proves it splits over concatenation |
| `Text.StartsWith` | middleware.ts:14 | `startsWith`: the prefix test |
| `Text.Includes` | components/chat/chat-sidebar.tsx:66 | `includes`; `Text.IncludesIffOccurs` proves it means an occurrence at some offset |
| `Text.Join` | components/chat/chat-sidebar.tsx:39 | `join(sep)`: pieces with the separator between them; `Text.JoinSplit` proves it inverts `Text.Split` |
| `Text.IsJsWhitespace` | components/chat/chat-messages.tsx:92 | the ECMAScript white-space and line-terminator characters that `trim` removes |
| `Text.Blank` | components/chat/chat-messages.tsx:92 | a string made only of such characters |
| `Text.Trim` | components/chat/chat-messages.tsx:92 | `trim()`; `Text.TrimEmptyIffBlank` proves it is empty exactly for blank text |
| `Text.UpperAppend` | components/chat/chat-sidebar.tsx:30 | upper-casing distributes over concatenation |
| `Text.IncludesIffOccurs` | components/chat/chat-sidebar.tsx:66-67 | `includes` is substring containment at some index |
| `Text.Split` | components/chat/chat-sidebar.tsx:27 | a split has at least one piece |
| `Text.SplitPiecesAvoidSeparator` | components/chat/chat-sidebar.tsx:27 | no piece contains the separator |
| `Text.JoinSplit` | components/chat/chat-sidebar.tsx:27-29 | joining a split with its separator gives back the string |
| `Text.SplitAppend` | components/chat/chat-sidebar.tsx:27 | splitting at a separator splits the pieces there |
| `Text.TrimStart` | components/chat/chat-messages.tsx:92 | drops a blank prefix and leaves no leading whitespace |
| `Text.TrimEnd` | components/chat/chat-messages.tsx:92 | drops a blank suffix and leaves no trailing whitespace |
| `Text.TrimEmptyIffBlank` | components/chat/chat-messages.tsx:92 | `trim()` is empty exactly for whitespace-only text |
| `Text.Utf16Length` | app/login/page.tsx:39 | one character above U+FFFF counts 2, any other counts 1; BMP text counts its characters; the count lies between the character count and twice it |
| `Text.Utf16LengthAppend` | app/login/page.tsx:39 | the count adds up over concatenation, so together with the one-character case it is fixed for every string |

## Findings

| source | as written | input that shows it | evidently intended | confidence | as-written member | corrected member |
|---|---|---|---|---|---|---|
| components/chat/chat-layout.tsx:59-73 | the init effect lists `selectedChatId` among its dependencies, so every change of selection re-runs `setChats` with the server's initial rows | two initial chats `c1`, `c2`; the mount selects `c1`; a message for `c1` is pushed and previews it; the user then selects `c2`; the store again holds `[c1, c2]`, `c1` without the preview | the initial rows seed the store once; a selection changes only the selection | medium, not executed | `ChatLayout.PushThenSelectExample` | `ChatLayout.PushThenSelectKeepingStoreExample` |

## Left out

- Backend SDK calls (auth, table queries, the realtime channel's subscribe and remove): their answers are method parameters. The fetch's `order('created_at')` on the server is assumed, not proved.
- The second `chats` update after a send (`chat-messages.tsx:109-115`): `FinishSend` returns it as data. Its error is not checked by the code, so it is not modelled.
- Races between the cache read, the fetch and pushed events: each transition runs atomically. In particular, the cache write of the realtime handler is modelled as happening before `addMessage`, although the code starts it first and finishes it later.
- A stale fetch continuation for an earlier selection: `OnFetched` takes the selection it closed over as a parameter. The interleaving itself is not modelled.
- React's render scheduling: an effect is modelled as running once per change of its dependencies, and a state setter called with the current value as changing nothing (`Layout.Mount`, `Layout.SelectChat`). Strict-mode double effects are not modelled.
- Date parsing and `date-fns` formatting: timestamps are integers, so an unparsable date string (NaN in the comparator) is not modelled.
- A `Partial<Chat>` key explicitly set to `undefined` overrides the field in the spread. `ChatPatch` models only absent or present keys.
- Unicode case mapping: `toLowerCase` and `toUpperCase` act on ASCII letters only.
- `n[0]` of a piece that starts with a character above U+FFFF yields half a surrogate pair in JavaScript. The model takes the whole character.
- `getBadgeColor` on a name that is also an `Object.prototype` key (such as `constructor`) reads the inherited member. The model returns gray.
- The matcher is modelled as the regular expression's meaning on the pathname. Next.js's path-to-regexp handling (locales, trailing slashes) is not part of this model.
- The email regular expression of zod is the parameter `isEmail`.
- Error values that are not `Error` instances (toast text "Something went wrong") are not modelled. Every failure carries a message.
- Rendering, styling, tabs, animations, scrolling, the sender name inside a bubble (the message row's joined `sender` is not part of `Schema.Message`), and the disabled submit button. `BeginSend` follows `onSubmit`, which does not check `isSending` itself.
- GateAgreesWithGuard: holds only when the edge and the client see the same session. The client session starts null and is set only after its first read (`providers/supabase-provider.tsx:16-25`); that first render for a signed-in visitor, and the push to `/login` it causes, are not modelled beyond `SessionsDisagreeBeforeRead`.
- `lib/supabase/schema.ts` is used only as the reference for the row fields. `providers/supabase-provider.tsx`, `components/chat/chat-navigation.tsx`, `app/page.tsx`, `app/chats/page.tsx` and the configuration files are not part of this model.
