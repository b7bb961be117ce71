/**
 * The chat list (`ChatSidebar`): a free-text search over chat names and
 * previews, a label filter whose chips are the distinct label names of all
 * chats, and one row per chat that passes both.
 */
module ChatSidebar {
  import opened Wrappers
  import opened Text
  import opened Schema
  import opened Display

  // ---------------------------------------------------------------- labels

  /** `cl.labels?.name || ''`: a link whose label row is missing names nothing. */
  function LabelName(link: Option<Label>): string {
    if link.Some? then link.value.name else ""
  }

  function LabelNames(links: seq<Option<Label>>): (names: seq<string>)
    ensures |names| == |links|
    ensures forall k :: 0 <= k < |links| ==> names[k] == LabelName(links[k])
  {
    seq(|links|, k requires 0 <= k < |links| => LabelName(links[k]))
  }

  /** The chat carries a label link whose name is `l`. */
  ghost predicate HasLabel(c: Chat, l: string) {
    exists k :: 0 <= k < |c.chatLabels| && LabelName(c.chatLabels[k]) == l
  }

  /** `chats.flatMap(chat => (chat.chat_labels || []).map(...))`. */
  function AllNames(chats: seq<Chat>): seq<string>
    decreases |chats|
  {
    if chats == [] then [] else LabelNames(chats[0].chatLabels) + AllNames(chats[1..])
  }

  /** `.filter(Boolean)` on strings: drops the empty ones, keeps the order. */
  function NonEmpty(xs: seq<string>): seq<string>
    decreases |xs|
  {
    if xs == [] then [] else (if xs[0] == "" then [] else [xs[0]]) + NonEmpty(xs[1..])
  }

  /** `Array.from(new Set(xs))`: each value once, where it first occurs. */
  function Dedup(xs: seq<string>): seq<string>
    decreases |xs|
  {
    if xs == [] then []
    else if xs[|xs| - 1] in xs[..|xs| - 1] then Dedup(xs[..|xs| - 1])
    else Dedup(xs[..|xs| - 1]) + [xs[|xs| - 1]]
  }

  ghost predicate Distinct(xs: seq<string>) {
    forall i, j :: 0 <= i < j < |xs| ==> xs[i] != xs[j]
  }

  /** The filter chips. */
  function AllLabels(chats: seq<Chat>): seq<string> {
    Dedup(NonEmpty(AllNames(chats)))
  }

  lemma {:induction false} NonEmptyMembers(xs: seq<string>)
    ensures forall l :: l in NonEmpty(xs) <==> l in xs && l != ""
    decreases |xs|
  {
    if xs != [] {
      NonEmptyMembers(xs[1..]);
      assert xs == [xs[0]] + xs[1..];
    }
  }

  /** `Dedup` keeps exactly the values of its input, each once. */
  lemma {:induction false} DedupFacts(xs: seq<string>)
    ensures forall l :: l in Dedup(xs) <==> l in xs
    ensures Distinct(Dedup(xs))
    decreases |xs|
  {
    if xs != [] {
      var init, last := xs[..|xs| - 1], xs[|xs| - 1];
      DedupFacts(init);
      assert xs == init + [last];
    }
  }

  /** A list without repetitions passes through `Dedup` unchanged. */
  lemma {:induction false} DedupOfDistinct(xs: seq<string>)
    requires Distinct(xs)
    ensures Dedup(xs) == xs
    decreases |xs|
  {
    if xs != [] {
      var init, last := xs[..|xs| - 1], xs[|xs| - 1];
      assert Distinct(init);
      DedupOfDistinct(init);
      assert xs == init + [last];
    }
  }

  /** The index where `v` first occurs in `xs`. */
  function FirstIndex(xs: seq<string>, v: string): (i: nat)
    requires v in xs
    ensures i < |xs| && xs[i] == v && v !in xs[..i]
    decreases |xs|
  {
    if xs[0] == v then 0 else 1 + FirstIndex(xs[1..], v)
  }

  lemma {:induction false} FirstIndexInPrefix(init: seq<string>, last: string, v: string)
    requires v in init
    ensures FirstIndex(init + [last], v) == FirstIndex(init, v)
    decreases |init|
  {
    if init[0] != v {
      assert (init + [last])[1..] == init[1..] + [last];
      FirstIndexInPrefix(init[1..], last, v);
    }
  }

  /** `Dedup` lists the values in the order of their first occurrences. */
  lemma {:induction false} DedupFirstOccurrenceOrder(xs: seq<string>)
    ensures forall l :: l in Dedup(xs) ==> l in xs
    ensures forall i, j :: 0 <= i < j < |Dedup(xs)| ==>
              FirstIndex(xs, Dedup(xs)[i]) < FirstIndex(xs, Dedup(xs)[j])
    decreases |xs|
  {
    if xs != [] {
      var init, last := xs[..|xs| - 1], xs[|xs| - 1];
      var d := Dedup(init);
      DedupFirstOccurrenceOrder(init);
      assert xs == init + [last];
      forall l | l in d ensures FirstIndex(xs, l) == FirstIndex(init, l) {
        FirstIndexInPrefix(init, last, l);
      }
      if last !in init {
        assert FirstIndex(xs, last) == |init|;
      }
    }
  }

  lemma {:induction false} AllNamesMembers(chats: seq<Chat>, l: string)
    ensures l in AllNames(chats) <==> exists c :: c in chats && HasLabel(c, l)
    decreases |chats|
  {
    if chats != [] {
      AllNamesMembers(chats[1..], l);
      var names := LabelNames(chats[0].chatLabels);
      if l in names {
        var k :| 0 <= k < |names| && names[k] == l;
        assert HasLabel(chats[0], l);
      }
      if HasLabel(chats[0], l) {
        var k :| 0 <= k < |chats[0].chatLabels| && LabelName(chats[0].chatLabels[k]) == l;
        assert names[k] == l;
      }
      forall c | c in chats && c != chats[0]
        ensures c in chats[1..]
      {
        var i :| 0 <= i < |chats| && chats[i] == c;
        assert chats[1..][i - 1] == c;
      }
    }
  }

  /**
   * A chip is shown for exactly the non-empty names some chat carries, each
   * once: a link with a missing label row adds no chip.
   */
  lemma AllLabelsFacts(chats: seq<Chat>)
    ensures Distinct(AllLabels(chats))
    ensures forall l :: l in AllLabels(chats) ==> l in NonEmpty(AllNames(chats))
    ensures forall i, j :: 0 <= i < j < |AllLabels(chats)| ==>
              var names := NonEmpty(AllNames(chats));
              FirstIndex(names, AllLabels(chats)[i]) < FirstIndex(names, AllLabels(chats)[j])
    ensures forall l :: l in AllLabels(chats) <==> l != "" && exists c :: c in chats && HasLabel(c, l)
  {
    DedupFacts(NonEmpty(AllNames(chats)));
    DedupFirstOccurrenceOrder(NonEmpty(AllNames(chats)));
    NonEmptyMembers(AllNames(chats));
    forall l ensures l in AllNames(chats) <==> exists c :: c in chats && HasLabel(c, l) {
      AllNamesMembers(chats, l);
    }
  }

  // ---------------------------------------------------------------- toggling

  /** `prev.filter(l => l !== label)`. */
  function Without(xs: seq<string>, chip: string): (r: seq<string>)
    ensures forall l :: l in r <==> l in xs && l != chip
    ensures |r| == |xs| - multiset(xs)[chip]
    decreases |xs|
  {
    if xs == [] then []
    else
      assert xs == [xs[0]] + xs[1..];
      (if xs[0] == chip then [] else [xs[0]]) + Without(xs[1..], chip)
  }

  /** Removal splits over concatenation: the remaining entries keep their order and their copies. */
  lemma {:induction false} WithoutAppend(a: seq<string>, b: seq<string>, chip: string)
    ensures Without(a + b, chip) == Without(a, chip) + Without(b, chip)
    decreases |a|
  {
    if a == [] {
      assert a + b == b;
    } else {
      assert (a + b)[0] == a[0];
      assert (a + b)[1..] == a[1..] + b;
      WithoutAppend(a[1..], b, chip);
    }
  }

  /** `toggleLabel`'s state update. */
  function Toggled(prev: seq<string>, chip: string): seq<string> {
    if chip in prev then Without(prev, chip) else prev + [chip]
  }

  lemma {:induction false} WithoutAbsent(xs: seq<string>, chip: string)
    requires chip !in xs
    ensures Without(xs, chip) == xs
    decreases |xs|
  {
    if xs != [] {
      WithoutAbsent(xs[1..], chip);
      assert xs == [xs[0]] + xs[1..];
    }
  }

  lemma {:induction false} WithoutKeepsDistinct(xs: seq<string>, chip: string)
    requires Distinct(xs)
    ensures Distinct(Without(xs, chip))
    decreases |xs|
  {
    if xs != [] {
      assert Distinct(xs[1..]);
      WithoutKeepsDistinct(xs[1..], chip);
      assert xs[0] !in xs[1..];
    }
  }

  /** A distinct list holds the chip once, so removing it shortens the list by exactly one. */
  lemma {:induction false} WithoutDropsOne(xs: seq<string>, chip: string)
    requires Distinct(xs) && chip in xs
    ensures |Without(xs, chip)| == |xs| - 1
    decreases |xs|
  {
    if xs[0] == chip {
      assert chip !in xs[1..];
      WithoutAbsent(xs[1..], chip);
    } else {
      assert chip in xs[1..];
      assert Distinct(xs[1..]);
      WithoutDropsOne(xs[1..], chip);
    }
  }

  /** Toggling flips the chip's own membership and no other. */
  lemma ToggledMembers(prev: seq<string>, chip: string)
    ensures chip in Toggled(prev, chip) <==> chip !in prev
    ensures forall l :: l != chip ==> (l in Toggled(prev, chip) <==> l in prev)
  {
  }

  /** The selection never holds a chip twice. */
  lemma ToggledKeepsDistinct(prev: seq<string>, chip: string)
    requires Distinct(prev)
    ensures Distinct(Toggled(prev, chip))
  {
    if chip in prev {
      WithoutKeepsDistinct(prev, chip);
    }
  }

  /** Selecting a chip and deselecting it again restores the selection. */
  lemma ToggleTwice(prev: seq<string>, chip: string)
    requires chip !in prev
    ensures Toggled(Toggled(prev, chip), chip) == prev
  {
    WithoutAbsent(prev, chip);
    WithoutSnoc(prev, chip);
  }

  lemma {:induction false} WithoutSnoc(xs: seq<string>, chip: string)
    ensures Without(xs + [chip], chip) == Without(xs, chip)
    decreases |xs|
  {
    if xs == [] {
      assert Without([chip], chip) == [] + Without([], chip);
    } else {
      assert (xs + [chip])[1..] == xs[1..] + [chip];
      WithoutSnoc(xs[1..], chip);
    }
  }

  // ---------------------------------------------------------------- filtering

  /** The search box: an empty term, or a case-blind substring of the name or the preview. */
  function MatchesSearch(c: Chat, term: string): bool {
    || term == ""
    || Includes(Lower(ChatName(c)), Lower(term))
    || Includes(Lower(c.lastMessage.GetOr("")), Lower(term))
  }

  /** The label filter: nothing selected, or some link names a selected label. */
  function MatchesLabels(c: Chat, selected: seq<string>): bool {
    || |selected| == 0
    || exists k :: 0 <= k < |c.chatLabels| && LabelName(c.chatLabels[k]) in selected
  }

  function Keeps(c: Chat, term: string, selected: seq<string>): bool {
    MatchesSearch(c, term) && MatchesLabels(c, selected)
  }

  /** `filteredChats`. */
  function Filtered(chats: seq<Chat>, term: string, selected: seq<string>): (r: seq<Chat>)
    ensures |r| <= |chats|
    decreases |chats|
  {
    if chats == [] then []
    else (if Keeps(chats[0], term, selected) then [chats[0]] else []) + Filtered(chats[1..], term, selected)
  }

  /** A chat is listed exactly when it is in the store and passes both filters. */
  lemma {:induction false} FilteredMembers(chats: seq<Chat>, term: string, selected: seq<string>)
    ensures forall c :: c in Filtered(chats, term, selected) <==> c in chats && Keeps(c, term, selected)
    decreases |chats|
  {
    if chats != [] {
      FilteredMembers(chats[1..], term, selected);
      assert chats == [chats[0]] + chats[1..];
    }
  }

  /** Filtering splits over concatenation, so the listed chats keep the store's order. */
  lemma {:induction false} FilteredAppend(a: seq<Chat>, b: seq<Chat>, term: string, selected: seq<string>)
    ensures Filtered(a + b, term, selected) == Filtered(a, term, selected) + Filtered(b, term, selected)
    decreases |a|
  {
    if a == [] {
      assert a + b == b;
    } else {
      var whole := a + b;
      assert whole[0] == a[0];
      assert whole[1..] == a[1..] + b;
      FilteredAppend(a[1..], b, term, selected);
      var head := if Keeps(a[0], term, selected) then [a[0]] else [];
      assert Filtered(whole, term, selected) == head + Filtered(a[1..] + b, term, selected);
      assert Filtered(a, term, selected) == head + Filtered(a[1..], term, selected);
    }
  }

  /** With an empty search and no chip selected every chat is listed, in order. */
  lemma {:induction false} NoFilterListsAll(chats: seq<Chat>)
    ensures Filtered(chats, "", []) == chats
    decreases |chats|
  {
    if chats != [] {
      NoFilterListsAll(chats[1..]);
      assert chats == [chats[0]] + chats[1..];
    }
  }

  /** A non-empty term matches exactly when it occurs, ignoring ASCII case, in the name or the preview. */
  lemma SearchIsSubstring(c: Chat, term: string)
    requires term != ""
    ensures MatchesSearch(c, term) <==>
              (exists i :: OccursAt(Lower(ChatName(c)), Lower(term), i))
              || (exists i :: OccursAt(Lower(c.lastMessage.GetOr("")), Lower(term), i))
  {
    IncludesIffOccurs(Lower(ChatName(c)), Lower(term));
    IncludesIffOccurs(Lower(c.lastMessage.GetOr("")), Lower(term));
  }

  /** The `searchTerm === ''` test is a shortcut: the empty string occurs in every string. */
  lemma EmptyTermIsSubstring(c: Chat)
    ensures Includes(Lower(ChatName(c)), Lower(""))
  {
  }

  /** Choosing any one chip alone, with no search, lists at least the chats that carry it. */
  lemma SingleChipListsItsChats(chats: seq<Chat>, l: string)
    requires l in AllLabels(chats)
    ensures Filtered(chats, "", [l]) != []
    ensures forall c :: c in chats && HasLabel(c, l) ==> c in Filtered(chats, "", [l])
  {
    AllLabelsFacts(chats);
    FilteredMembers(chats, "", [l]);
    var c :| c in chats && HasLabel(c, l);
    assert Keeps(c, "", [l]);
  }

  // ---------------------------------------------------------------- rows

  const GrayBadge := "bg-gray-100 text-gray-800 border-gray-200"

  /** `getBadgeColor`: five known names have their own classes, every other name is gray. */
  function BadgeColor(name: string): string {
    if name == "Demo" then "bg-orange-100 text-orange-800 border-orange-200"
    else if name == "Internal" then "bg-green-100 text-green-800 border-green-200"
    else if name == "Content" then "bg-blue-100 text-blue-800 border-blue-200"
    else if name == "Dont Send" then "bg-red-100 text-red-800 border-red-200"
    else if name == "Signup" then "bg-purple-100 text-purple-800 border-purple-200"
    else GrayBadge
  }

  /** A badge is gray exactly when its name is not one of the five known ones. */
  lemma BadgeGrayIff(name: string)
    ensures BadgeColor(name) == GrayBadge <==> name !in {"Demo", "Internal", "Content", "Dont Send", "Signup"}
  {
  }

  /** What one row of the list shows. */
  datatype Row = Row(
    chatId: string,
    title: string,
    avatarUrl: Option<string>,
    initials: string,
    time: Timestamp,
    preview: string,
    badges: seq<(string, string)>,
    highlighted: bool)

  /** `chat.is_group ? undefined : chat.chat_participants?.[0]?.profiles?.avatar_url || undefined`. */
  function RowAvatar(c: Chat): Option<string> {
    if c.isGroup || |c.participants| == 0 || c.participants[0].None? then None
    else if Truthy(c.participants[0].value.avatarUrl) then c.participants[0].value.avatarUrl
    else None
  }

  function RowOf(c: Chat, selectedChatId: Option<string>): Row {
    var names := LabelNames(c.chatLabels);
    Row(c.id, ChatName(c), RowAvatar(c), ChatAvatarInitials(c),
        c.lastMessageAt.GetOr(c.createdAt),
        OrElse(c.lastMessage, "No messages yet"),
        seq(|names|, k requires 0 <= k < |names| => (names[k], BadgeColor(names[k]))),
        selectedChatId == Some(c.id))
  }

  /**
   * A row is highlighted exactly when its chat is selected, shows a time (the
   * last message's, else the creation time), a non-empty preview, and one badge
   * per chip link, in link order.
   */
  lemma RowFacts(c: Chat, selectedChatId: Option<string>)
    ensures var r := RowOf(c, selectedChatId);
            && r.chatId == c.id
            && r.title == ChatName(c)
            && r.initials == ChatAvatarInitials(c)
            && (r.highlighted <==> selectedChatId == Some(c.id))
            && r.time == (if c.lastMessageAt.Some? then c.lastMessageAt.value else c.createdAt)
            && r.preview != ""
            && r.preview == (if Truthy(c.lastMessage) then c.lastMessage.value else "No messages yet")
            && |r.badges| == |c.chatLabels|
            && (forall k :: 0 <= k < |c.chatLabels| ==>
                  r.badges[k] == (LabelName(c.chatLabels[k]), BadgeColor(LabelName(c.chatLabels[k]))))
            && (r.avatarUrl.Some? ==> !c.isGroup && Truthy(r.avatarUrl))
  {
  }

  /** The rows of the list. */
  function Rows(chats: seq<Chat>, term: string, selected: seq<string>, selectedChatId: Option<string>): (rows: seq<Row>)
    ensures |rows| == |Filtered(chats, term, selected)|
    ensures forall i :: 0 <= i < |rows| ==> rows[i] == RowOf(Filtered(chats, term, selected)[i], selectedChatId)
  {
    var shown := Filtered(chats, term, selected);
    seq(|shown|, i requires 0 <= i < |shown| => RowOf(shown[i], selectedChatId))
  }

  // ---------------------------------------------------------------- state

  /** The component's three `useState` hooks. */
  class Sidebar {
    var searchTerm: string
    var showFilters: bool
    var selectedLabels: seq<string>

    /** The chip selection never holds a chip twice. */
    ghost predicate Valid()
      reads this
    {
      Distinct(selectedLabels)
    }

    constructor ()
      ensures searchTerm == "" && !showFilters && selectedLabels == []
      ensures Valid()
    {
      searchTerm := "";
      showFilters := false;
      selectedLabels := [];
    }

    /** The chats the list shows for the current search and selection. */
    function Visible(chats: seq<Chat>): (r: seq<Chat>)
      reads this
      ensures forall c :: c in r <==> c in chats && Keeps(c, searchTerm, selectedLabels)
    {
      FilteredMembers(chats, searchTerm, selectedLabels);
      Filtered(chats, searchTerm, selectedLabels)
    }

    /** The search box's `onChange`. */
    method SetSearchTerm(term: string)
      requires Valid()
      modifies this
      ensures Valid()
      ensures searchTerm == term
      ensures showFilters == old(showFilters) && selectedLabels == old(selectedLabels)
    {
      searchTerm := term;
    }

    /** The filter button: opens or closes the chip panel. */
    method ToggleFilters()
      requires Valid()
      modifies this
      ensures Valid()
      ensures showFilters == !old(showFilters)
      ensures searchTerm == old(searchTerm) && selectedLabels == old(selectedLabels)
    {
      showFilters := !showFilters;
    }

    /**
     * A chip's `onClick`. Because the selection never holds a chip twice, a
     * click adds exactly one entry or removes exactly one.
     */
    method ToggleLabel(chip: string)
      requires Valid()
      modifies this
      ensures Valid()
      ensures selectedLabels == Toggled(old(selectedLabels), chip)
      ensures chip in selectedLabels <==> chip !in old(selectedLabels)
      ensures forall l :: l != chip ==> (l in selectedLabels <==> l in old(selectedLabels))
      ensures |selectedLabels| == if chip in old(selectedLabels) then |old(selectedLabels)| - 1 else |old(selectedLabels)| + 1
      ensures searchTerm == old(searchTerm) && showFilters == old(showFilters)
    {
      ToggledMembers(selectedLabels, chip);
      ToggledKeepsDistinct(selectedLabels, chip);
      if chip in selectedLabels {
        WithoutDropsOne(selectedLabels, chip);
      }
      selectedLabels := Toggled(selectedLabels, chip);
    }
  }
}
