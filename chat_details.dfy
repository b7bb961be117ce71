/**
 * The details panel (`ChatDetails`): the selected chat's members and labels
 * with their display defaults, or a placeholder when no chat has the selected
 * id. Its two dialogs only open and close.
 */
module ChatDetails {
  import opened Wrappers
  import opened Text
  import opened Schema
  import opened Display

  /** `(chat_labels || []).map(cl => cl.labels).filter(Boolean)`: the links whose label row exists. */
  function PresentLabels(links: seq<Option<Label>>): (r: seq<Label>)
    ensures |r| <= |links|
    decreases |links|
  {
    if links == [] then [] else (if links[0].Some? then [links[0].value] else []) + PresentLabels(links[1..])
  }

  /** A label is listed exactly when some link carries it. */
  lemma {:induction false} PresentLabelsMembers(links: seq<Option<Label>>)
    ensures forall l :: l in PresentLabels(links) <==> Some(l) in links
    decreases |links|
  {
    if links != [] {
      PresentLabelsMembers(links[1..]);
      assert links == [links[0]] + links[1..];
    }
  }

  /** Extraction splits over concatenation, so the listed labels keep the links' order. */
  lemma {:induction false} PresentLabelsAppend(a: seq<Option<Label>>, b: seq<Option<Label>>)
    ensures PresentLabels(a + b) == PresentLabels(a) + PresentLabels(b)
    decreases |a|
  {
    if a == [] {
      assert a + b == b;
    } else {
      assert (a + b)[0] == a[0];
      assert (a + b)[1..] == a[1..] + b;
      PresentLabelsAppend(a[1..], b);
    }
  }

  /** The list is empty exactly when every link's label row is missing. */
  lemma PresentLabelsEmptyIff(links: seq<Option<Label>>)
    ensures PresentLabels(links) == [] <==> forall k :: 0 <= k < |links| ==> links[k].None?
  {
    PresentLabelsMembers(links);
  }

  /** One member line: avatar, fallback initials, name and phone. */
  datatype MemberRow = MemberRow(avatarUrl: Option<string>, initials: string, name: string, phone: string)

  function MemberRowOf(p: Option<Member>): MemberRow {
    if p.None? then MemberRow(None, Initials("User"), UnknownUser, "")
    else MemberRow(
      if Truthy(p.value.avatarUrl) then p.value.avatarUrl else None,
      Initials(OrElse(p.value.displayName, "User")),
      MemberName(p),
      OrElse(p.value.phoneNumber, ""))
  }

  /**
   * A member without a usable display name shows as "Unknown User" with the
   * initials "U"; one without a phone number shows an empty phone line.
   */
  lemma MemberRowDefaults(p: Option<Member>)
    ensures var row := MemberRowOf(p);
            && (p.None? || !Truthy(p.value.displayName) ==> row.name == UnknownUser && row.initials == "U")
            && (p.Some? && Truthy(p.value.displayName) ==>
                  row.name == p.value.displayName.value && row.initials == Initials(p.value.displayName.value))
            && (p.None? || !Truthy(p.value.phoneNumber) ==> row.phone == "")
            && (row.avatarUrl.Some? ==> Truthy(row.avatarUrl))
  {
    InitialsOfWord("User");
  }

  /** One label badge: its colour dot and its name. */
  datatype LabelBadge = LabelBadge(color: string, name: string)

  const DefaultColor := "#888"

  /** `label?.color || '#888'`. */
  function BadgeOf(l: Label): (b: LabelBadge)
    ensures b.name == l.name
    ensures b.color == (if l.color == "" then DefaultColor else l.color)
    ensures b.color != ""
  {
    LabelBadge(if l.color != "" then l.color else DefaultColor, l.name)
  }

  /** What the panel shows. */
  datatype View =
    | Placeholder
    | Panel(members: seq<MemberRow>, badges: seq<LabelBadge>, noLabelsNote: bool)

  function ViewOf(chats: seq<Chat>, selectedChatId: Option<string>): View {
    var found := FindChat(chats, selectedChatId);
    if found.None? then Placeholder
    else
      var c := found.value;
      var labels := PresentLabels(c.chatLabels);
      Panel(seq(|c.participants|, i requires 0 <= i < |c.participants| => MemberRowOf(c.participants[i])),
            seq(|labels|, i requires 0 <= i < |labels| => BadgeOf(labels[i])),
            |labels| == 0)
  }

  /**
   * The placeholder shows exactly when no chat has the selected id. Otherwise
   * the panel is the first such chat's: one row per participant, one badge per
   * present label, and the "No labels" note exactly when no label row exists.
   */
  lemma ViewFacts(chats: seq<Chat>, selectedChatId: Option<string>)
    ensures ViewOf(chats, selectedChatId) == Placeholder <==>
              !(selectedChatId.Some? && exists c :: c in chats && c.id == selectedChatId.value)
    ensures ViewOf(chats, selectedChatId).Panel? ==>
              var c := FindChat(chats, selectedChatId).value;
              var v := ViewOf(chats, selectedChatId);
              && c in chats && c.id == selectedChatId.value
              && |v.members| == |c.participants|
              && (forall i :: 0 <= i < |c.participants| ==> v.members[i] == MemberRowOf(c.participants[i]))
              && |v.badges| == |PresentLabels(c.chatLabels)| <= |c.chatLabels|
              && (forall i :: 0 <= i < |v.badges| ==> v.badges[i] == BadgeOf(PresentLabels(c.chatLabels)[i]))
              && (v.noLabelsNote <==> forall k :: 0 <= k < |c.chatLabels| ==> c.chatLabels[k].None?)
  {
    var found := FindChat(chats, selectedChatId);
    if found.Some? {
      PresentLabelsEmptyIff(found.value.chatLabels);
    }
  }

  /** The two dialog flags: opening or closing them touches no chat data. */
  class Dialogs {
    var isAddMemberOpen: bool
    var isAddLabelOpen: bool

    constructor ()
      ensures !isAddMemberOpen && !isAddLabelOpen
    {
      isAddMemberOpen := false;
      isAddLabelOpen := false;
    }

    /** The member dialog's `onOpenChange`. */
    method SetAddMemberOpen(open: bool)
      modifies this
      ensures isAddMemberOpen == open && isAddLabelOpen == old(isAddLabelOpen)
    {
      isAddMemberOpen := open;
    }

    /** The label dialog's `onOpenChange`. */
    method SetAddLabelOpen(open: bool)
      modifies this
      ensures isAddLabelOpen == open && isAddMemberOpen == old(isAddMemberOpen)
    {
      isAddLabelOpen := open;
    }
  }
}
