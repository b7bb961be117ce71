/**
 * The display helpers, defined once: `getInitials`, which the sidebar, the
 * message thread and the details panel each define identically, and
 * `getChatName`, which the sidebar and the message thread each define.
 */
module Display {
  import opened Wrappers
  import opened Text
  import opened Schema

  const UnknownUser := "Unknown User"

  /** `p.profiles?.display_name || 'Unknown User'`. */
  function MemberName(p: Option<Member>): string {
    if p.Some? then OrElse(p.value.displayName, UnknownUser) else UnknownUser
  }

  function MemberNames(ps: seq<Option<Member>>): (names: seq<string>)
    ensures |names| == |ps|
    ensures forall k :: 0 <= k < |ps| ==> names[k] == MemberName(ps[k])
  {
    seq(|ps|, k requires 0 <= k < |ps| => MemberName(ps[k]))
  }

  /** `getChatName`: the chat's own name if truthy, else its participants' names joined by ", ". */
  function ChatName(c: Chat): string {
    if Truthy(c.name) then c.name.value else Join(MemberNames(c.participants), ", ")
  }

  /** Every member contributes a non-empty name. */
  lemma MemberNameNonEmpty(p: Option<Member>)
    ensures MemberName(p) != ""
  {
  }

  lemma {:induction false} JoinEmptyIff(pieces: seq<string>, sep: string)
    requires forall k :: 0 <= k < |pieces| ==> pieces[k] != ""
    ensures Join(pieces, sep) == "" <==> |pieces| == 0
  {
    if |pieces| > 1 {
      assert |Join(pieces, sep)| >= |pieces[0]| > 0;
    }
  }

  /** A chat's display name is empty only for an unnamed chat with no participants. */
  lemma ChatNameEmptyIff(c: Chat)
    ensures ChatName(c) == "" <==> !Truthy(c.name) && |c.participants| == 0
  {
    var names := MemberNames(c.participants);
    forall k | 0 <= k < |names| ensures names[k] != "" {
      MemberNameNonEmpty(c.participants[k]);
    }
    JoinEmptyIff(names, ", ");
  }

  /** The first character of every non-empty piece (`n[0]` of an empty piece joins as ""). */
  function FirstChars(pieces: seq<string>): string
    decreases |pieces|
  {
    if pieces == [] then ""
    else (if pieces[0] == "" then "" else [pieces[0][0]]) + FirstChars(pieces[1..])
  }

  /** `getInitials`: `name.split(' ').map(n => n[0]).join('').toUpperCase()`. */
  function Initials(name: string): string {
    Upper(FirstChars(Split(name, ' ')))
  }

  lemma {:induction false} FirstCharsAppend(a: seq<string>, b: seq<string>)
    ensures FirstChars(a + b) == FirstChars(a) + FirstChars(b)
    decreases |a|
  {
    if a == [] {
      assert a + b == b;
    } else {
      assert (a + b)[0] == a[0];
      assert (a + b)[1..] == a[1..] + b;
      FirstCharsAppend(a[1..], b);
    }
  }

  /** A single word contributes its upper-cased first character; an empty word nothing. */
  lemma {:induction false} InitialsOfWord(w: string)
    requires ' ' !in w
    ensures Initials(w) == if w == "" then "" else [UpperChar(w[0])]
  {
    if w != "" {
      SplitOfWord(w);
      assert Split(w, ' ') == [w];
      assert FirstChars([w]) == [w[0]] + FirstChars([]);
    }
  }

  lemma {:induction false} SplitOfWord(w: string)
    requires ' ' !in w
    ensures Split(w, ' ') == [w]
    decreases |w|
  {
    if w != "" {
      SplitOfWord(w[1..]);
      assert [w[0]] + w[1..] == w;
    }
  }

  /** Words separated by one space contribute their initials in order. */
  lemma InitialsAppend(a: string, b: string)
    ensures Initials(a + " " + b) == Initials(a) + Initials(b)
  {
    SplitAppend(a, b, ' ');
    FirstCharsAppend(Split(a, ' '), Split(b, ' '));
    UpperAppend(FirstChars(Split(a, ' ')), FirstChars(Split(b, ' ')));
  }

  /**
   * The avatar fallback of the sidebar and the thread header:
   * `getInitials(chatName.split(',')[0] || 'Chat')`.
   */
  function ChatAvatarInitials(c: Chat): string {
    var first := Split(ChatName(c), ',')[0];
    Initials(if first != "" then first else "Chat")
  }

  /** `chats.find(chat => chat.id === id)`: the first chat with that id. */
  function FindChat(chats: seq<Chat>, id: Option<string>): (r: Option<Chat>)
    ensures r.Some? <==> id.Some? && exists c :: c in chats && c.id == id.value
    ensures r.Some? ==> r.value in chats && r.value.id == id.value
    decreases |chats|
  {
    if chats == [] || id.None? then None
    else if chats[0].id == id.value then Some(chats[0])
    else FindChat(chats[1..], id)
  }

  /** `find` returns the chat at the first matching index. */
  lemma {:induction false} FindChatIsFirst(chats: seq<Chat>, id: string, i: int)
    requires 0 <= i < |chats| && chats[i].id == id
    requires forall j :: 0 <= j < i ==> chats[j].id != id
    ensures FindChat(chats, Some(id)) == Some(chats[i])
    decreases i
  {
    if i > 0 {
      FindChatIsFirst(chats[1..], id, i - 1);
    }
  }
}
