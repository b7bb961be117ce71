/**
 * The rows the client reads from the backend, as the chat store and the
 * components see them. Timestamps are integers (milliseconds since the epoch);
 * nullable columns are `Option`s.
 */
module Schema {
  import opened Wrappers

  type Timestamp = int

  /** A `profiles` row. */
  datatype Profile = Profile(
    id: string,
    displayName: Option<string>,
    avatarUrl: Option<string>,
    phoneNumber: Option<string>,
    createdAt: Timestamp,
    updatedAt: Option<Timestamp>)

  /** A `messages` row. */
  datatype Message = Message(
    id: string,
    chatId: string,
    senderId: string,
    content: string,
    createdAt: Timestamp,
    isRead: bool)

  /** A `labels` row, reached from a chat through `chat_labels`. */
  datatype Label = Label(id: string, name: string, color: string)

  /** The profile fields joined into a chat through `chat_participants`. */
  datatype Member = Member(
    id: string,
    displayName: Option<string>,
    avatarUrl: Option<string>,
    phoneNumber: Option<string>)

  /**
   * A `chats` row with its labels and participants expanded; each link's
   * joined row may be null.
   */
  datatype Chat = Chat(
    id: string,
    name: Option<string>,
    isGroup: bool,
    lastMessage: Option<string>,
    lastMessageAt: Option<Timestamp>,
    createdAt: Timestamp,
    chatLabels: seq<Option<Label>>,
    participants: seq<Option<Member>>)
}
