/** The documents of the three collections (backend/server.py, lines 39-90)
    and the request bodies the handlers accept. */
module Records {
  import opened Wrappers

  /** A `datetime` read from the server clock, as a count of ticks. */
  type Timestamp = nat

  /** The sender label that marks a message written by the avatar. */
  const AvatarSender: string := "avatar"

  datatype Avatar = Avatar(
    id: string,
    name: string,
    personality: string,
    description: string,
    ownerId: string,
    knowledgeBase: Option<string>,
    avatarImage: Option<string>,
    createdAt: Timestamp,
    isActive: bool)

  datatype AvatarCreate = AvatarCreate(
    name: string,
    personality: string,
    description: string,
    ownerId: string,
    knowledgeBase: Option<string>,
    avatarImage: Option<string>)

  /** A partial update: `None` means the field was not supplied. */
  datatype AvatarUpdate = AvatarUpdate(
    name: Option<string>,
    personality: Option<string>,
    description: Option<string>,
    knowledgeBase: Option<string>,
    avatarImage: Option<string>,
    isActive: Option<bool>)

  /** The two values the handlers ever store in a conversation's `status`. */
  datatype Status = Active | Ended

  datatype Message = Message(sender: string, content: string, timestamp: Timestamp)

  datatype Conversation = Conversation(
    id: string,
    avatarId: string,
    participantName: string,
    messages: seq<Message>,
    startedAt: Timestamp,
    endedAt: Option<Timestamp>,
    status: Status)

  datatype ConversationCreate = ConversationCreate(avatarId: string, participantName: string)

  datatype Summary = Summary(
    id: string,
    avatarId: string,
    conversationId: string,
    summaryText: string,
    keyPoints: seq<string>,
    generatedAt: Timestamp)

  /** A handler's answer: its value, or the 404 error with its detail text. */
  datatype Result<T> = Ok(value: T) | NotFound(detail: string)
}
