/** The chat domain records: users, one-to-one or group conversations,
    messages and groups. Timestamps are milliseconds since the epoch. */
module ChatModels {
  import opened Wrappers

  datatype User = User(id: string, name: string, email: Option<string>, avatarUrl: Option<string>)

  datatype Conversation = Conversation(
    id: string,
    peerUser: User,
    lastMessage: string,
    lastTimestamp: int,
    unreadCount: int)

  datatype Message = Message(
    id: string,
    conversationId: string,
    senderId: string,
    content: string,
    timestamp: int,
    delivered: bool)

  datatype Group = Group(id: string, name: string)
}
