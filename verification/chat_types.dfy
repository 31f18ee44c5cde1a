/**
 * The records of the chat screen: a message and its sender as the chat endpoint
 * delivers them, the screen's state, and one fetched page of history.
 */
module ChatTypes {

  datatype Option<T> = None | Some(value: T)

  datatype Sender = Sender(image: string, isKycVerified: bool, self: bool, userId: string)

  /** One chat message; `time` is the timestamp string exactly as fetched. */
  datatype Message = Message(id: string, message: string, sender: Sender, time: string)

  /** The screen's state; `error` is `None` where the source holds `null`. */
  datatype ChatState = ChatState(
    from: string,
    to: string,
    name: string,
    messages: seq<Message>,
    currentPage: int,
    isLoading: bool,
    error: Option<string>)

  /** The decoded body of one successful page fetch. */
  datatype ChatPage = ChatPage(from: string, to: string, name: string, chats: seq<Message>)
}
