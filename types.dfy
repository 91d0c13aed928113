/** The records shared by the chat store and the request builder (types.ts). */
module Types {

  datatype Option<T> = None | Some(value: T)

  /** Who wrote a message: the signed-in person or the assistant. */
  datatype Role = UserRole | AiRole

  /** One chat bubble. `image` is a data URL when the message carried a picture. */
  datatype Message = Message(id: string, role: Role, text: string, timestamp: int, image: Option<string>)

  /** A named conversation: its messages in the order they were appended. */
  datatype Chat = Chat(id: string, messages: seq<Message>, title: string, createdAt: int)

  /** The signed-in person. */
  datatype User = User(name: string, phone: string, isLoggedIn: bool)
}
