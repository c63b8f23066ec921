/** The key of everything kept per chat. */
module Chats {
  datatype Chat = Chat(session: string, id: string)
}
