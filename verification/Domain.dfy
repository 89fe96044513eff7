/** The chat message of internal/domain, shared by the use cases. */
module Domain {

  datatype Role = System | User | Assistant | Tool

  datatype Message = Message(role: Role, content: string, toolCallsJSON: string, toolName: string, toolCallID: string,
                             attachment: Attachment)

  /** An attached file: its length in bytes, MIME type and name, and whether its extension names an image. */
  datatype Attachment = Attachment(length: nat, mime: string, name: string, imageExt: bool)

  const NO_ATTACHMENT := Attachment(0, "", "", false)

  function NewMessage(role: Role, content: string): Message {
    Message(role, content, "", "", "", NO_ATTACHMENT)
  }
}
