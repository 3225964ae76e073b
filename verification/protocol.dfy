/** Values that travel between the browser clients and the signalling server. */
module Protocol {

  /** A socket.io connection id; it also names the socket.io room every socket joins on connecting. */
  type SocketId = string

  /** A room id produced by `uuidv4` on the server. */
  type RoomId = string

  /** An ISO-8601 time stamp from the server's clock, kept opaque. */
  type Timestamp = string

  /** A transfer id chosen by the sender. */
  type FileId = string

  /** A chat or system message as stored in a room's log and delivered as 'new-message'. */
  datatype Message = Message(sender: string, text: string, timestamp: Timestamp)

  /**
   * The `fileInfo` a sender announces with 'file-start'.  The size is any
   * integer: the server relays it unchecked and a receiver only compares it
   * with the maximum.
   */
  datatype FileInfo = FileInfo(fileId: FileId, fileName: string, fileSize: int, fileType: string)
}
