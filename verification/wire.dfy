/** The socket.io events exchanged between the browser page (FileShare.tsx) and
    the relay (socketHandler.ts), as values. Strings stand for the JavaScript
    strings; an optional string field that the client may leave `undefined` is
    represented by "" because the server only ever tests it for truthiness. */
module Wire {
  import opened Base

  newtype byte = b: int | 0 <= b < 256

  type SocketId = string
  type UserId = string

  /** An entry of the relay's online-user list (`User` in socketHandler.ts). */
  datatype OnlineUser = OnlineUser(userId: UserId, socketId: SocketId, username: string)

  /** The delivery record a completed upload produces (`fileData` on the server,
      `SharedFile` on the client); `recipientName` is present only in the
      sender-side `file-sent` confirmation. */
  datatype SharedFile = SharedFile(
    fileId: string,
    fileName: string,
    downloadUrl: string,
    senderId: string,
    senderName: string,
    timestamp: string,
    isPrivate: bool,
    recipientName: Option<string>)

  /** Events a connection sends to the relay. */
  datatype Inbound =
    | Join(userId: UserId, username: string)
    | UploadStart(fileName: string, size: nat, fileId: string)
    | UploadChunk(fileId: string, fileName: string, chunk: seq<byte>, offset: nat)
    | UploadEnd(fileId: string, fileName: string, isPrivate: bool, recipientId: UserId,
                senderId: string, senderName: string)

  /** Events the relay sends. */
  datatype ServerEvent =
    | OnlineUsers(users: seq<OnlineUser>)
    | UploadAck(fileId: string, status: string)
    | UploadError(fileId: string, message: string)
    | FileShared(file: SharedFile)
    | FileSent(file: SharedFile)

  /** `socket.emit` / `io.to(id).emit` address one connection; `io.emit` all. */
  datatype Target = ToSocket(socketId: SocketId) | ToAll

  datatype Outbound = Outbound(target: Target, event: ServerEvent)
}
