/** One complete share, end to end: the page's `upload-start`, the relay's
    acknowledgement, the page's chunk loop (FileShare.UploadChunks) delivered in
    order to the relay's `upload-chunk` handler, and the closing `upload-end`.
    Every file-system write is taken to succeed. */
module Transfer {
  import opened Wire
  import opened SocketHandler
  import FileShare

  /** The connection hands a run of `upload-chunk` events for one file to the
      relay in the order they were sent, and every append succeeds. */
  method DeliverChunks(server: RelayServer, socket: SocketId, key: string, chunks: seq<Inbound>)
    requires server.Valid()
    requires forall k :: 0 <= k < |chunks| ==>
      chunks[k].UploadChunk? && PathKey(chunks[k].fileId, chunks[k].fileName) == key
    modifies server
    ensures server.Valid() && server.online == old(server.online) && server.outbox == old(server.outbox)
    ensures server.uploads == AppendAll(old(server.uploads), key, FileShare.Payloads(chunks))
  {
    var i := 0;
    while i < |chunks|
      invariant i <= |chunks|
      invariant server.Valid() && server.online == old(server.online) && server.outbox == old(server.outbox)
      invariant server.uploads == AppendAll(old(server.uploads), key, FileShare.Payloads(chunks[..i]))
    {
      var e := chunks[i];
      FileShare.PayloadsPrefix(chunks, i);
      AppendAllSnoc(old(server.uploads), key, FileShare.Payloads(chunks[..i]), e.chunk);
      server.UploadChunk(socket, e.fileId, e.fileName, e.chunk, e.offset, true);
      i := i + 1;
    }
    assert chunks[..i] == chunks;
  }

  /** After the whole exchange the relay's copy of the file is byte-for-byte the
      page's file, nothing else in the upload directory changed, and the sender
      received the acknowledgement followed by the routed delivery events. */
  method ShareFile(server: RelayServer, socket: SocketId, file: seq<byte>, fileName: string, fileId: string,
                   recipientId: UserId, senderId: string, senderName: string, timestamp: string)
    requires server.Valid()
    modifies server
    ensures server.Valid() && server.online == old(server.online)
    ensures server.uploads == old(server.uploads)[PathKey(fileId, fileName) := file]
    ensures server.outbox == old(server.outbox) + [Outbound(ToSocket(socket), UploadAck(fileId, "ready"))] +
      Route(socket, Record(fileId, fileName, recipientId != "", senderId, senderName, timestamp),
            recipientId != "", recipientId, server.online)
  {
    var key := PathKey(fileId, fileName);
    server.UploadStart(socket, fileName, |file|, fileId, true);
    var sent := FileShare.UploadChunks(file, fileName, fileId, recipientId, senderId, senderName);
    var chunks := sent[..|sent| - 1];
    DeliverChunks(server, socket, key, chunks);
    StartThenChunks(old(server.uploads), key, FileShare.Payloads(chunks));
    var end := sent[|sent| - 1];
    server.UploadEnd(socket, end.fileId, end.fileName, end.isPrivate, end.recipientId, end.senderId, end.senderName,
                     timestamp);
  }
}
