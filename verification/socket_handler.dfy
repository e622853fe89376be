/** The file relay of server/src/socket/socketHandler.ts: the module-level list of
    online users, the upload directory (as a map from file name to bytes) and the
    events the relay emits, updated by one handler per inbound event. */
module SocketHandler {
  import opened Base
  import opened Wire

  // ---------------------------------------------------------------------------
  // The online-user list
  // ---------------------------------------------------------------------------

  /** At most one entry per userId. */
  predicate UniqueUserIds(users: seq<OnlineUser>)
  {
    forall i, j :: 0 <= i < j < |users| ==> users[i].userId != users[j].userId
  }

  function NotUser(userId: UserId): OnlineUser -> bool
  {
    (u: OnlineUser) => u.userId != userId
  }

  function NotSocket(socketId: SocketId): OnlineUser -> bool
  {
    (u: OnlineUser) => u.socketId != socketId
  }

  /** `onlineUsers.filter((user) => user.userId !== userId)` */
  function WithoutUser(users: seq<OnlineUser>, userId: UserId): (r: seq<OnlineUser>)
    ensures forall u :: u in r <==> u in users && u.userId != userId
  {
    Filter(users, NotUser(userId))
  }

  /** The list after `join`: every entry for the same userId is dropped and the
      new entry is pushed at the end. */
  function Joined(users: seq<OnlineUser>, entry: OnlineUser): (r: seq<OnlineUser>)
    ensures |r| >= 1 && r[|r| - 1] == entry
    ensures forall i :: 0 <= i < |r| - 1 ==> r[i].userId != entry.userId
    ensures forall u :: u in r <==> u == entry || (u in users && u.userId != entry.userId)
  {
    WithoutUser(users, entry.userId) + [entry]
  }

  /** The list after `disconnect` of a socket: every entry of that socket is dropped. */
  function Left(users: seq<OnlineUser>, socketId: SocketId): (r: seq<OnlineUser>)
    ensures forall u :: u in r <==> u in users && u.socketId != socketId
  {
    Filter(users, NotSocket(socketId))
  }

  function IsUser(userId: UserId): OnlineUser -> bool
  {
    (u: OnlineUser) => u.userId == userId
  }

  /** `onlineUsers.find(u => u.userId === recipientId)`: the first entry with that userId. */
  function FindUser(users: seq<OnlineUser>, userId: UserId): (r: Option<OnlineUser>)
    ensures r.Some? <==> exists i :: 0 <= i < |users| && users[i].userId == userId
    ensures r.Some? ==> r.value in users && r.value.userId == userId
  {
    match FirstIndex(users, IsUser(userId))
    case Some(i) => Some(users[i])
    case None => None
  }

  /** Dropping entries never creates a second entry for a userId. */
  lemma {:induction false} FilterKeepsUnique(users: seq<OnlineUser>, keep: OnlineUser -> bool)
    requires UniqueUserIds(users)
    ensures UniqueUserIds(Filter(users, keep))
  {
    if users != [] {
      var rest := users[1..];
      assert UniqueUserIds(rest) by {
        forall i, j | 0 <= i < j < |rest| ensures rest[i].userId != rest[j].userId {
          assert rest[i] == users[i + 1] && rest[j] == users[j + 1];
        }
      }
      FilterKeepsUnique(rest, keep);
      var tail := Filter(rest, keep);
      if keep(users[0]) {
        forall k | 0 <= k < |tail| ensures tail[k].userId != users[0].userId {
          assert tail[k] in rest;
          var m :| 0 <= m < |rest| && rest[m] == tail[k];
          assert rest[m] == users[m + 1];
        }
        assert Filter(users, keep) == [users[0]] + tail;
      } else {
        assert Filter(users, keep) == tail;
      }
    }
  }

  /** `join` keeps the one-entry-per-userId invariant. */
  lemma JoinedKeepsUnique(users: seq<OnlineUser>, entry: OnlineUser)
    requires UniqueUserIds(users)
    ensures UniqueUserIds(Joined(users, entry))
  {
    FilterKeepsUnique(users, NotUser(entry.userId));
  }

  /** `disconnect` keeps the one-entry-per-userId invariant. */
  lemma LeftKeepsUnique(users: seq<OnlineUser>, socketId: SocketId)
    requires UniqueUserIds(users)
    ensures UniqueUserIds(Left(users, socketId))
  {
    FilterKeepsUnique(users, NotSocket(socketId));
  }

  /** Re-joining moves the user's entry to the end, carrying the new socket and
      name, and leaves every other entry where it was relative to the rest. */
  lemma RejoinMovesToEnd(before: seq<OnlineUser>, previous: OnlineUser, after: seq<OnlineUser>, entry: OnlineUser)
    requires previous.userId == entry.userId
    requires forall i :: 0 <= i < |before| ==> before[i].userId != entry.userId
    requires forall i :: 0 <= i < |after| ==> after[i].userId != entry.userId
    ensures Joined(before + [previous] + after, entry) == before + after + [entry]
  {
    var keep := NotUser(entry.userId);
    FilterAppend(before + [previous], after, keep);
    FilterAppend(before, [previous], keep);
    FilterKeepsAll(before, keep);
    FilterKeepsAll(after, keep);
    assert Filter([previous], keep) == [] by {
      assert !keep(previous);
      assert [previous][1..] == [];
    }
    assert Filter(before + [previous], keep) == before;
    assert Filter(before + [previous] + after, keep) == before + after;
  }

  /** A first join appends to the list and changes nothing before it. */
  lemma FirstJoinAppends(users: seq<OnlineUser>, entry: OnlineUser)
    requires forall i :: 0 <= i < |users| ==> users[i].userId != entry.userId
    ensures Joined(users, entry) == users + [entry]
  {
    FilterKeepsAll(users, NotUser(entry.userId));
  }

  /** Disconnecting the socket of one entry removes exactly that entry and keeps
      the others in order. */
  lemma DisconnectRemovesEntry(before: seq<OnlineUser>, gone: OnlineUser, after: seq<OnlineUser>)
    requires forall i :: 0 <= i < |before| ==> before[i].socketId != gone.socketId
    requires forall i :: 0 <= i < |after| ==> after[i].socketId != gone.socketId
    ensures Left(before + [gone] + after, gone.socketId) == before + after
  {
    var keep := NotSocket(gone.socketId);
    FilterAppend(before + [gone], after, keep);
    FilterAppend(before, [gone], keep);
    FilterKeepsAll(before, keep);
    FilterKeepsAll(after, keep);
    assert Filter([gone], keep) == [] by {
      assert !keep(gone);
      assert [gone][1..] == [];
    }
    assert Filter(before + [gone], keep) == before;
  }

  /** Disconnecting keeps the order of the entries that stay, however many
      entries the socket holds: what is kept from a prefix of the list comes
      before what is kept from the rest. */
  lemma LeftKeepsOrder(first: seq<OnlineUser>, second: seq<OnlineUser>, socketId: SocketId)
    ensures Left(first + second, socketId) == Left(first, socketId) + Left(second, socketId)
  {
    FilterAppend(first, second, NotSocket(socketId));
  }

  /** A socket that never joined disconnects without changing the list. */
  lemma DisconnectUnknownSocket(users: seq<OnlineUser>, socketId: SocketId)
    requires forall i :: 0 <= i < |users| ==> users[i].socketId != socketId
    ensures Left(users, socketId) == users
  {
    FilterKeepsAll(users, NotSocket(socketId));
  }

  /** With one entry per userId, the lookup finds exactly that entry. */
  lemma FindUserUnique(users: seq<OnlineUser>, i: nat)
    requires UniqueUserIds(users) && i < |users|
    ensures FindUser(users, users[i].userId) == Some(users[i])
  {
  }

  // ---------------------------------------------------------------------------
  // The upload directory
  // ---------------------------------------------------------------------------

  /** The file name `${fileId}-${fileName}` under the upload directory. */
  function PathKey(fileId: string, fileName: string): (r: string)
    ensures |r| == |fileId| + 1 + |fileName|
    ensures r[..|fileId|] == fileId && r[|fileId|] == '-' && r[|fileId| + 1..] == fileName
  {
    fileId + "-" + fileName
  }

  /** `/uploads/${fileId}-${fileName}` */
  function DownloadUrl(fileId: string, fileName: string): (r: string)
    ensures r == "/uploads/" + PathKey(fileId, fileName)
  {
    "/uploads/" + fileId + "-" + fileName
  }

  predicate AllDigits(s: string)
  {
    forall i :: 0 <= i < |s| ==> '0' <= s[i] <= '9'
  }

  /** In the file name of a digit-only fileId, the first '-' ends the id. */
  lemma FirstDashEndsDigitId(fileId: string, fileName: string)
    requires AllDigits(fileId)
    ensures PathKey(fileId, fileName)[|fileId|] == '-'
    ensures forall i :: 0 <= i < |fileId| ==> PathKey(fileId, fileName)[i] != '-'
  {
  }

  /** For digit-only fileIds (the page uses `Date.now()`), distinct
      (fileId, fileName) pairs give distinct names `${fileId}-${fileName}`. */
  lemma DigitIdsGiveDistinctFiles(id1: string, name1: string, id2: string, name2: string)
    requires AllDigits(id1) && AllDigits(id2)
    requires PathKey(id1, name1) == PathKey(id2, name2)
    ensures id1 == id2 && name1 == name2
  {
  }

  /** Without that restriction two different uploads can name the same file:
      fileId "1-2" with "x.txt" and fileId "1" with "2-x.txt". */
  lemma DashInIdCollides()
    ensures PathKey("1-2", "x.txt") == PathKey("1", "2-x.txt")
    ensures DownloadUrl("1-2", "x.txt") == DownloadUrl("1", "2-x.txt")
  {
  }

  /** `fs.appendFile`: append to the file, creating it empty first if absent. */
  function AppendChunk(files: map<string, seq<byte>>, key: string, chunk: seq<byte>): (r: map<string, seq<byte>>)
    ensures key in r && r[key] == (if key in files then files[key] else []) + chunk
    ensures forall k :: k != key ==> (k in r <==> k in files)
    ensures forall k :: k != key && k in files ==> r[k] == files[k]
  {
    files[key := (if key in files then files[key] else []) + chunk]
  }

  /** The directory after several appends to one file, in order. */
  function AppendAll(files: map<string, seq<byte>>, key: string, chunks: seq<seq<byte>>): map<string, seq<byte>>
  {
    if chunks == [] then files
    else AppendChunk(AppendAll(files, key, chunks[..|chunks| - 1]), key, chunks[|chunks| - 1])
  }

  lemma AppendAllSnoc(files: map<string, seq<byte>>, key: string, chunks: seq<seq<byte>>, chunk: seq<byte>)
    ensures AppendAll(files, key, chunks + [chunk]) == AppendChunk(AppendAll(files, key, chunks), key, chunk)
  {
  }

  /** `upload-start` then a run of `upload-chunk` events leaves the file holding
      exactly the concatenation of the chunks and every other file untouched. */
  lemma {:induction false} StartThenChunks(files: map<string, seq<byte>>, key: string, chunks: seq<seq<byte>>)
    ensures AppendAll(files[key := []], key, chunks) == files[key := Flatten(chunks)]
  {
    if chunks == [] {
      assert Flatten(chunks) == [];
    } else {
      var init := chunks[..|chunks| - 1];
      var last := chunks[|chunks| - 1];
      StartThenChunks(files, key, init);
      FlattenSnoc(init, last);
      assert init + [last] == chunks;
    }
  }

  // ---------------------------------------------------------------------------
  // Delivery of a finished upload
  // ---------------------------------------------------------------------------

  /** The `fileData` record built by `upload-end`. */
  function Record(fileId: string, fileName: string, isPrivate: bool, senderId: string,
                  senderName: string, timestamp: string): (r: SharedFile)
    ensures r.downloadUrl == "/uploads/" + PathKey(fileId, fileName)
    ensures r.fileId == fileId && r.fileName == fileName && r.isPrivate == isPrivate
    ensures r.senderId == senderId && r.senderName == senderName && r.recipientName == None
    ensures r.timestamp == timestamp
  {
    SharedFile(fileId, fileName, DownloadUrl(fileId, fileName), senderId, senderName, timestamp, isPrivate, None)
  }

  /** The events `upload-end` emits: to the recipient and back to the sender for a
      private send to an online user, nothing for a private send to anyone else,
      and one broadcast otherwise (also when `isPrivate` comes without a recipient). */
  function Route(sender: SocketId, record: SharedFile, isPrivate: bool, recipientId: UserId,
                 users: seq<OnlineUser>): (out: seq<Outbound>)
    ensures !(isPrivate && recipientId != "") ==> out == [Outbound(ToAll, FileShared(record))]
    ensures isPrivate && recipientId != "" ==>
      (out == [] <==> forall i :: 0 <= i < |users| ==> users[i].userId != recipientId)
    ensures isPrivate && recipientId != "" && out != [] ==>
      exists u :: u in users && u.userId == recipientId &&
        out == [Outbound(ToSocket(u.socketId), FileShared(record)),
                Outbound(ToSocket(sender), FileSent(record.(recipientName := Some(u.username))))]
  {
    if isPrivate && recipientId != "" then
      match FindUser(users, recipientId)
      case Some(recipient) =>
        [Outbound(ToSocket(recipient.socketId), FileShared(record)),
         Outbound(ToSocket(sender), FileSent(record.(recipientName := Some(recipient.username))))]
      case None => []
    else
      [Outbound(ToAll, FileShared(record))]
  }

  /** With one entry per userId, a private send to an online user reaches that
      user's own socket, and the sender learns that user's name. */
  lemma PrivateSendReachesRecipient(sender: SocketId, record: SharedFile, users: seq<OnlineUser>, i: nat)
    requires UniqueUserIds(users) && i < |users| && users[i].userId != ""
    ensures Route(sender, record, true, users[i].userId, users) ==
      [Outbound(ToSocket(users[i].socketId), FileShared(record)),
       Outbound(ToSocket(sender), FileSent(record.(recipientName := Some(users[i].username))))]
  {
    FindUserUnique(users, i);
  }

  // ---------------------------------------------------------------------------
  // The relay state and its event handlers
  // ---------------------------------------------------------------------------

  class RelayServer {
    /** `onlineUsers` */
    var online: seq<OnlineUser>
    /** The upload directory: file name to contents. */
    var uploads: map<string, seq<byte>>
    /** Every event emitted so far, in order. */
    var outbox: seq<Outbound>

    ghost predicate Valid()
      reads this
    {
      UniqueUserIds(online)
    }

    constructor ()
      ensures Valid()
      ensures online == [] && uploads == map[] && outbox == []
    {
      online := [];
      uploads := map[];
      outbox := [];
    }

    /** `join` from `socket`. */
    method Join(socket: SocketId, userId: UserId, username: string)
      requires Valid()
      modifies this
      ensures Valid()
      ensures online == Joined(old(online), OnlineUser(userId, socket, username))
      ensures uploads == old(uploads)
      ensures outbox == old(outbox) + [Outbound(ToAll, OnlineUsers(online))]
    {
      JoinedKeepsUnique(online, OnlineUser(userId, socket, username));
      online := WithoutUser(online, userId);
      online := online + [OnlineUser(userId, socket, username)];
      outbox := outbox + [Outbound(ToAll, OnlineUsers(online))];
    }

    /** `upload-start` from `socket`; `created` is the outcome of `fs.writeFile`. */
    method UploadStart(socket: SocketId, fileName: string, size: nat, fileId: string, created: bool)
      requires Valid()
      modifies this
      ensures Valid() && online == old(online)
      ensures uploads == if created then old(uploads)[PathKey(fileId, fileName) := []] else old(uploads)
      ensures outbox == old(outbox) +
        [Outbound(ToSocket(socket),
           if created then UploadAck(fileId, "ready") else UploadError(fileId, "Failed to start upload"))]
    {
      var key := PathKey(fileId, fileName);
      if created {
        uploads := uploads[key := []];
        outbox := outbox + [Outbound(ToSocket(socket), UploadAck(fileId, "ready"))];
      } else {
        outbox := outbox + [Outbound(ToSocket(socket), UploadError(fileId, "Failed to start upload"))];
      }
    }

    /** `upload-chunk` from `socket`; `appended` is the outcome of `fs.appendFile`.
        The offset is not used: bytes go to the end of the file. */
    method UploadChunk(socket: SocketId, fileId: string, fileName: string, chunk: seq<byte>, offset: nat,
                       appended: bool)
      requires Valid()
      modifies this
      ensures Valid() && online == old(online)
      ensures uploads == if appended then AppendChunk(old(uploads), PathKey(fileId, fileName), chunk)
                         else old(uploads)
      ensures outbox == old(outbox) +
        (if appended then [] else [Outbound(ToSocket(socket), UploadError(fileId, "Failed to write chunk"))])
    {
      var key := PathKey(fileId, fileName);
      if appended {
        var existing := if key in uploads then uploads[key] else [];
        uploads := uploads[key := existing + chunk];
      } else {
        outbox := outbox + [Outbound(ToSocket(socket), UploadError(fileId, "Failed to write chunk"))];
      }
    }

    /** `upload-end` from `socket`; `timestamp` is the server clock's ISO string. */
    method UploadEnd(socket: SocketId, fileId: string, fileName: string, isPrivate: bool,
                     recipientId: UserId, senderId: string, senderName: string, timestamp: string)
      requires Valid()
      modifies this
      ensures Valid() && online == old(online) && uploads == old(uploads)
      ensures outbox == old(outbox) +
        Route(socket, Record(fileId, fileName, isPrivate, senderId, senderName, timestamp),
              isPrivate, recipientId, online)
    {
      var fileData := Record(fileId, fileName, isPrivate, senderId, senderName, timestamp);
      if isPrivate && recipientId != "" {
        var recipient := FindUser(online, recipientId);
        if recipient.Some? {
          outbox := outbox + [Outbound(ToSocket(recipient.value.socketId), FileShared(fileData))];
          outbox := outbox + [Outbound(ToSocket(socket),
                                       FileSent(fileData.(recipientName := Some(recipient.value.username))))];
        }
      } else {
        outbox := outbox + [Outbound(ToAll, FileShared(fileData))];
      }
    }

    /** `disconnect` of `socket`. */
    method Disconnect(socket: SocketId)
      requires Valid()
      modifies this
      ensures Valid()
      ensures online == Left(old(online), socket)
      ensures uploads == old(uploads)
      ensures outbox == old(outbox) + [Outbound(ToAll, OnlineUsers(online))]
    {
      LeftKeepsUnique(online, socket);
      online := Filter(online, NotSocket(socket));
      outbox := outbox + [Outbound(ToAll, OnlineUsers(online))];
    }
  }
}
