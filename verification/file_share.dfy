/** The sending and receiving side of frontend/src/pages/FileShare.tsx: the loop
    that cuts a file into 64 KiB `upload-chunk` events and closes with one
    `upload-end`, the list of other online users the recipient picker offers,
    and the feed of received delivery records. */
module FileShare {
  import opened Base
  import opened Wire

  /** `64 * 1024` */
  const ChunkSize: nat := 64 * 1024

  /** The offset of the k-th chunk, `k * chunkSize`. */
  function OffsetOf(k: nat): nat
  {
    k * ChunkSize
  }

  function Min(a: nat, b: nat): nat
  {
    if a <= b then a else b
  }

  /** `Blob.slice(start, end)`: both ends are clamped to the size of the file. */
  function Slice(file: seq<byte>, start: nat, end: nat): seq<byte>
    requires start <= end
  {
    file[Min(start, |file|)..Min(end, |file|)]
  }

  /** The bytes of the k-th chunk the page sends. */
  function ChunkAt(file: seq<byte>, k: nat): seq<byte>
  {
    Slice(file, OffsetOf(k), OffsetOf(k) + ChunkSize)
  }

  /** How many `upload-chunk` events a file of `size` bytes produces: the least
      positive count whose chunks cover the file (one for an empty file). */
  function ChunkCount(size: nat): (n: nat)
    ensures n >= 1 && size <= OffsetOf(n)
    ensures n == 1 || OffsetOf(n - 1) < size
  {
    if size <= ChunkSize then 1 else 1 + ChunkCount(size - ChunkSize)
  }

  /** The chunks are contiguous: the k-th one continues the bytes before it. */
  lemma ChunkExtendsPrefix(file: seq<byte>, k: nat)
    ensures file[..Min(OffsetOf(k), |file|)] + ChunkAt(file, k) == file[..Min(OffsetOf(k + 1), |file|)]
  {
  }

  /** The chunk count is the only positive count that covers the file without an
      empty trailing chunk. */
  lemma ChunkCountUnique(size: nat, n: nat)
    requires n >= 1 && size <= OffsetOf(n) && (n == 1 || OffsetOf(n - 1) < size)
    ensures n == ChunkCount(size)
  {
  }

  /** The payloads of the `upload-chunk` events among `events`, in order. */
  function Payloads(events: seq<Inbound>): seq<seq<byte>>
  {
    if events == [] then []
    else
      var last := events[|events| - 1];
      Payloads(events[..|events| - 1]) + (if last.UploadChunk? then [last.chunk] else [])
  }

  lemma PayloadsSnoc(events: seq<Inbound>, e: Inbound)
    ensures Payloads(events + [e]) == Payloads(events) + (if e.UploadChunk? then [e.chunk] else [])
  {
  }

  lemma PayloadsPrefix(events: seq<Inbound>, i: nat)
    requires i < |events|
    ensures Payloads(events[..i + 1]) ==
      Payloads(events[..i]) + (if events[i].UploadChunk? then [events[i].chunk] else [])
  {
    assert events[..i + 1] == events[..i] + [events[i]];
    PayloadsSnoc(events[..i], events[i]);
  }

  /** `events` are the first |events| chunk events the page sends for `file`:
      the k-th carries the k-th slice, tagged with offset k * 65536. */
  predicate IsChunkRun(file: seq<byte>, fileId: string, fileName: string, events: seq<Inbound>)
  {
    forall k :: 0 <= k < |events| ==> events[k] == UploadChunk(fileId, fileName, ChunkAt(file, k), OffsetOf(k))
  }

  /** The slices of a run of chunk events concatenate to the file's prefix of
      that many chunks. */
  lemma {:induction false} ChunkRunCovers(file: seq<byte>, fileId: string, fileName: string, events: seq<Inbound>)
    requires IsChunkRun(file, fileId, fileName, events)
    ensures Flatten(Payloads(events)) == file[..Min(OffsetOf(|events|), |file|)]
  {
    if events != [] {
      var k := |events| - 1;
      var init := events[..k];
      assert IsChunkRun(file, fileId, fileName, init) by {
        forall j | 0 <= j < |init| ensures init[j] == events[j] { }
      }
      ChunkRunCovers(file, fileId, fileName, init);
      assert init + [events[k]] == events;
      PayloadsSnoc(init, events[k]);
      FlattenSnoc(Payloads(init), ChunkAt(file, k));
      ChunkExtendsPrefix(file, k);
    }
  }

  /** One more chunk continues a run of chunk events. */
  lemma ChunkRunExtends(file: seq<byte>, fileId: string, fileName: string, events: seq<Inbound>)
    requires IsChunkRun(file, fileId, fileName, events)
    ensures IsChunkRun(file, fileId, fileName,
      events + [UploadChunk(fileId, fileName, ChunkAt(file, |events|), OffsetOf(|events|))])
  {
  }

  /** While the file is not covered there is at least one more chunk to send. */
  lemma MoreChunksDue(size: nat, n: nat)
    requires n == 0 || OffsetOf(n) < size
    ensures n + 1 <= ChunkCount(size)
  {
  }

  /** A run of as many chunk events as the file needs delivers the whole file;
      the closing event follows it. */
  lemma CompleteRun(file: seq<byte>, fileId: string, fileName: string, chunks: seq<Inbound>, end: Inbound)
    requires IsChunkRun(file, fileId, fileName, chunks) && |chunks| == ChunkCount(|file|)
    ensures (chunks + [end])[..|chunks|] == chunks && (chunks + [end])[|chunks|] == end
    ensures Flatten(Payloads(chunks)) == file
  {
    ChunkRunCovers(file, fileId, fileName, chunks);
    assert file[..Min(OffsetOf(|chunks|), |file|)] == file;
  }

  /** `uploadChunks(file, fileId)` with `readChunk` re-invoked until the offset
      reaches the size: the events the page emits, in order. The first chunk is
      sent before the size is looked at, so an empty file still yields one empty
      chunk. `recipientId` is "" for "Everyone (Public)". */
  method UploadChunks(file: seq<byte>, fileName: string, fileId: string, recipientId: UserId,
                      senderId: string, senderName: string) returns (sent: seq<Inbound>)
    ensures |sent| == ChunkCount(|file|) + 1
    ensures IsChunkRun(file, fileId, fileName, sent[..|sent| - 1])
    ensures sent[|sent| - 1] == UploadEnd(fileId, fileName, recipientId != "", recipientId, senderId, senderName)
    ensures Flatten(Payloads(sent[..|sent| - 1])) == file
  {
    var chunks: seq<Inbound> := [];
    var offset: nat := 0;
    while true
      invariant offset == OffsetOf(|chunks|)
      invariant IsChunkRun(file, fileId, fileName, chunks)
      invariant chunks == [] || offset < |file|
      decreases |file| + ChunkSize - offset
    {
      var chunk := Slice(file, offset, offset + ChunkSize);
      assert chunk == ChunkAt(file, |chunks|);
      ChunkRunExtends(file, fileId, fileName, chunks);
      MoreChunksDue(|file|, |chunks|);
      chunks := chunks + [UploadChunk(fileId, fileName, chunk, offset)];
      offset := offset + ChunkSize;
      if offset >= |file| {
        ChunkCountUnique(|file|, |chunks|);
        break;
      }
    }
    var end := UploadEnd(fileId, fileName, recipientId != "", recipientId, senderId, senderName);
    CompleteRun(file, fileId, fileName, chunks, end);
    sent := chunks + [end];
  }

  /** Chunks go out in strictly increasing offset order. */
  lemma ChunkOffsetsIncrease(file: seq<byte>, fileId: string, fileName: string, events: seq<Inbound>, i: nat, j: nat)
    requires IsChunkRun(file, fileId, fileName, events) && i < j < |events|
    ensures events[i].offset < events[j].offset
  {
  }

  /** What the user does on the page between mounting it and the `upload-ack`
      that starts the chunk loop: pick a file, or pick a recipient in the
      selector ("" for "Everyone (Public)"). */
  datatype PageAction = SelectFile | ChooseRecipient(recipientId: UserId)

  /** The `recipientId` state after the actions. */
  function CurrentRecipient(initial: UserId, actions: seq<PageAction>): UserId
  {
    if actions == [] then initial
    else
      var last := actions[|actions| - 1];
      if last.ChooseRecipient? then last.recipientId else CurrentRecipient(initial, actions[..|actions| - 1])
  }

  /** The `recipientId` the `upload-ack` listener's `uploadChunks` closure sees.
      The effect that registers the listener runs on mount and again after
      every action for which `reRegisters` holds (an action that changes one of
      its dependencies); the closure keeps the state of that render. */
  function ListenerRecipient(initial: UserId, actions: seq<PageAction>, reRegisters: PageAction -> bool): UserId
  {
    if actions == [] then initial
    else if reRegisters(actions[|actions| - 1]) then CurrentRecipient(initial, actions)
    else ListenerRecipient(initial, actions[..|actions| - 1], reRegisters)
  }

  /** The dependencies as written, `[socket, selectedFile]`: only picking a file
      registers a fresh listener. */
  function RegistersOnFile(a: PageAction): bool
  {
    a.SelectFile?
  }

  /** Dependencies that include `recipientId` as well. */
  function RegistersOnFileOrRecipient(a: PageAction): bool
  {
    a.SelectFile? || a.ChooseRecipient?
  }

  /** As written, choosing a recipient after the file leaves the listener with
      the earlier "" so the share goes out public, to everyone. */
  lemma StaleRecipientSendsPublic()
    ensures CurrentRecipient("", [SelectFile, ChooseRecipient("u1")]) == "u1"
    ensures ListenerRecipient("", [SelectFile, ChooseRecipient("u1")], RegistersOnFile) == ""
  {
    var actions := [SelectFile, ChooseRecipient("u1")];
    assert actions[..1] == [SelectFile];
    assert [SelectFile][..0] == [];
  }

  /** Whenever every recipient change registers a fresh listener, the listener
      sees the recipient currently selected. */
  lemma {:induction false} ListenerSeesCurrentRecipient(initial: UserId, actions: seq<PageAction>,
                                                         reRegisters: PageAction -> bool)
    requires forall a: PageAction :: a.ChooseRecipient? ==> reRegisters(a)
    ensures ListenerRecipient(initial, actions, reRegisters) == CurrentRecipient(initial, actions)
  {
    if actions != [] && !reRegisters(actions[|actions| - 1]) {
      ListenerSeesCurrentRecipient(initial, actions[..|actions| - 1], reRegisters);
    }
  }

  /** With `recipientId` among the dependencies the chunk loop is handed the
      recipient on screen, so `isPrivate` is set exactly when one is selected. */
  lemma CorrectedListenerSeesCurrentRecipient(initial: UserId, actions: seq<PageAction>)
    ensures ListenerRecipient(initial, actions, RegistersOnFileOrRecipient) == CurrentRecipient(initial, actions)
  {
  }

  /** The online users the page lists and offers as recipients: everyone but the
      signed-in user, in the relay's order. With nobody signed in (`userInfo`
      undefined) no entry is excluded. */
  function OtherUsers(online: seq<OnlineUser>, me: Option<UserId>): (r: seq<OnlineUser>)
    ensures forall u :: u in r <==> u in online && (me.None? || u.userId != me.value)
  {
    Filter(online, NotMe(me))
  }

  function NotMe(me: Option<UserId>): OnlineUser -> bool
  {
    (u: OnlineUser) => me.None? || u.userId != me.value
  }

  /** The picker keeps the relay's order: for any split of the online list, the
      users listed from the first part come before those from the second. */
  lemma OtherUsersKeepOrder(first: seq<OnlineUser>, second: seq<OnlineUser>, me: Option<UserId>)
    ensures OtherUsers(first + second, me) == OtherUsers(first, me) + OtherUsers(second, me)
  {
    FilterAppend(first, second, NotMe(me));
  }

  /** A list in which the signed-in user does not appear is shown unchanged. */
  lemma OtherUsersWithoutMe(online: seq<OnlineUser>, me: Option<UserId>)
    requires forall i :: 0 <= i < |online| ==> me.None? || online[i].userId != me.value
    ensures OtherUsers(online, me) == online
  {
    FilterKeepsAll(online, NotMe(me));
  }

  /** `setFiles((prev) => [file, ...prev])` on `file-shared` and on `file-sent`. */
  function Prepend(feed: seq<SharedFile>, file: SharedFile): (r: seq<SharedFile>)
    ensures |r| == |feed| + 1 && r[0] == file
    ensures forall i :: 0 <= i < |feed| ==> r[i + 1] == feed[i]
  {
    [file] + feed
  }

  /** The feed after the records in `arrivals` are received one after another. */
  function Receive(feed: seq<SharedFile>, arrivals: seq<SharedFile>): seq<SharedFile>
    decreases arrivals
  {
    if arrivals == [] then feed else Receive(Prepend(feed, arrivals[0]), arrivals[1..])
  }

  function Reverse<T>(s: seq<T>): (r: seq<T>)
  {
    if s == [] then [] else Reverse(s[1..]) + [s[0]]
  }

  /** The feed lists records newest first, followed by the earlier feed as it was. */
  lemma {:induction false} FeedNewestFirst(feed: seq<SharedFile>, arrivals: seq<SharedFile>)
    ensures Receive(feed, arrivals) == Reverse(arrivals) + feed
    decreases arrivals
  {
    if arrivals != [] {
      var rest := arrivals[1..];
      calc {
        Receive(feed, arrivals);
        Receive([arrivals[0]] + feed, rest);
        { FeedNewestFirst([arrivals[0]] + feed, rest); }
        Reverse(rest) + ([arrivals[0]] + feed);
        (Reverse(rest) + [arrivals[0]]) + feed;
        Reverse(arrivals) + feed;
      }
    }
  }
}
