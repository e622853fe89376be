# authSystem file relay and account handlers in Dafny

This project models three parts of the authSystem repository and proves
properties about them.

- **The file relay** (`server/src/socket/socketHandler.ts`). One mutable list of
  online users is shared by every connection. Each connection sends `join`,
  `upload-start`, `upload-chunk`, `upload-end` and `disconnect`, and each event
  has its own handler. Files are assembled in an upload directory under the
  name `${fileId}-${fileName}`. A finished upload is delivered in one of two
  ways:
  - privately, to one online user, with a confirmation back to the sender;
  - publicly, to everyone.

  The model is the class `SocketHandler.RelayServer`. Its fields are the
  online list, the upload directory (a map from file name to bytes) and the
  log of every emitted event. Each handler is a method. What a handler
  computes is given by pure functions (`Joined`, `Left`, `AppendChunk`,
  `Record`, `Route`), and the lemmas are proved about those functions.
- **The sending and receiving page** (`frontend/src/pages/FileShare.tsx`).
  - The chunk loop cuts a file into 64 KiB `upload-chunk` events and then
    sends exactly one `upload-end`. It is modelled by the method
    `FileShare.UploadChunks`.
  - The recipient picker lists every online user except the signed-in one
    (`FileShare.OtherUsers`).
  - Each received delivery record is prepended to the feed
    (`FileShare.Prepend`).
- **The end-to-end share** (`Transfer`). The page's chunk run is fed to the
  relay's handlers. When every write succeeds, the relay's copy is the page's
  file byte for byte.
- **The account controller** (`server/src/controllers/authController.ts`).
  The handlers signup, login, profile update, OTP request, OTP check and
  password reset are modelled by the class `AuthController.Accounts`. It holds
  the user table as a sequence, and an account's position in that sequence is
  its `_id`.

These things are inputs rather than parts of the model:
- File-system outcomes: `created` and `appended`.
- Outcome of sending email: `mailed`.
- The clock: `now` in milliseconds, and `timestamp` for the ISO string.
- The random OTP: `code`, in 100000..999999.
- bcrypt's password comparison: the abstract `matchPassword`.

A missing (`undefined`) `recipientId` in `upload-end`, and a missing `name`,
`email`, `password` or `oldPassword` in the `updateUserProfile` body, are written
as "". The code only tests those fields for truthiness (socketHandler.ts:73,
authController.ts:88-92), and both values are falsy. Every other request
field, in the socket payloads and in the other account handlers, is taken to
be a string that is present.

The code has no transfer-session table, and the model follows it:
- Nothing raises a duplicate-transfer error or an unknown-transfer error.
- `upload-start` for a file that already exists truncates it to empty.
- `upload-chunk` for a file that was never started creates it.
- `upload-end` needs no prior start.
- A private send to a user who is not online emits nothing at all.

## Model

| member | source | states |
|---|---|---|
| SocketHandler.WithoutUser | server/src/socket/socketHandler.ts:20 | exactly the entries whose userId differs are kept |
| SocketHandler.Joined | server/src/socket/socketHandler.ts:20-21 | the new entry is last, no other entry has its userId, and every other user's entry is kept |
| SocketHandler.Left | server/src/socket/socketHandler.ts:86 | exactly the entries of other sockets are kept |
| SocketHandler.FindUser | server/src/socket/socketHandler.ts:74 | found if and only if some entry has that userId, and the entry found has it |
| SocketHandler.JoinedKeepsUnique | server/src/socket/socketHandler.ts:19-21 | `join` keeps at most one entry per userId |
| SocketHandler.LeftKeepsUnique | server/src/socket/socketHandler.ts:86 | `disconnect` keeps at most one entry per userId |
| SocketHandler.RejoinMovesToEnd | server/src/socket/socketHandler.ts:19-21 | a re-join replaces the user's old entry, moves it to the end and keeps the others in order |
| SocketHandler.FirstJoinAppends | server/src/socket/socketHandler.ts:20-21 | a first join appends and changes nothing else |
| SocketHandler.DisconnectRemovesEntry | server/src/socket/socketHandler.ts:86 | disconnecting removes exactly that socket's entry and keeps the order |
| SocketHandler.LeftKeepsOrder | server/src/socket/socketHandler.ts:86 | disconnecting keeps the remaining entries in their order, even when the socket holds several entries |
| SocketHandler.DisconnectUnknownSocket | server/src/socket/socketHandler.ts:84-88 | a socket that never joined leaves the list unchanged |
| SocketHandler.FindUserUnique | server/src/socket/socketHandler.ts:74 | with unique userIds the lookup returns that user's own entry |
| SocketHandler.FirstDashEndsDigitId | server/src/socket/socketHandler.ts:31 | with a digit-only fileId, the first '-' in the file name ends the id |
| SocketHandler.DigitIdsGiveDistinctFiles | server/src/socket/socketHandler.ts:31 | for digit-only fileIds (the page's `Date.now()`), distinct (fileId, fileName) pairs give distinct stored file names |
| SocketHandler.DashInIdCollides | server/src/socket/socketHandler.ts:61 | a fileId that contains '-' can share a file and a download URL with another upload |
| SocketHandler.PathKey | server/src/socket/socketHandler.ts:31 | the stored file name is the fileId, a '-', then the file name |
| SocketHandler.DownloadUrl | server/src/socket/socketHandler.ts:61 | the download URL is `/uploads/` followed by the stored file name |
| SocketHandler.AppendChunk | server/src/socket/socketHandler.ts:48 | the file becomes its old contents (empty if absent) followed by the chunk, and every other file is unchanged |
| SocketHandler.StartThenChunks | server/src/socket/socketHandler.ts:34-48 | after an empty start and a run of appends, the file holds exactly the chunks' concatenation and other files are untouched |
| SocketHandler.Record | server/src/socket/socketHandler.ts:61-71 | the download URL is `/uploads/` plus the stored file name, the request fields are copied, the timestamp is the server clock's value, and there is no recipient name |
| SocketHandler.Route | server/src/socket/socketHandler.ts:73-81 | a send that is public or has no recipient is broadcast; a private send emits nothing if and only if the recipient is offline, and otherwise emits to the recipient's socket plus a confirmation to the sender that carries the recipient's name |
| SocketHandler.PrivateSendReachesRecipient | server/src/socket/socketHandler.ts:73-78 | with unique userIds, a private send reaches that user's own socket and names that user |
| SocketHandler.RelayServer.constructor | server/src/socket/socketHandler.ts:11 | nobody is online, the directory is empty and nothing has been emitted |
| SocketHandler.RelayServer.Join | server/src/socket/socketHandler.ts:17-25 | the list becomes `Joined`; the new list is broadcast; the one-entry-per-user invariant is kept |
| SocketHandler.RelayServer.UploadStart | server/src/socket/socketHandler.ts:29-42 | on success the file is emptied and the sender alone gets `upload-ack` "ready"; on failure the directory is unchanged and the sender gets "Failed to start upload" |
| SocketHandler.RelayServer.UploadChunk | server/src/socket/socketHandler.ts:44-57 | on success the chunk is appended whatever the offset, and nothing is emitted; on failure the sender gets "Failed to write chunk" |
| SocketHandler.RelayServer.UploadEnd | server/src/socket/socketHandler.ts:59-82 | emits exactly `Route` of the record, and the online list and directory are unchanged |
| SocketHandler.RelayServer.Disconnect | server/src/socket/socketHandler.ts:84-88 | the list becomes `Left`, the new list is broadcast, and the invariant is kept |
| FileShare.ChunkCount | frontend/src/pages/FileShare.tsx:110-115 | the least positive number of 64 KiB chunks that covers the file (one for an empty file) |
| FileShare.ChunkExtendsPrefix | frontend/src/pages/FileShare.tsx:99 | each slice continues the bytes before it |
| FileShare.ChunkCountUnique | frontend/src/pages/FileShare.tsx:114 | the stopping test `offset < file.size` stops exactly at the chunk count |
| FileShare.MoreChunksDue | frontend/src/pages/FileShare.tsx:114-115 | while the offset is below the size, another chunk is still due |
| FileShare.ChunkRunCovers | frontend/src/pages/FileShare.tsx:99-110 | the first k chunks concatenate to the file's first k·65536 bytes |
| FileShare.UploadChunks | frontend/src/pages/FileShare.tsx:93-135 | sends `ChunkCount` chunk events, the k-th carrying the k-th slice at offset k·65536; the chunks concatenate to the file; then exactly one `upload-end` follows, private exactly when the `recipientId` the loop is handed is non-empty |
| FileShare.ChunkOffsetsIncrease | frontend/src/pages/FileShare.tsx:103-110 | offsets strictly increase along the run |
| FileShare.StaleRecipientSendsPublic | frontend/src/pages/FileShare.tsx:41-52 | as written, a file picked before the recipient is sent with the earlier "" recipient, so it goes out public |
| FileShare.ListenerSeesCurrentRecipient | frontend/src/pages/FileShare.tsx:41-52 | whenever every recipient change registers a fresh listener, the listener sees the recipient on screen |
| FileShare.CorrectedListenerSeesCurrentRecipient | frontend/src/pages/FileShare.tsx:52 | with `recipientId` among the effect's dependencies, the chunk loop is handed the recipient on screen |
| FileShare.OtherUsers | frontend/src/pages/FileShare.tsx:28 | exactly the online entries that are not the signed-in user (all of them when nobody is signed in) |
| FileShare.OtherUsersKeepOrder | frontend/src/pages/FileShare.tsx:28 | the picker keeps the relay's order |
| FileShare.OtherUsersWithoutMe | frontend/src/pages/FileShare.tsx:28 | a list without the signed-in user is shown unchanged |
| FileShare.Prepend | frontend/src/pages/FileShare.tsx:33-39 | the record becomes the first entry and the earlier feed follows unchanged |
| FileShare.FeedNewestFirst | frontend/src/pages/FileShare.tsx:33-39 | after several arrivals the feed is the arrivals newest first, followed by the old feed |
| Transfer.DeliverChunks | server/src/socket/socketHandler.ts:44-57 | a run of successful `upload-chunk` events appends the payloads in order and emits nothing |
| Transfer.ShareFile | frontend/src/pages/FileShare.tsx:82-135 | after a share where every write succeeds, the relay's file is exactly the sent file, other files are unchanged, and the sender receives the ack followed by the routed delivery |
| AuthController.FindByEmail | server/src/controllers/authController.ts:13 | finds an account with that email if and only if one exists |
| AuthController.FindOtpHolder | server/src/controllers/authController.ts:164-168 | finds an account if and only if one has that email and OTP and an expiry strictly after now |
| AuthController.Decimal | server/src/controllers/authController.ts:130 | `toString()` yields one or more decimal digits |
| AuthController.DecimalRoundTrip | server/src/controllers/authController.ts:130 | the digits read back as the code, so distinct codes give distinct OTPs |
| AuthController.OtpSixDigits | server/src/controllers/authController.ts:130 | every code in 100000..999999 is six digits long |
| AuthController.SignupKeepsEmailsUnique | server/src/controllers/authController.ts:13-24 | a signup that passes the duplicate check keeps emails unique |
| AuthController.IssuedOtpExpires | server/src/controllers/authController.ts:133-135 | with unique emails, a freshly issued OTP verifies exactly while now < issue time + 600000 |
| AuthController.ResetIsSingleUse | server/src/controllers/authController.ts:184-198 | with unique emails, after a reset no account holds the used OTP at any later time |
| AuthController.Accounts.Signup | server/src/controllers/authController.ts:10-36 | a known email gives 400 and leaves the table unchanged; otherwise the account is appended and returned with 201 |
| AuthController.Accounts.Login | server/src/controllers/authController.ts:41-57 | returns 200 with the account if and only if the email exists and the password matches; otherwise 401 with the same message in both cases; nothing changes |
| AuthController.Accounts.UpdateUserProfile | server/src/controllers/authController.ts:84-116 | unknown id gives 404; a new password without the old one gives 400 and a wrong old one gives 401, and neither saves anything; otherwise the name, email and password given replace the stored ones, empty fields keep them, and the result is returned |
| AuthController.Accounts.ForgotPassword | server/src/controllers/authController.ts:120-156 | an unknown email gives 404; otherwise the OTP and an expiry of now + 600000 are stored with 200; a failed email clears both fields and gives 500 |
| AuthController.Accounts.VerifyOtp | server/src/controllers/authController.ts:161-176 | 200 if and only if some account has that email and OTP with expiry strictly after now; otherwise 400; nothing changes |
| AuthController.Accounts.ResetPassword | server/src/controllers/authController.ts:181-203 | same test as VerifyOtp; on success stores the password and clears the OTP and expiry, and on failure changes nothing |

## Left out

- The socket.io transport, the `connection` wiring and concurrency are not modelled. Events are one sequential trace, and each connection's messages are assumed to arrive in the order they were sent.
- File-system I/O is not modelled as I/O. Each write completes before the next event, and its success is a parameter. The `path.join` prefix of the upload directory is left out, so the directory is a map keyed by `${fileId}-${fileName}`.
- SocketHandler.PathKey, SocketHandler.DigitIdsGiveDistinctFiles: the normalisation that `path.join` (socketHandler.ts:31, 46) applies to the fileId and fileName the client supplies is not modelled. `/` and `..` in them are resolved. So ("1", "/../2-b") and ("2", "b") reach the same file `uploads/2-b`, and a name with more `..` segments reaches a file outside the upload directory. DigitIdsGiveDistinctFiles speaks only about the stored name before normalisation. Two uploads with the same name in the same `Date.now()` millisecond also share a file.
- The socket payload fields other than `isPrivate` and `recipientId` (`fileId`, `fileName`, `senderId`, `senderName`, `userId`, `username`) are taken to be present strings. A missing `fileId` or `fileName` would become the text "undefined" in `${fileId}-${fileName}` and in the URL (socketHandler.ts:31, 46, 61), and a missing `senderName` or `username` would be copied as `undefined` (socketHandler.ts:21, 67-68). The model has no value for either.
- Console logging is left out.
- FileShare.UploadChunks: the recipient it is handed is a parameter. On the page it is the `recipientId` captured in the render that last registered the `upload-ack` listener (FileShare.tsx:30-52), which can be stale. `ListenerRecipient` models that capture; see Findings.
- SocketHandler.RelayServer.UploadStart, SocketHandler.RelayServer.UploadChunk: a failed write leaves the modelled file unchanged. A partial write is not modelled.
- SocketHandler.RelayServer.UploadChunk: the `offset` field is accepted and ignored, as the code ignores it. Bytes go to the end of the file.
- The server clock (`new Date().toISOString()`, `Date.now()`) is an input.
- The page's `fileId = Date.now()` is an input. `DigitIdsGiveDistinctFiles` states what a digit-only id guarantees.
- On the page, these are not modelled: React state and rendering, FileReader callbacks, drag and drop, and the progress percentage (FileShare.tsx:111-112).
- The page's `upload-ack` handler (FileShare.tsx:41-45) starts the chunk loop when the status is "ready" and a file is selected. Transfer.ShareFile takes that path. The page never reacts to `upload-error`.
- FileShare.UploadChunks: the `e.target?.result && socket` guard (FileShare.tsx:102) is taken to hold. An empty slice reads as an empty ArrayBuffer, which is truthy.
- The Mongoose user model is not part of this model: schema validation, any unique index on email, and the password-hashing hook. Because of this, `User.create` always succeeds and the "Invalid user data" branch (authController.ts:33-35) cannot be reached. A profile update can also give two accounts the same email. The lemmas that need unique emails take it as a precondition.
- AuthController.Accounts.VerifyOtp, AuthController.Accounts.ResetPassword, AuthController.IssuedOtpExpires, AuthController.ResetIsSingleUse: request fields are taken to be strings, and Mongoose's casting of filter values is not modelled. A JSON object sent as `otp` (such as `{"$ne": ""}`) would become a query operator and match without the OTP. A missing field is not the same filter as "". The same holds for the `email` filter of signup, login and forgotPassword.
- bcrypt hashing is not modelled. A password is stored as given, and `matchPassword` is an abstract comparison.
- `generateToken` (the JWT cookie) is an effect on the response and is left out.
- `sendEmail` is reduced to its outcome (`mailed`), and the mail text is left out.
- `Math.random()` is replaced by the argument `code`, which may be any value in 100000..999999.
- `logout` and `getUserProfile` only write a cookie or read one record, and are not modelled. `authMiddleware`, the routes and the server bootstrap are not part of this model.
- AuthController.Accounts.ForgotPassword: the intermediate save before the email is sent is not observable in a sequential model. Only the final state of each outcome is stated.

## Findings

| source | as written | input that shows it | evidently intended | confidence | as-written member | corrected member |
|---|---|---|---|---|---|---|
| frontend/src/pages/FileShare.tsx:52 | the `upload-ack` listener is re-registered only when `socket` or `selectedFile` changes, so `uploadChunks` uses the `recipientId` from the render where the file was picked | pick a file while "Everyone (Public)" is selected, then pick user "u1", then upload: `upload-end` carries `isPrivate: false` and the relay broadcasts the file to everyone | the recipient on screen when the upload starts, so the effect also depends on `recipientId` | not executed | FileShare.StaleRecipientSendsPublic | FileShare.CorrectedListenerSeesCurrentRecipient |
