# DAIC core in Dafny

DAIC is a web client for registering AI datasets with their provenance, chatting between
peers, voting on proposals and registering decentralised identities on NEAR. This project
models the parts of it that hold logic and proves properties of them:

- **Integrity proofs** (`Zk`). A proof stores `dataHash = H(data)` and
  `signature = H(dataHash ":" timestamp ":" nonce)` as 64 lowercase hexadecimal digits.
  Verification recomputes both hashes. File proofs hash a string built from the file's name,
  its size and its first 1024 bytes.
- **Content ids** (`Ipfs`, `Hex`, `Utf8`). When no storage key is configured, the client
  computes a local CID: `"bafkrei"` followed by the first 52 hexadecimal digits of the
  SHA-256 of the content. JSON uploads hash the UTF-8 encoding of the serialised value.
- **The three NEAR contracts** (`Provenance`, `Dao`, `DidRegistry`). Each is a class whose
  map field the methods update. The caller, the block timestamp and the attached deposit are
  parameters.
- **Chat** (`Chat`, `ChatPage`). The service builds messages and the payload it writes. A
  subscription lets each delivered key through once. The page merges each incoming message
  into a list kept sorted by timestamp with distinct ids. Two runs that deliver the same
  messages in any order reach the same list, provided messages with the same id are the same
  message and different messages have different timestamps. With equal timestamps the
  stable sort keeps arrival order, so the lists can differ.
- **The dataset form** (`DatasetsPage`). It has a submit guard and picks where the CID comes
  from. It parses the comma-separated parent ids, makes the proof over the title, the
  description and the CID, and registers the dataset under that CID.
- **Toasts** (`Toasts`). An append-to-end updater and a remove-by-id filter.

SHA-256 is a parameter `h: Bytes.Sha256`: any function whose outputs are all 32 bytes.
Nothing assumes it is injective. The lemmas about tampered data, a tampered timestamp or
nonce, and a tampered file sample (`Zk.TamperedDataRejected`,
`Zk.TamperedTimestampOrNonceRejected`, `Zk.FileProofCoversSample`, and
`Zk.Sha256HexDistinct` beneath them) instead require that `h` does not collide on the two
specific inputs they compare (`Bytes.NoCollision`). `Zk.TamperedSignatureRejected` and
`Zk.DataHashMismatchRejects` need no such assumption. `JSON.stringify` is a
parameter too, with no properties assumed. `${n}` for a number is `Decimal.NumberToString`,
proved injective. `String.prototype.trim` strips the ECMAScript white-space and
line-terminator characters. The built-in sort is modelled as a stable insertion sort, which
is what a stable sort by timestamp computes.

On the contracts, `+= 1` and `+= deposit` follow Rust's checked arithmetic. An addition past
`u64`/`u128` panics, and a panic leaves the state unchanged. `UnorderedMap` iterates in
insertion order. Proposals are only inserted, under ids 0, 1, 2, …, so `get_all_proposals`
returns them by id.

The chat page does not add a message it sends to its own list. The message appears only when the store
delivers it back to the subscription. `ChatPage.ChatPage.SendMessage` leaves `messages`
unchanged.

## Model

| member | source | states |
|---|---|---|
| Zk.Sha256Hex | frontend/src/services/zk.ts:15-21 | the digest in hexadecimal is exactly 64 characters, all hexadecimal digits |
| Zk.DataString | frontend/src/services/zk.ts:29 | a string is hashed as it is; any other value is hashed as its `JSON.stringify` text |
| Zk.SignatureInput | frontend/src/services/zk.ts:37 | the signed text is the data hash, ':', the decimal timestamp, ':' and the nonce, in that order and with that length |
| Zk.VerifyProof | frontend/src/services/zk.ts:51-66 | a proof that verifies carries the hash of the data string, and both its hashes are 64 characters |
| Zk.SerialisedFormVerifies | frontend/src/services/zk.ts:29 | a proof made for a non-string value also verifies against that value's `JSON.stringify` text |
| Zk.GenerateProof | frontend/src/services/zk.ts:28-45 | the proof carries the given timestamp and nonce, and both hashes are 64 characters |
| Zk.VerifyProofMeaning | frontend/src/services/zk.ts:51-66 | verification succeeds iff the stored data hash is the hash of the data string and the stored signature is the hash of `dataHash:timestamp:nonce` |
| Zk.GeneratedProofVerifies | frontend/src/services/zk.ts:28-45 | every generated proof verifies against the data it was made for |
| Zk.DataHashMismatchRejects | frontend/src/services/zk.ts:55-58 | a data-hash mismatch rejects the proof whatever its signature |
| Zk.Sha256HexDistinct | frontend/src/services/zk.ts:15-21 | different inputs whose UTF-8 encodings do not collide have different hexadecimal digests |
| Zk.SplitAtFirst | frontend/src/services/zk.ts:37 | a string split at the first occurrence of a separator absent from the head has a unique head and tail |
| Zk.NumberHasNoColon | frontend/src/services/zk.ts:37 | a rendered timestamp holds no ':' |
| Zk.SignatureInputInjective | frontend/src/services/zk.ts:37 | for one data hash, the signed text determines the timestamp and the nonce |
| Zk.TamperedSignatureRejected | frontend/src/services/zk.ts:61-65 | a generated proof with any other signature is rejected |
| Zk.TamperedTimestampOrNonceRejected | frontend/src/services/zk.ts:61-65 | a generated proof with another timestamp or nonce is rejected, given no collision on the two signed texts |
| Zk.TamperedDataRejected | frontend/src/services/zk.ts:51-58 | a proof does not verify against data with another data string, given no collision on the two strings |
| Zk.FileDataString | frontend/src/services/zk.ts:76 | the file's data string starts with `file:`, the name, ':', the decimal size and ':' |
| Zk.Sample | frontend/src/services/zk.ts:75 | the sample is the first min(1024, size) bytes of the file |
| Zk.ByteStrings | frontend/src/services/zk.ts:76 | each sampled byte is rendered as its decimal number, one string per byte |
| Zk.GenerateFileProof | frontend/src/services/zk.ts:71-78 | the file proof verifies against `file:name:size:` followed by the sample joined by ',' |
| Zk.FileProofIgnoresTail | frontend/src/services/zk.ts:74-76 | two files with the same name, size and first 1024 bytes get the same proof |
| Zk.JoinedBytesInjective | frontend/src/services/zk.ts:76 | the comma-joined decimal bytes determine the bytes |
| Zk.CommaFreeNumber | frontend/src/services/zk.ts:76 | a rendered byte holds no ',' |
| Zk.FileProofCoversSample | frontend/src/services/zk.ts:71-78 | a file proof is rejected for a file of the same name and size whose sample differs, given no collision |
| Hex.Digit | frontend/src/services/ipfs.ts:26 | a value below 16 becomes a hexadecimal digit |
| Hex.DigitValueOfDigit | frontend/src/services/ipfs.ts:26 | reading a written digit gives the value back |
| Hex.ToBase16 | frontend/src/services/ipfs.ts:26 | `b.toString(16)` is one digit below 16 and two from 16 up: the low digit last, the high digit first when there is one |
| Hex.PadStart2 | frontend/src/services/ipfs.ts:26 | `padStart(2, "0")` makes a string at least 2 long, keeps it at the end, and fills the front with '0' |
| Hex.ByteToHex | frontend/src/services/ipfs.ts:26 | a byte becomes two hexadecimal digits that read back as the byte, high digit first |
| Hex.ByteToHexIsPadStart | frontend/src/services/ipfs.ts:26 | the two digits are exactly `b.toString(16).padStart(2, "0")` |
| Hex.Encode | frontend/src/services/ipfs.ts:20-27 | the encoding has two hexadecimal digits per byte |
| Hex.DecodeEncode | frontend/src/services/ipfs.ts:20-27 | decoding the encoding gives the bytes back |
| Hex.EncodeInjective | frontend/src/services/ipfs.ts:20-27 | different bytes have different encodings |
| Hex.EncodeAppend | frontend/src/services/ipfs.ts:26 | encoding distributes over concatenation: each byte is written on its own |
| Hex.EncodePrefix | frontend/src/services/ipfs.ts:26 | the first 2k digits encode the first k bytes |
| Utf8.EncodeChar | frontend/src/services/ipfs.ts:47-48 | a character becomes 1 to 4 bytes: a lead byte that gives the length, then continuation bytes |
| Utf8.DecodeEncodeChar | frontend/src/services/ipfs.ts:47-48 | decoding a character's bytes gives its code point back |
| Utf8.EncodeCharInjective | frontend/src/services/zk.ts:16-17 | different characters have different encodings |
| Utf8.Encode | frontend/src/services/zk.ts:16-17 | the encoding is empty iff the string is, and at least as long as it |
| Utf8.EncodeInjective | frontend/src/services/zk.ts:16-17 | different strings have different UTF-8 encodings |
| Utf8.EncodeAppend | frontend/src/services/ipfs.ts:47-48 | the encoding of a concatenation is the concatenation of the encodings |
| Decimal.NatToString | frontend/src/services/zk.ts:37 | a natural number renders as a non-empty string of digits |
| Decimal.ParseNatToString | frontend/src/services/zk.ts:37 | reading a rendered natural number gives it back |
| Decimal.NatToStringInjective | frontend/src/services/zk.ts:37 | different natural numbers render differently |
| Decimal.NumberToString | frontend/src/services/zk.ts:37 | an integer renders as digits and a '-' sign only |
| Decimal.NumberToStringSign | frontend/src/services/zk.ts:37 | the rendering starts with '-' iff the number is negative |
| Decimal.NumberToStringInjective | frontend/src/services/zk.ts:37 | different numbers render differently |
| Strings.Trim | frontend/src/app/chat/page.tsx:66 | `trim` returns a slice of the input that starts right after its leading white space |
| Strings.TrimSpec | frontend/src/app/chat/page.tsx:66 | the trimmed string starts and ends with a non-white-space character, and only white space was cut from either end |
| Strings.TrimTrimmed | frontend/src/app/datasets/page.tsx:77 | trimming a trimmed string changes nothing |
| Strings.TrimEmpty | frontend/src/app/datasets/page.tsx:46 | `trim` gives the empty string exactly for an all-white-space input |
| Strings.Split | frontend/src/app/datasets/page.tsx:76 | `split(",")` gives at least one piece, and no piece holds the separator |
| Strings.Join | frontend/src/services/zk.ts:76 | `join(",")` starts with the first piece, followed by the separator when there is a second |
| Strings.JoinSplit | frontend/src/app/datasets/page.tsx:76 | joining the pieces of a split gives the string back |
| Strings.SplitJoin | frontend/src/app/datasets/page.tsx:76 | splitting a join of separator-free pieces gives the pieces back |
| Strings.Slice | frontend/src/services/ipfs.ts:30 | `slice(start, end)` clamps the bounds to the length and copies the characters in between |
| Ipfs.ContentHash | frontend/src/services/ipfs.ts:20-27 | the content hash is 64 characters |
| Ipfs.HashToCid | frontend/src/services/ipfs.ts:29-31 | the CID is "bafkrei" followed by the first min(52, length) characters of the hash |
| Ipfs.LocalCid | frontend/src/services/ipfs.ts:80-81 | the fallback CID is 59 characters and starts with "bafkrei" |
| Ipfs.UploadJsonLocal | frontend/src/services/ipfs.ts:79-86 | without a storage key, `uploadJSON` returns the local CID of the UTF-8 bytes of the serialised data, the gateway URL of that CID, no Filecoin deal and no size |
| Ipfs.UploadFileLocal | frontend/src/services/ipfs.ts:121-127 | without a storage key, `uploadFile` returns the local CID of the file's bytes, the gateway URL of that CID, no Filecoin deal and no size |
| Ipfs.LocalCidShape | frontend/src/services/ipfs.ts:80-81 | a local CID is 59 characters: "bafkrei" and the hexadecimal of the digest's first 26 bytes |
| Ipfs.LocalCidEqual | frontend/src/services/ipfs.ts:121-122 | two contents get the same local CID iff their digests agree on the first 26 bytes |
| Ipfs.LocalUpload | frontend/src/services/ipfs.ts:79-86 | the fallback result has the local CID, no Filecoin deal, no size, and the gateway URL of the CID |
| Ipfs.GetUrl | frontend/src/services/ipfs.ts:149-151 | the URL is the gateway, a '/', then the CID |
| Provenance.DaicProvenance.constructor | contracts/provenance/src/lib.rs:27-32 | a new registry holds no dataset |
| Provenance.DaicProvenance.GetDataset | contracts/provenance/src/lib.rs:47-49 | the stored record for the id, or None when there is none; a stored record's id is its key |
| Provenance.DaicProvenance.RegisterDataset | contracts/provenance/src/lib.rs:34-45 | the record, owned by the caller and stamped with the block time, is stored under its id, overwriting any earlier one; other ids are unchanged |
| Provenance.RegisterTwiceOverwrites | contracts/provenance/src/lib.rs:34-45 | on any registry, registering an id twice succeeds both times; afterwards the id holds the second record, with the second caller and time, and no other id has changed |
| Provenance.RegisterAcceptsUnknownParents | contracts/provenance/src/lib.rs:34-45 | on any registry, any lineage is stored as given; no parent is looked up, and each parent other than the record itself keeps the entry it had, possibly none |
| Dao.DaicDao.constructor | contracts/dao/src/lib.rs:28-34 | a new DAO has no proposal and a count of 0 |
| Dao.DaicDao.CreateProposal | contracts/dao/src/lib.rs:36-50 | the new proposal gets the old count as id, zero votes and contributions and the caller as proposer; the count goes up by one; at the u64 limit the call panics and nothing changes |
| Dao.DaicDao.Vote | contracts/dao/src/lib.rs:52-60 | a missing id panics with "Proposal not found"; otherwise votes go up by one and contributions by the deposit, other proposals unchanged; an overflow panics and changes nothing |
| Dao.DaicDao.GetProposal | contracts/dao/src/lib.rs:62-64 | the stored proposal, present exactly for ids below the count, with its own id as key |
| Dao.DaicDao.GetAllProposals | contracts/dao/src/lib.rs:66-68 | every stored proposal, in id order, and nothing else |
| DidRegistry.DidOf | contracts/did_registry/src/lib.rs:34 | the DID is "did:near:" followed by the account id |
| DidRegistry.StripDidPrefix | contracts/did_registry/src/lib.rs:34 | strips "did:near:" exactly from strings that start with it |
| DidRegistry.StripDidOf | contracts/did_registry/src/lib.rs:34 | stripping the prefix from an account's DID gives the account back |
| DidRegistry.DaicDidRegistry.constructor | contracts/did_registry/src/lib.rs:25-30 | a new registry resolves no account |
| DidRegistry.DaicDidRegistry.RegisterDid | contracts/did_registry/src/lib.rs:32-44 | stores under the caller the document with its DID, the key, the caller as controller and the block time, overwriting; other accounts are unchanged |
| DidRegistry.DaicDidRegistry.ResolveDid | contracts/did_registry/src/lib.rs:46-48 | the stored document or None; a stored document's DID names its key, which is its controller |
| Chat.StringOr | frontend/src/services/chat.ts:96-97 | `value \|\| fallback`: a missing or empty value gives the fallback |
| Chat.NumberOr | frontend/src/services/chat.ts:98 | a missing or zero number gives the fallback |
| Chat.MessageId | frontend/src/services/chat.ts:54 | the id is the decimal clock, '-', then at most six characters of the random string |
| Chat.NewMessage | frontend/src/services/chat.ts:53-59 | the sent message has the given sender and text, the current channel, the clock as timestamp, and the id built from the clock and the random string |
| Chat.Payload | frontend/src/services/chat.ts:66-71 | the stored node has the sender, text, timestamp and channel of the message; the id is the key, not a field |
| Chat.Incoming | frontend/src/services/chat.ts:94-100 | a delivered message has the key as id, the service's current channel, and a non-empty sender |
| Chat.MissingFieldsDefault | frontend/src/services/chat.ts:96-98 | an empty record gives sender "Unknown", empty text and the clock as timestamp |
| Chat.PayloadRoundTrip | frontend/src/services/chat.ts:66-71 | reading back a written payload under its id gives the message back |
| Chat.Step | frontend/src/services/chat.ts:90-103 | a delivery fires iff it carries data and its key is unseen; only a firing delivery marks its key seen |
| Chat.SeenAfter | frontend/src/services/chat.ts:90-103 | after a run of deliveries the seen set has only grown, and only by keys that were delivered |
| Chat.Replay | frontend/src/services/chat.ts:90-103 | a run fires at most one message per delivery, each on the channel and with an id not seen before the run |
| Chat.IdSetMembership | frontend/src/services/chat.ts:92 | the id set holds exactly the ids of the messages |
| Chat.ReplayFiresOnce | frontend/src/services/chat.ts:85-103 | over any run of deliveries, the fired messages have distinct ids, all on the channel, and these ids are exactly the keys delivered with data that were not seen before |
| Chat.ChatService.constructor | frontend/src/services/chat.ts:45-47 | a service on the given channel |
| Chat.ChatService.OnDefaultChannel | frontend/src/services/chat.ts:45-47 | a service constructed without an argument is on "general" |
| Chat.ChatService.SendMessage | frontend/src/services/chat.ts:52-75 | returns the new message and writes its payload under the app namespace, the channel and the message id |
| Chat.ChatService.OnMessage | frontend/src/services/chat.ts:81-86 | a new subscription on the current channel with nothing seen |
| Chat.ChatService.SwitchChannel | frontend/src/services/chat.ts:114-116 | afterwards `getChannel` returns the new channel |
| Chat.ChatService.GetChannel | frontend/src/services/chat.ts:121-123 | the current channel |
| Chat.Subscription.constructor | frontend/src/services/chat.ts:81-86 | a subscription to the service's current channel with nothing seen |
| Chat.Subscription.Deliver | frontend/src/services/chat.ts:90-103 | one delivery updates the seen set, and fires, as the filter step says |
| Chat.DefaultChannels | frontend/src/services/chat.ts:128-135 | four channels with distinct ids, "general" first |
| ChatPage.Insert | frontend/src/app/chat/page.tsx:39 | inserting adds exactly the one message |
| ChatPage.InsertElements | frontend/src/app/chat/page.tsx:39 | every message after inserting was there before or is the new one |
| ChatPage.InsertSorted | frontend/src/app/chat/page.tsx:39 | inserting into a list sorted by timestamp keeps it sorted |
| ChatPage.SortByTime | frontend/src/app/chat/page.tsx:39 | the sort is a permutation and sorted by timestamp |
| ChatPage.InsertLatest | frontend/src/app/chat/page.tsx:39 | a message no earlier than the others goes at the end |
| ChatPage.SortSortedIsIdentity | frontend/src/app/chat/page.tsx:39 | sorting a sorted list changes nothing: equal timestamps keep their order |
| ChatPage.Merge | frontend/src/app/chat/page.tsx:37-41 | a known id returns the list as it was; a new id gives the old messages plus the new one, each as often as before |
| ChatPage.MergeNew | frontend/src/app/chat/page.tsx:39 | a new id gives a sorted permutation of `prev` plus the message, one longer; on a sorted `prev`, the message is inserted after every message not later than it |
| ChatPage.MergeKnown | frontend/src/app/chat/page.tsx:38 | a known id leaves the list as it was |
| ChatPage.MergeIdempotent | frontend/src/app/chat/page.tsx:37-41 | applying a message twice equals applying it once |
| ChatPage.InsertKeepsDistinctIds | frontend/src/app/chat/page.tsx:38-39 | inserting a message with a fresh id keeps ids distinct |
| ChatPage.SortKeepsDistinctIds | frontend/src/app/chat/page.tsx:39 | sorting keeps ids distinct |
| ChatPage.MergeKeepsDistinctIds | frontend/src/app/chat/page.tsx:38-39 | the updater keeps ids distinct |
| ChatPage.MergeStep | frontend/src/app/chat/page.tsx:37-41 | one message through the updater adds it to the shown set, keeping the list sorted with distinct ids |
| ChatPage.Feed | frontend/src/app/chat/page.tsx:36-41 | after a run of messages the list is no shorter and has grown by at most one per message; FeedKeepsMessages and FeedInvariant give its contents |
| ChatPage.MergeKeepsMultiset | frontend/src/app/chat/page.tsx:37-41 | the updater removes no message, counting repeats |
| ChatPage.FeedKeepsMultiset | frontend/src/app/chat/page.tsx:36-41 | a run of messages through the updater removes no message, counting repeats |
| ChatPage.FeedKeepsMessages | frontend/src/app/chat/page.tsx:36-41 | a run of messages through the updater loses no message that was shown |
| ChatPage.FeedInvariant | frontend/src/app/chat/page.tsx:36-41 | a run of messages keeps the list sorted with distinct ids and adds exactly the run's messages |
| ChatPage.EmptyElements | frontend/src/app/chat/page.tsx:33 | a list is empty exactly when it shows no message |
| ChatPage.SortedDistinctIsStrict | frontend/src/app/chat/page.tsx:39 | with distinct ids and distinct timestamps, a sorted list is strictly sorted |
| ChatPage.StrictlySortedUnique | frontend/src/app/chat/page.tsx:39 | two strictly sorted lists with the same messages are equal |
| ChatPage.Convergence | frontend/src/app/chat/page.tsx:33-41 | from the cleared list, any two runs delivering the same messages, in any order and with repeats, give the same list, provided ids identify messages and timestamps are distinct |
| ChatPage.SenderName | frontend/src/app/chat/page.tsx:21 | the account id when there is one, otherwise "Anonymous" |
| ChatPage.TextToSend | frontend/src/app/chat/page.tsx:66-67 | nothing is sent when the trimmed input is empty; otherwise the trimmed input is sent |
| ChatPage.TextToSendMeaning | frontend/src/app/chat/page.tsx:66-67 | nothing is sent iff the input is all white space; what is sent is non-empty and trimmed |
| ChatPage.ChatPage.constructor | frontend/src/app/chat/page.tsx:13-19 | the page starts with no messages, an empty input, no service and no subscription |
| ChatPage.ChatPage.SubscribeToChannel | frontend/src/app/chat/page.tsx:24-46 | a new service on the channel, a new subscription listening to that channel with nothing seen, and an empty list |
| ChatPage.ChatPage.Receive | frontend/src/app/chat/page.tsx:36-41 | a fired message goes through the updater, and the list stays sorted with distinct ids |
| ChatPage.ChatPage.SendMessage | frontend/src/app/chat/page.tsx:65-69 | a blank input or a missing service sends nothing; otherwise the trimmed text is sent under the sender name, the `put` written is the message's payload under the app namespace, the channel and the message id, and the input is cleared; the list is untouched |
| DatasetsPage.CleanPieces | frontend/src/app/datasets/page.tsx:77-78 | at most one piece is kept per input piece, and no kept piece is empty |
| DatasetsPage.ParseLineage | frontend/src/app/datasets/page.tsx:75-78 | at most one parent id per comma-separated piece, and none of them empty |
| DatasetsPage.TrimKeepsOut | frontend/src/app/datasets/page.tsx:77 | trimming adds no character |
| DatasetsPage.CleanPiecesWellFormed | frontend/src/app/datasets/page.tsx:77-78 | the kept pieces are non-empty, trimmed, and free of the separator |
| DatasetsPage.ParseLineageWellFormed | frontend/src/app/datasets/page.tsx:75-78 | every parsed parent id is non-empty, trimmed, and holds no ',' |
| DatasetsPage.ParseLineageBlank | frontend/src/app/datasets/page.tsx:75-78 | a blank field gives no parents |
| DatasetsPage.CleanPiecesOfClean | frontend/src/app/datasets/page.tsx:77-78 | trimming and filtering keep non-empty trimmed pieces as they are |
| DatasetsPage.ParseLineageJoin | frontend/src/app/datasets/page.tsx:75-78 | parsing ids joined by ',' gives the ids back when each is non-empty, trimmed and comma-free |
| DatasetsPage.CanSubmit | frontend/src/app/datasets/page.tsx:46 | a form that passes the guard has a non-empty title and description |
| DatasetsPage.CanSubmitMeaning | frontend/src/app/datasets/page.tsx:46 | the form submits iff neither title nor description is all white space |
| DatasetsPage.Metadata | frontend/src/app/datasets/page.tsx:59 | the uploaded metadata is the object with keys title, description and timestamp, in that order |
| DatasetsPage.ProofData | frontend/src/app/datasets/page.tsx:70 | the proven data is the object with keys title, description and cid, in that order |
| DatasetsPage.DatasetCid | frontend/src/app/datasets/page.tsx:54-62 | the CID is that of the file's bytes when a file is chosen, otherwise that of the UTF-8 of the serialised `{title, description, timestamp}` |
| DatasetsPage.FileCidIgnoresForm | frontend/src/app/datasets/page.tsx:54-57 | with a file chosen, the CID depends on the file's bytes only |
| DatasetsPage.DatasetCidShape | frontend/src/app/datasets/page.tsx:54-62 | every registered CID is 59 characters and starts with "bafkrei" |
| DatasetsPage.DatasetsForm.constructor | frontend/src/app/datasets/page.tsx:21-28 | the form starts with empty fields, no file, and no last CID or proof |
| DatasetsPage.DatasetsForm.HandleSubmit | frontend/src/app/datasets/page.tsx:45-102 | a blank title or description changes nothing; otherwise the proof covers `{title, description, cid}` and verifies, the dataset is registered under the CID with the parsed parents, and the form is cleared |
| DatasetsPage.DatasetsForm.Submit | frontend/src/app/datasets/page.tsx:50-87 | upload, proof, registration and clearing, in that order, for a form that passed the guard |
| DatasetsPage.DatasetsForm.ClearForm | frontend/src/app/datasets/page.tsx:84-87 | title, description, file and parent ids are emptied; the last CID and proof stay |
| Toasts.ToastId | frontend/src/components/Toast.tsx:27 | the id is the decimal clock, '-', then the random string without its first two characters |
| Toasts.AddToast | frontend/src/components/Toast.tsx:26-29 | one toast is appended at the end, the earlier ones unchanged and in order; a missing duration becomes 5000 |
| Toasts.RemoveToast | frontend/src/components/Toast.tsx:31-33 | no toast with the id is left, and the list does not grow |
| Toasts.RemoveToastSpec | frontend/src/components/Toast.tsx:31-33 | no toast with the id remains, and every other toast is kept as often as it occurred |
| Toasts.RemoveToastAppend | frontend/src/components/Toast.tsx:32 | removal distributes over concatenation, so the order of the others is kept |
| Toasts.RemoveAbsent | frontend/src/components/Toast.tsx:32 | removing an id no toast has changes nothing |
| Toasts.RemoveToastIdempotent | frontend/src/components/Toast.tsx:32 | removing twice equals removing once |
| Toasts.RemoveAdded | frontend/src/components/Toast.tsx:26-33 | removing a just-added toast with a fresh id gives the list back |

## Left out

- SHA-256 itself (`crypto.subtle.digest`) is a parameter. No injectivity is assumed; tamper lemmas require non-collision on the specific inputs they compare.
- `JSON.stringify` is an opaque parameter. Its output format and key order are not modelled.
- `${n}` renders integers in plain decimal. Exponent notation (from 1e21 up) and non-integer timestamps are not modelled, and timestamps are unbounded integers.
- Clocks, `Math.random`, `crypto.randomUUID`, the caller, the block timestamp and the attached deposit are parameters.
- The Lighthouse network branches of `uploadJSON` and `uploadFile` and `getDealStatus` are left out. Only the local fallback, with no storage key, is modelled.
- The Gun.js transport is left out: `getGun`, peers, `.map().on`, `.off` and unsubscribing. A delivery is an explicit `(data, key, now)` record, and `sendMessage` returns the `put` it would write.
- Peer records are assumed to carry the field types of `ChatMessage`: `Chat.PeerNode` types the fields a peer writes as optional strings and an optional number, where the subscription receives `data: any`. A peer that writes, say, `timestamp: "abc"` would make `a.timestamp - b.timestamp` NaN, which makes the comparator inconsistent and the sort order implementation-defined. ChatPage.SortByTime, the sorted invariant of ChatPage.ChatPage.Receive and ChatPage.Convergence therefore hold for well-typed peers only.
- The chat page's peer-count counter, its scrolling and its formatting of times are left out.
- NEAR wallet and RPC plumbing is left out. The dataset form calls the provenance contract class directly, with the caller and block time as parameters.
- `get_all_datasets`, which the client calls, does not exist in the provenance contract and is not modelled.
- DatasetsPage.DatasetsForm.HandleSubmit: the progress messages, the `submitting` flag, the reload of the list, the 3-second timer that closes the form, and the failure branch of the `catch` are not modelled. That branch is reachable: `registerDataset` goes through `callMethod`, which throws "Wallet not connected" while no wallet is connected, and a transaction the wallet refuses rejects too. The `catch` then runs after the last CID and the last proof were already set, so nothing is registered, the CID and the proof are still shown, and the form keeps its fields.
- Utf8.EncodeInjective: holds for strings of Unicode scalar values only. A JavaScript string is UTF-16 and may hold a lone surrogate, which `TextEncoder` replaces by U+FFFD, so `"\uD800"` and `"\uFFFD"` encode to the same bytes EF BF BD. Dafny strings cannot hold a lone surrogate, so such strings are not modelled.
- Zk.Sha256HexDistinct: for the same reason, holds for strings of scalar values only; `"\uD800"` and `"\uFFFD"` have the same digest in the client.
- Zk.TamperedDataRejected: for the same reason, holds for data strings of scalar values only; `verifyProof(generateProof("\uFFFD"), "\uD800")` returns true. `JSON.stringify` output is always well formed, so only raw string data is affected.
- Toast timers (`ToastItem`'s `setTimeout`) and rendering are left out.
- Dao.DaicDao.CreateProposal: the panic on overflow assumes the crate is built with overflow checks on. The build profile is not part of this model; without the checks the addition would wrap. Dao.DaicDao.Vote makes the same assumption.
- `ChatService.onMessage` subscribes to the channel current at subscription time but labels each message with the channel current at delivery. The model keeps both. The page never switches a live service's channel.
