# Launcher, modelled and proved

A Dafny model of the parts of the launcher agent where most can go subtly wrong: the readers of
browser storage formats, the restart logic of the autoupdater, the data flattener and its helpers,
and a handful of queues, batches, caches and keys. Every module stands for one part of the source and
is proved on its own:

| module | part of the system |
|---|---|
| `Bytes`, `Varint` | little-endian integers, the byte reader, base-128 varints |
| `WebkitSpec`, `WebkitGrammar`, `WebkitRoundTrip`, `WebkitCompleteness`, `WebkitDeserializer` | Safari's structured clones |
| `V8Spec`, `V8Grammar`, `V8RoundTrip`, `V8Deserializer` | Chrome's IndexedDB values |
| `FirefoxSpec`, `FirefoxAlignment`, `FirefoxDeserializer` | Firefox's structured clones |
| `IndexedDbKeys` | Chrome's IndexedDB keys |
| `Autoupdater` | deferral of restarts during the initial delay |
| `ControlService` | the cache of subsystem hashes |
| `CallbackQueue` | the queue of callbacks and its racing senders |
| `Flatten`, `Jsonc`, `Protobuf`, `RecordSplitting` | flattening of structured data |
| `LogBatching` | batches of logs to publish |
| `InvalidUsernames` | flagging of usernames that keep failing |

How the pieces fit. What the source does step by step is written as methods and classes that change
state in loops; each is tied by its postcondition to a function of the inputs or of the old state,
and the theorems are about those functions. Concurrent code (the autoupdater, the callback queue) is a
step relation, and its theorems quantify over all runs. Formats are given as trees with a writer and
a meaning; writers prepend to what follows, and threading of pools is explicit. Text decoding, number
formatting and JSON marshalling are function-valued parameters (`Codec`), so results hold for
whatever they compute.

Results that are not what one would guess from the source:

- WebKit: the reader accepts exactly the byte strings the grammar writes, no two readings differ, and
  no accepted document is the beginning of another.
- Firefox: in a Map, a double key is rendered from the value's pair, and a double value from the last
  word of its key's contents; an entry is right exactly when its key is no double and, if its value is
  one, has no contents.
- JSONC: a block comment is found to end exactly when an odd number of stars leads up to its end; a
  string, a comment or a final slash right after a block comment, and a string behind a stray
  backslash, are not seen for what they are.
- Autoupdater: something is restarted early unasked exactly when the timer fires before the end of the
  delay while a restart is put off. That takes a timer out of step with the end: between a change of
  the end and its reset, or after overlapping changes reset it in the wrong order. The latter can also
  leave a restart pending with no timer to come; past the end of the delay it then stays pending, and
  only a check that finds the update again restarts it.
- Protobuf: messages nested to any depth are read back exactly when none of the inner ones reads like
  text.
- Control service: one failed write to the store, a restart and a server that goes back to an older
  hash leave a consumer out of date and skipped; so does an empty hash.
- Callback queue: sending can block with 92 senders at a time, and not with 91.
- Invalid usernames: keeping three failure times is lossless exactly until a failure whose window holds
  three, but not among it and the three before it; that takes a clock that goes back.

Where comments and code disagree, the model follows the code: the reader of Firefox integers renders
them unsigned, and the flattener's index terms are plain numbers (`0`, not `#0`).

## Model

| member | source | states |
|---|---|---|
| `WebkitCompleteness.AcceptsExactlyTheDocuments` | ee/katc/deserialize_webkit.go:139-188 | a byte string is accepted exactly when it is a well-formed document, with anything behind it; then the result is the document's meaning, what is left is what was behind it, and both pools are the writer's |
| `WebkitCompleteness.ReadsExactlyTheGrammar` | ee/katc/deserialize_webkit.go:192-279 | from any pools and for every input, a value is read as `text`, leaving `rest` and pools `q`, without its buffer being cut short, exactly when some tree is spelled that way and means that, other than an empty buffer at the very end of the input |
| `WebkitCompleteness.UniquelyReadable` | ee/katc/deserialize_webkit.go:139-162 | two documents that are written the same, with whatever behind them, end at the same place and mean the same |
| `WebkitCompleteness.MoreInputChangesNothing` | ee/katc/deserialize_webkit.go:192-279 | bytes added behind the input of a value that was read, and not cut short, change neither its text nor the pools, and are left behind what was left |
| `WebkitCompleteness.WrittenWhole` | ee/katc/deserialize_webkit.go:445-479 | no written value is cut short, and one that ends the input with an empty buffer is an error |
| `WebkitCompleteness.MoreAfterDocument` | ee/katc/deserialize_webkit.go:139-188 | the same for every document, without exception |
| `WebkitCompleteness.NoDocumentWithinAnother` | ee/katc/deserialize_webkit.go:139-188 | a document that is read to its end is no proper prefix of another such document |
| `WebkitCompleteness.DocumentSpelled` | ee/katc/deserialize_webkit.go:139-188 | from every successful read of a document a tree is recovered that spells exactly the bytes consumed |
| `WebkitCompleteness.ValueSpelled` | ee/katc/deserialize_webkit.go:192-303 | the same for every value, at every pool state, whose buffer is not cut short by the end of the input |
| `WebkitCompleteness.ArraySpelled` | ee/katc/deserialize_webkit.go:307-377 | every array that is read is a written array, skipped properties included |
| `WebkitCompleteness.MapSpelled` | ee/katc/deserialize_webkit.go:484-530 | every Map that is read is a written Map with its trailing properties |
| `WebkitCompleteness.SetSpelled` | ee/katc/deserialize_webkit.go:535-575 | every Set that is read is a written Set with its trailing properties |
| `WebkitCompleteness.StringDataSpelled` | ee/katc/deserialize_webkit.go:582-635 | every string that is read is a written literal, a pool reference or a terminator |
| `WebkitCompleteness.IndexSpelled` | ee/katc/deserialize_webkit.go:651-681 | a pool reference that is read has the width its pool's size calls for and lies within the pool |
| `WebkitCompleteness.ErrorSpelled` | ee/katc/deserialize_webkit.go:738-821 | every error that is read is a written one, nullable parts included |
| `WebkitCompleteness.ViewSpelled` | ee/katc/deserialize_webkit.go:381-479 | every array buffer view that is read, and not cut short by the end of the input, is a written one |
| `WebkitRoundTrip.DocumentBack` | ee/katc/deserialize_webkit.go:139-188 | reading a written document gives its meaning and leaves exactly what follows |
| `WebkitRoundTrip.ValueBack` | ee/katc/deserialize_webkit.go:192-279 | reading a written tree, from any pools and before any bytes, gives its meaning, leaves the bytes, and leaves both pools as the writer's; only an empty buffer needs a byte after it |
| `WebkitRoundTrip.IndexBack` | ee/katc/deserialize_webkit.go:651-681 | a reference of one, two or four bytes, by the size of the pool, is read back as that entry |
| `WebkitRoundTrip.StringDataBack` | ee/katc/deserialize_webkit.go:582-635 | literals are read back and enter the pool; references are read back and do not |
| `WebkitRoundTrip.ArrayBack` | ee/katc/deserialize_webkit.go:307-377 | arrays with holes, repeated indices and properties are read back |
| `WebkitRoundTrip.MapBack` | ee/katc/deserialize_webkit.go:484-530 | Maps are read back, later entries for a key winning |
| `WebkitRoundTrip.SetBack` | ee/katc/deserialize_webkit.go:535-575 | Sets are read back |
| `WebkitRoundTrip.ErrorBack` | ee/katc/deserialize_webkit.go:738-804 | errors are read back with all their parts |
| `WebkitRoundTrip.ViewBack` | ee/katc/deserialize_webkit.go:381-479 | views are read back and put their buffer into the object pool; only an empty buffer needs a byte after it |
| `WebkitSpec.ReadValue` | ee/katc/deserialize_webkit.go:192-303 | on every input reading ends, takes at least one byte when it succeeds, only appends to the pools, adds at most one string per four bytes and one object per byte |
| `WebkitSpec.ReadStringData` | ee/katc/deserialize_webkit.go:582-635 | a string takes at least four bytes, and adds at most one to the string pool |
| `WebkitDeserializer.Deserializer.Deserialize` | ee/katc/deserialize_webkit.go:139-162 | the method with its reader and pools does what `ReadDocument` says |
| `WebkitDeserializer.Deserializer.DeserializeObject` | ee/katc/deserialize_webkit.go:166-188 | the loop over properties refines `ReadFields` |
| `WebkitDeserializer.Deserializer.DeserializeValue` | ee/katc/deserialize_webkit.go:192-279 | the switch over tags refines `ReadValue`, reader and pools included |
| `WebkitDeserializer.Deserializer.DeserializeArray` | ee/katc/deserialize_webkit.go:307-358 | the loop over indices refines `ReadArray` |
| `WebkitDeserializer.Deserializer.ReadAndDiscardProperties` | ee/katc/deserialize_webkit.go:360-377 | the loop that skips properties refines the accumulator that drops them |
| `WebkitDeserializer.Deserializer.DeserializeMapData` | ee/katc/deserialize_webkit.go:484-530 | the loop over entries refines `ReadMapData` |
| `WebkitDeserializer.Deserializer.DeserializeSetData` | ee/katc/deserialize_webkit.go:535-575 | the loop over elements refines `ReadSetData` |
| `WebkitDeserializer.Deserializer.DeserializeStringData` | ee/katc/deserialize_webkit.go:582-635 | refines `ReadStringData`, appending to the string pool |
| `WebkitDeserializer.Deserializer.DeserializeError` | ee/katc/deserialize_webkit.go:738-804 | refines `ReadError` |
| `WebkitDeserializer.Deserializer.DeserializeArrayBufferView` | ee/katc/deserialize_webkit.go:381-441 | refines `ReadView` |
| `V8RoundTrip.RowBack` | ee/indexeddb/values.go:75-184 | a whole row (header with any padding, root, counts) is read back as its meaning and not a byte further is consumed |
| `V8RoundTrip.TreeBack` | ee/indexeddb/values.go:301-407 | every tree is read back, whatever padding, skipped bytes and trailing counts it is written with |
| `V8RoundTrip.NoiseSkipped` | ee/indexeddb/values.go:285-407 | any run of skipped bytes before a value makes no difference to what is read |
| `V8RoundTrip.HeaderBack` | ee/indexeddb/values.go:112-141 | the header is skipped up to the root token for every version and padding |
| `V8RoundTrip.PropsBack` | ee/indexeddb/values.go:187-281 | properties are read back, with any padding before names and values, and the count is consumed |
| `V8RoundTrip.ItemsBack` | ee/indexeddb/values.go:515-572 | dense items are read back in order |
| `V8RoundTrip.CellsBack` | ee/indexeddb/values.go:444-511 | sparse items are read back at their indices |
| `V8RoundTrip.EntriesBack` | ee/indexeddb/values.go:831-870 | Map entries are read back |
| `V8RoundTrip.ElemsBack` | ee/indexeddb/values.go:874-903 | Set elements are read back |
| `V8RoundTrip.TypedBack` | ee/indexeddb/values.go:590-695 | an array buffer with its view is read back |
| `V8Deserializer.DeserializeChrome` | ee/indexeddb/values.go:75-105 | the entry point refines `ReadRow` |
| `V8Deserializer.ReadHeaderFrom` | ee/indexeddb/values.go:112-141 | the header loop refines `ReadHeader`, down to what is left on failure |
| `V8Deserializer.DeserializeRootValue` | ee/indexeddb/values.go:147-184 | refines `ReadRoot` |
| `V8Deserializer.DeserializeObject` | ee/indexeddb/values.go:187-281 | the property loop refines `ReadObject` |
| `V8Deserializer.NextNonPaddingByte` | ee/indexeddb/values.go:285-299 | stops behind the first byte that is not padding |
| `V8Deserializer.DeserializeNext` | ee/indexeddb/values.go:301-407 | the switch refines `ReadNext`, down to what is left on failure |
| `V8Deserializer.DeserializeDenseArray` | ee/indexeddb/values.go:515-572 | the loops over items and the end refine the accumulators |
| `V8Deserializer.DeserializeSparseArray` | ee/indexeddb/values.go:444-511 | the loop over cells refines the accumulator |
| `V8Deserializer.DeserializeMap` | ee/indexeddb/values.go:831-870 | refines `ReadMap` |
| `V8Deserializer.DeserializeSet` | ee/indexeddb/values.go:874-903 | refines `ReadSet` |
| `V8Deserializer.DeserializeError` | ee/indexeddb/values.go:1077-1225 | the loop over parts of an error refines `ReadError`, carrying on after properties it cannot read |
| `FirefoxAlignment.AlignmentIsTheExtraBytes` | ee/katc/deserialize_firefox.go:171-254 | on every input a value ends at the end of the input, or, modulo eight, past where it started by exactly the BigInt digits, ragged typed-array ends and spans of failed reads in error objects found in it at any depth |
| `FirefoxAlignment.WholeValuesStayAligned` | ee/katc/deserialize_firefox.go:171-320 | a value that starts on the 8-byte grid ends on it, short of the end of the input, exactly when those bytes make whole words |
| `FirefoxAlignment.WholeDocumentsStayAligned` | ee/katc/deserialize_firefox.go:69-166 | a document ends off the grid by exactly those bytes |
| `FirefoxAlignment.ExtraOfScalar` | ee/katc/deserialize_firefox.go:256-346 | strings, dates, regexps and numbers bring no extra bytes, a BigInt its digits, a typed array its ragged end |
| `FirefoxAlignment.DoubleInMap` | ee/katc/deserialize_firefox.go:693-735 | a double key is rendered from the value's pair; a double value from the word before the end of the key's contents, which is its own word exactly when the key's tag and length say that it has none |
| `FirefoxAlignment.EntryFromOwnWords` | ee/katc/deserialize_firefox.go:693-735 | every double of an entry is rendered from its own word exactly when the key is no double and, if the value is one, has no contents |
| `FirefoxAlignment.NoContentsExactly` | ee/katc/deserialize_firefox.go:171-254 | reading a value consumes nothing exactly for nulls, booleans, integers, back references, doubles, and strings and BigInts of length zero |
| `FirefoxAlignment.DoubleAfterStringKey` | ee/katc/deserialize_firefox.go:693-735 | for one, behind an eight-character key it is rendered from the characters of the key |
| `FirefoxAlignment.TypedPaddingFills` | ee/katc/deserialize_firefox.go:517-529 | for every element size and byte length the padding completes the last word of the whole elements |
| `FirefoxSpec.ReadNext` | ee/katc/deserialize_firefox.go:171-254 | on every input reading ends, moves on only and never leaves the input |
| `FirefoxDeserializer.DeserializeFirefox` | ee/katc/deserialize_firefox.go:69-107 | the entry point refines `ReadDocument` |
| `FirefoxDeserializer.DeserializeNext` | ee/katc/deserialize_firefox.go:171-254 | the switch refines `ReadNext`, down to where a failure leaves the reader |
| `FirefoxDeserializer.DeserializeString` | ee/katc/deserialize_firefox.go:256-320 | the string and its padding refine `ReadString` |
| `FirefoxDeserializer.DeserializeBigInt` | ee/katc/deserialize_firefox.go:326-346 | refines `ReadBigInt` |
| `FirefoxDeserializer.DeserializeArray` | ee/katc/deserialize_firefox.go:412-444 | the loop over indices refines `ReadItems` |
| `FirefoxDeserializer.DeserializeTypedArray` | ee/katc/deserialize_firefox.go:461-637 | refines `ReadTypedArray` |
| `FirefoxDeserializer.DeserializeMap` | ee/katc/deserialize_firefox.go:693-735 | the loop over entries refines `ReadMap` |
| `FirefoxDeserializer.DeserializeSet` | ee/katc/deserialize_firefox.go:738-769 | the loop over elements refines `ReadSet` |
| `FirefoxDeserializer.DeserializeError` | ee/katc/deserialize_firefox.go:772-918 | the loop over properties refines `ReadError`, carrying on after a failed read |
| `Varint.PrefixFree` | ee/indexeddb/keys.go:154-159 | two varints that start the same bytes are the same, and so is what follows |
| `Varint.UvarintBack` | ee/indexeddb/keys.go:154-159 | every 64-bit value is read back from its varint, whatever follows |
| `IndexedDbKeys.SelectsOwnRecords` | ee/indexeddb/keys.go:80-86 | a store's data prefix starts a data key exactly when database and store are the key's own |
| `IndexedDbKeys.SelectsNoBlobs` | ee/indexeddb/keys.go:90-96 | it starts no blob key of any store |
| `IndexedDbKeys.SelectsNoNames` | ee/indexeddb/keys.go:61-76 | it starts no object store name key |
| `IndexedDbKeys.SelectsNoDatabaseIds` | ee/indexeddb/keys.go:33-58 | it starts no database id key |
| `IndexedDbKeys.BlobOfRecord` | ee/indexeddb/indexeddb.go:116-149 | two blob keys agree only for the same database, store and user key |
| `IndexedDbKeys.IndexKeyInjective` | ee/indexeddb/keys.go:80-96 | ids, index and user key can be told from a key |
| `Autoupdater.RestartsEarlyExactly` | ee/tuf/autoupdate.go:252-348 | in every interleaving, overlapping changes of the delay included, something is restarted before the final end without bypass exactly when the timer fires before it while a restart is pending |
| `Autoupdater.FiresOutOfStep` | ee/tuf/autoupdate.go:294-306 | such a timer was set for a time before the end of the delay as it stood |
| `Autoupdater.OnlyBypassRestartsEarly` | ee/tuf/autoupdate.go:432-461 | when changes of the delay do not overlap and the timer does not fire inside one, only bypass restarts early |
| `Autoupdater.StaysInStep` | ee/tuf/autoupdate.go:444-461 | when they do not overlap, the timer is always set for the end of the delay or about to be |
| `Autoupdater.UnsyncedTimerRestartsEarly` | ee/tuf/autoupdate.go:444-461 | for every lengthening of the delay there is a run in which the old timer restarts osqueryd before the new end |
| `Autoupdater.OverlapRestartsEarlyAndStrands` | ee/tuf/autoupdate.go:444-461 | from a new autoupdater, two overlapping changes that reset the timer in the wrong order restart osqueryd early, with no reset outstanding, and leave the next restart pending past the end of the delay and ever after |
| `Autoupdater.StrandedExactly` | ee/tuf/autoupdate.go:294-348 | a run ends with a restart pending and no timer to come exactly when the loop still runs, recorded one after the timer had fired with no reset outstanding, and the end of the delay was not changed after that |
| `Autoupdater.StrandedStays` | ee/tuf/autoupdate.go:294-348 | once the delay is over and the timer has fired with no reset outstanding, the pending restarts never change, whatever happens |
| `Autoupdater.StrandedMadeUpFor` | ee/tuf/autoupdate.go:444-461 | before that, a change of the end with its reset makes the timer fire again and do what is pending |
| `Autoupdater.NothingIsForgotten` | ee/tuf/autoupdate.go:294-348 | a restart is pending with no timer to come only after a timer that fired too soon; when changes of the delay do not overlap, once the timer has fired with no reset outstanding nothing is pending (osqueryd's if it can be restarted) or the loop has returned, and the delay is over |
| `Autoupdater.EndStays` | ee/tuf/autoupdate.go:444-461 | once passed, the end of the delay never changes |
| `Autoupdater.OnlyTheLoopDefers` | ee/tuf/autoupdate.go:375-384 | a check from the control server or a flag change never records a pending restart |
| `Autoupdater.StepInv` | ee/tuf/autoupdate.go:694-736 | every step keeps checks from outside past the delay or bypassing it, and pending restarts covered by a timer to come or one that fired too soon |
| `Autoupdater.TufAutoupdater.Apply` | ee/tuf/autoupdate.go:691-757 | what checkForUpdate does with its downloads, as the step relation has it |
| `Autoupdater.TufAutoupdater.RestartIfPending` | ee/tuf/autoupdate.go:317-348 | launcher's pending restart ends the loop and comes before osqueryd's, which is done and cleared only if it can be restarted |
| `Autoupdater.TufAutoupdater.InitialDelayChanged` | ee/tuf/autoupdate.go:444-461 | with nothing in between, changing the delay and resetting the timer is one change and its own reset, keeps the timer in step, and does nothing once the delay has passed |
| `ControlService.RecordsAreTrue` | ee/control/control.go:266-394 | over every run, restarts included, a hash in memory is that of what the subsystem was last given, and the stored one that of what was last saved |
| `ControlService.SkippedOutOfDate` | ee/control/control.go:323-336 | an out of date subsystem is skipped exactly when there is no record in memory and either the hash is empty and nothing is stored, or an unsaved delivery hides behind an older stored hash that the server is back at |
| `ControlService.SkippedUpToDate` | ee/control/control.go:323-336 | otherwise a subsystem is skipped exactly when it is up to date and its record can be read |
| `ControlService.RevertAfterLostSave` | ee/control/control.go:377-393 | one failed write, a restart and a reverted hash leave a consumer with the newer data |
| `ControlService.EmptyHashNotDelivered` | ee/control/control.go:323-336 | a subsystem first listed with an empty hash is given nothing |
| `ControlService.CatchesUp` | ee/control/control.go:266-394 | while the server keeps a hash, one fetch in which the data is had and taken is enough, whatever failed before or after, and whatever restarts there are when the last delivery is saved |
| `ControlService.FullFetchGives` | ee/control/control.go:307-349 | a full fetch gives data to exactly the known subsystems whose data is had and taken, in order |
| `ControlService.FullRequestHonoured` | ee/control/control.go:449-471 | a request for a full fetch survives skipped and failed fetches until one goes through all subsystems |
| `ControlService.Service.Fetch` | ee/control/control.go:266-349 | the method leaves memory, store, flag and deliveries as the specification says, and fails only when locked out or without a configuration |
| `ControlService.Service.FetchAndUpdate` | ee/control/control.go:352-394 | the hash is recorded only after the consumer took the data |
| `ControlService.Service.Update` | ee/control/control.go:428-446 | a consumer may ask for a full fetch even when it then fails |
| `ControlService.Service.Do` | ee/control/control.go:449-471 | the flag is set and nothing else changes |
| `CallbackQueue.BlocksExactlyAbove91` | ee/localserver/krypto-ec-middleware.go:315-344 | some interleaving makes a send block exactly when more than 91 senders can be in sendCallback at a time |
| `CallbackQueue.QueueBound` | ee/localserver/krypto-ec-middleware.go:315-344 | with n senders the queue never exceeds 9 + n, and is first in, first out: what left and what is in it is what entered, in order |
| `CallbackQueue.NeverBlocks` | ee/localserver/krypto-ec-middleware.go:35-36 | with at most 91 senders the last send always has room |
| `CallbackQueue.StepInv` | ee/localserver/krypto-ec-middleware.go:160-182 | every step of senders and worker keeps queue length plus senders past their purge at most 9 + n |
| `CallbackQueue.Middleware.SendCallback` | ee/localserver/krypto-ec-middleware.go:315-344 | by itself, a send drops at most the oldest callback and adds the new one at the end, also when the channel is full |
| `Flatten.FlattenIsSelect` | ee/dataflatten/flatten.go:205-307 | pruned descent gives exactly the rows, in order, and the error, that picking matching leaves from all leaves gives, rewriting terms included |
| `Flatten.LongerQueryFlattens` | ee/dataflatten/flatten.go:458-477 | one more query term keeps a subsequence of the rows, paths and values, and adds no error; with rewriting terms, a subsequence of the values |
| `Flatten.RowsHaveDistinctPaths` | ee/dataflatten/flatten.go:205-288 | without rewriting, and with keys distinct in each map, no two rows have the same path |
| `Flatten.MatchStringExactly` | ee/dataflatten/flatten.go:431-453 | every term matches exactly the strings that are its text with anything where it has a star at an end |
| `Flatten.IndexPicksElement` | ee/dataflatten/flatten.go:368-408 | a term that is a number picks the element at that index and no other, whatever the element is |
| `Flatten.Flattener.DescendInto` | ee/dataflatten/flatten.go:205-250 | with one path slice grown in place, the rows added are those of recursion over immutable paths, and the slice's prefix is as before |
| `Flatten.Flattener.DescendArrayElement` | ee/dataflatten/flatten.go:252-288 | the same for one array element, renamed or dropped as the query says |
| `Flatten.Append` | ee/dataflatten/flatten.go:215-233 | appending to a slice, in place or into a copy, leaves the shared prefix alone |
| `Flatten.FlattenData` | ee/dataflatten/flatten.go:143-156 | the result is the selection from all leaves |
| `Jsonc.ScanIsReference` | ee/dataflatten/jsonc.go:55-180 | on every input without the five things the pass mistakes, the one pass with its look-back equals the forward automaton and the trailing-comma rule, errors included |
| `Jsonc.BlankAt` | ee/dataflatten/jsonc.go:156-175 | a byte is changed exactly when it is a comma outside strings with only white space between it and a closing bracket, and then becomes a space |
| `Jsonc.ByteAgrees` | ee/dataflatten/jsonc.go:71-96 | the parity of backslashes looked back at agrees with the escape automaton after every byte |
| `Jsonc.FindsEndExactly` | ee/dataflatten/jsonc.go:123-152 | the end of a block comment is found exactly when an odd number of stars leads up to it |
| `Jsonc.TwoStarsMissed` | ee/dataflatten/jsonc.go:123-152 | a comment ended by two stars and a slash is an error |
| `Jsonc.StringAfterCommentCut` | ee/dataflatten/jsonc.go:140-151 | a string right after a block comment loses what looks like a comment in it |
| `Jsonc.CommentAfterCommentKept` | ee/dataflatten/jsonc.go:140-151 | a comment right after a block comment is kept as text, here to the point of an error |
| `Jsonc.SlashAfterCommentKept` | ee/dataflatten/jsonc.go:140-151 | a slash that ends the input right after a block comment is kept instead of refused |
| `Jsonc.QuoteAfterBackslashMissed` | ee/dataflatten/jsonc.go:71-96 | a string behind a backslash outside strings loses what looks like a comment in it |
| `Jsonc.MissedEndMadeUpFor` | ee/dataflatten/jsonc.go:123-152 | a comment whose end is missed can end where the next one does, and then nothing differs |
| `Jsonc.JsoncToJson` | ee/dataflatten/jsonc.go:60-180 | the loop over the input with its output buffer computes the one pass, and on clean input the reference |
| `Jsonc.BlankTrailingComma` | ee/dataflatten/jsonc.go:159-175 | looking back in the buffer blanks at most the last comma and touches nothing else |
| `Protobuf.Concatenation` | ee/dataflatten/protobuf.go:43-128 | if `a` decodes, `a` followed by `b` decodes exactly when `b` does, and each field number has `a`'s values and then `b`'s |
| `Protobuf.FieldsOfConcatenation` | ee/dataflatten/protobuf.go:43-110 | decoding goes on with `b` exactly where `a` ended |
| `Protobuf.FieldStable` | ee/dataflatten/protobuf.go:43-110 | what follows a field does not change it, nested groups included |
| `Protobuf.DecodeRawProtobuf` | ee/dataflatten/protobuf.go:43-128 | the loop terminates on every input, through nested messages, and computes the decoded fields |
| `Protobuf.MessageExactly` | ee/dataflatten/protobuf.go:134-153 | length-delimited data is a message exactly when it is not empty, does not read like text and decodes; the test for an empty message never decides; all else is text, as it is or in base64 |
| `Protobuf.BytesFieldBack` | ee/dataflatten/protobuf.go:43-153 | a length-delimited field of any number and length, alone in a message, is read back as what its data is taken to be |
| `Protobuf.NestedMessageBack` | ee/dataflatten/protobuf.go:43-168 | a message within a message is read back exactly when its bytes do not read like text |
| `Protobuf.DeeplyNestedBack` | ee/dataflatten/protobuf.go:43-168 | messages nested to any depth are read back exactly when none of the inner ones reads like text |
| `RecordSplitting.FewestRecords` | ee/dataflatten/string_delimited.go:41-63 | no grouping of the pairs into consecutive runs with distinct keys has fewer records |
| `RecordSplitting.RecordsAreRuns` | ee/dataflatten/string_delimited.go:41-63 | each record is that of a run of pairs with distinct keys |
| `RecordSplitting.RunsAreConsecutive` | ee/dataflatten/string_delimited.go:41-63 | the runs, one after the other, are all the pairs in order |
| `RecordSplitting.RecordOfRun` | ee/dataflatten/string_delimited.go:41-63 | a record holds every pair of its run and nothing else |
| `RecordSplitting.SplitRecords` | ee/dataflatten/string_delimited.go:41-63 | the loop over lines computes the greedy split of the pairs in them |
| `LogBatching.BatchingPromises` | ee/osquerypublisher/client.go:501-548 | batches hold exactly the logs that can be marshalled, keep the order of those that fit, and are never empty or over the limit unless a single oversized log |
| `LogBatching.FewerThanTwiceAnyBatching` | ee/osquerypublisher/client.go:501-548 | any other way of batching the logs that fit, in any order, takes more than half as many batches |
| `LogBatching.RegularIsNextFit` | ee/osquerypublisher/client.go:501-548 | oversized and failing logs do not disturb the batching of the rest |
| `LogBatching.PairsOverflow` | ee/osquerypublisher/client.go:532-537 | of any two neighbouring batches of logs that fit, the second begins with a log that would have taken the first over the limit |
| `LogBatching.BatchRequest` | ee/osquerypublisher/client.go:501-548 | the loop computes these batches |
| `InvalidUsernames.LosslessExactly` | ee/consoleuser/consoleuser_windows.go:159-200 | whatever the clock does, the same usernames are watched all along as with the whole history exactly when no failure has three in its window with fewer than three among it and the three before it; then the same are flagged |
| `InvalidUsernames.TruncationIsLossless` | ee/consoleuser/consoleuser_windows.go:159-200 | for every sequence of failures in which each username's own are in clock order, each username is flagged at exactly the failure at which its whole history would |
| `InvalidUsernames.ThreeRecent` | ee/consoleuser/consoleuser_windows.go:173-184 | in sorted times, three are in the window exactly when the third last is |
| `InvalidUsernames.ClockMustNotGoBack` | ee/consoleuser/consoleuser_windows.go:159-200 | with a clock set back, a failure forgotten too early leaves a username unflagged |
| `InvalidUsernames.ClockSetBackReachable` | ee/consoleuser/consoleuser_windows.go:159-200 | those times are reached without a flag |
| `InvalidUsernames.Usernames.UpdateInvalidUsernameMaps` | ee/consoleuser/consoleuser_windows.go:159-200 | the method updates both maps as one step of that history, and changes no other username's entry |

## Left out

- Panics and exhausted memory from declared sizes and indices in the readers: such inputs are errors, or allocations without a limit, in the model.
- JSON text, UTF-16 and Latin-1 decoding, float and date formatting, the text of errors and regular expression flags: parameters of the readers.
- V8RoundTrip.TreeBack: error objects and bare array buffers are read by the model but have no writer, because the source guesses at their shape.
- WebkitCompleteness.MoreInputChangesNothing: says nothing of a view that was cut short, which reads on when there is more.
- WebkitDeserializer.Deserializer.DeserializeValue: does not say where a failure leaves the reader, because every caller gives up.
- Jsonc.ScanIsReference: is one way, because what the pass mistakes can be made up for by what follows (`Jsonc.MissedEndMadeUpFor`), or change nothing at the end of the input.
- Autoupdater.RestartsEarlyExactly: takes the comparison and the store of a new end as one step, and the start of the run loop (reading the end and setting the timer) as one step; the lock around checks is not needed for the result and not modelled.
- Autoupdater.StrandedExactly: is for versions that are not empty; an empty one stands for no pending restart in the source.
- Autoupdater: metadata, downloads, the splay delay and the check interval are inputs of its steps.
- ControlService: consumers and subscribers are registered before the first fetch; the request interval and the startup message.
- CallbackQueue: delivery of a callback over HTTP, and shutdown of the worker.
- Flatten: nested plists, prefilters and FlattenEach; how scalars become text is an input.
- Protobuf and varint wire rules come from the documented behaviour of the libraries the source calls.
- RecordSplitting: how a line is split and trimmed is an input; the other strategies.
- IndexedDbKeys: reading strings back from keys, and the unwrapping of blobs.
- Everything that is input and output: files, the network, processes, the registry, cryptography, LevelDB, SQLite and TUF themselves.
