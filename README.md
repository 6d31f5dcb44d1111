# joplin-auto in Dafny

joplin-auto keeps a generated "todo" note in a Joplin notebook. On every run
its todo manager (`internal/managers/todo.go`) does the following:

1. It waits until no other client holds a lock, then takes its own lock.
2. It lists all notes and fetches every `.md` note.
3. It keeps the configured target note and the children of a configured
   parent note.
4. From each child it extracts every checklist line marked with `!`:
   `- [ ] !…` or `- [x] !…`.
5. It orders these records by priority, which is the number of `!`s, and
   appends a "DO NOT EDIT, generated at" trailer.
6. It writes the result into the target note, but only when the text
   differs from what the previous run wrote.
7. It releases the lock.

Notes come from a provider. Two providers exist:

- **S3** (`joplin_provider/s3.go`) stores the notes as objects in a bucket,
  the way Joplin's desktop client synchronises them. Each object holds a
  header line, a body and `key: value` metadata lines. Locks are
  `locks/2_1_<id>.json` objects.
- **The web clipper** (`joplin_provider/webClipper.go`) talks to the
  Joplin application's notes service. It lists pages of notes and addresses
  each note by id. It has no locks.

`joplin_provider/entities/file.go` defines the `File` both providers fill in.
It also implements splitting and reassembling the S3 raw format, reading and
rewriting metadata, and replacing a note's body.

The model has one Dafny module per source file of the core:

| file | module | contents |
|---|---|---|
| `wrappers.dfy` | `Wrappers` | `Option`, `Result`, the system's errors, the fault schedule of a backend |
| `seqs.dfy` | `Seqs` | `FlatMap` |
| `text.dfy` | `Text` | the Go `bytes`/`strings` helpers used: prefix and suffix tests, `TrimSuffix`, `Contains`, `Split`, `Join`, `TrimSpace` |
| `entities.dfy` | `Entities` | `File`, a class whose methods update its fields, and `FileValue`, the value a `File` is copied as |
| `todo_records.dfy` | `TodoRecords` | `getMarkedTodos` and `formatTodoData` |
| `todo.dfy` | `Todo` | the `Todo` class: `UpdateTodo`, `listChildren`, `isChild`, `updateNote` |
| `s3.dfy` | `S3Adapter` | an object store with sorted keys, and the `S3` provider |
| `webclipper.dfy` | `WebClipperAdapter` | a paged notes service, and the `WebClipper` provider |
| `providers.dfy` | `Providers` | what the manager makes of the files each provider returns |

The Go code changes state in place: the `Todo`'s previous hash, a `File`'s
fields, the buckets and notes behind the clients, and the lists its loops
build. Each such operation is a `method` on a class, with loops and their
invariants, proved against a specification function. The properties of the
system are lemmas about those functions.

The todo manager sees its provider only through the `joplinProvider`
interface. `Todo.Provider` stands for any implementation: it gives scripted
answers and records every call. Two models state what one `UpdateTodo` run
does: `Todo.CycleOf` gives the calls made, the hash kept and the error
returned, and `Todo.Todo.UpdateTodo` is proved to do exactly that.

Each backend gives every request a sequence number, and `fails(n)` says
whether request `n` fails in transit. That makes every error path reachable,
and each one is stated.

### Behaviour of the code worth knowing

- `slices.SortFunc` (`internal/managers/todo.go:140`) is not stable, so
  records of equal priority may come out in any order. The model promises
  a sorted permutation of the records and nothing about ties.
- The lock is written without a re-check. `S3.WaitForLockRealised` polls
  `locks/` until it is empty, and `S3.AcquireLock` then uploads its lock
  without looking again (`joplin_provider/s3.go:31-76`).
  `S3Adapter.StoredLockIsListed` shows one consequence: a client that waits
  while its own lock is still stored can only time out.
- `S3.Get` leaves `Provider` empty (`joplin_provider/s3.go:112-115`), so
  `SplitRaw`, `FormatRaw` and `SetData` leave an S3 note's raw bytes alone.
  `Providers.FetchedFileKeepsRaw` states the consequences:
  - S3 notes contribute no records, because their body stays empty;
  - an S3 note has no metadata, so its `id` reads as `""`. The `id` guard
    of `formatTodoData` therefore drops no S3 child unless `noteID` is
    empty, and then it drops every S3 child;
  - the target note is uploaded again with the bytes it was fetched with.
- A release error is only logged. The deferred release assigns its error
  to a local variable after the run's error has already been returned
  (`internal/managers/todo.go:61-66`), so it never changes the run's
  error.

## Model

| member | source | states |
|---|---|---|
| Text.TrimSuffix | joplin_provider/webClipper.go:58 | the result with the suffix appended back is the input when the suffix is there, and is the input itself otherwise |
| Text.TrimSuffixOfAppended | joplin_provider/webClipper.go:44-58 | appending ".md" and trimming it gives back the id |
| Text.ContainsIff | internal/managers/todo.go:118-122 | `bytes.Contains` holds exactly when the needle occurs at some position |
| Text.Split | internal/managers/todo.go:173 | splitting on newlines gives at least one piece and no piece holds a newline |
| Text.JoinSplit | joplin_provider/entities/file.go:37-50 | joining the pieces of a split with newlines restores the input |
| Text.SplitJoin | joplin_provider/entities/file.go:37-65 | splitting a join of newline-free pieces gives the pieces back |
| Text.TrimSpace | internal/managers/todo.go:181 | the result has no leading or trailing white space, occurs in the input with only white space before and after it, and is the input when that is already trimmed |
| Entities.SplitOf | joplin_provider/entities/file.go:32-54 | splitting keeps provider, name and raw bytes, and changes nothing for a file that is not from S3 |
| Entities.FormatOf | joplin_provider/entities/file.go:56-68 | formatting changes only the raw bytes, and changes nothing for a file that is not from S3 |
| Entities.SplitAfterFormat | joplin_provider/entities/file.go:32-68 | splitting a formatted S3 note gives back its header, body and metadata, when the header has no newline, the body is trimmed with no line starting "id: ", and there are two or more metadata lines, the first starting "id: " |
| Entities.LinesOfFormatted | joplin_provider/entities/file.go:61-65 | the lines of a formatted note are the header, an empty line, the body's lines, an empty line and the metadata lines |
| Entities.MetaStartAt | joplin_provider/entities/file.go:45-53 | the metadata starts at the first line after the header, and before the last line, that starts with "id: " |
| Entities.BodyBetweenEmptyLines | joplin_provider/entities/file.go:50 | a trimmed body framed by the two blank lines of the format trims back to itself |
| Entities.FirstMatch | joplin_provider/entities/file.go:77-83 | the found line starts with the needle and no earlier line does; when none is found no line does |
| Entities.Needle | joplin_provider/entities/file.go:71-75 | the key searched for always ends in ": " |
| Entities.NeedleOfSeparated | joplin_provider/entities/file.go:71-75 | "key" and "key: " look up the same metadata |
| Entities.LookupMeta | joplin_provider/entities/file.go:70-86 | the value is the rest of the first line that starts with the key, and "" when no line does |
| Entities.UpdateMeta | joplin_provider/entities/file.go:88-104 | the key is found exactly when a line starts with it; no line is added; nothing changes when it is not found; afterwards the key reads back as the new value; when found, exactly the first line with the key is replaced by key + value and every other line is kept |
| Entities.TimestampNeedlesDiffer | joplin_provider/entities/file.go:115-120 | no line starts with both "updated_time: " and "user_updated_time: " |
| Entities.HasMetaIff | joplin_provider/entities/file.go:94-103 | a line carries the key exactly when the search finds one |
| Entities.UpdateKeepsOtherKey | joplin_provider/entities/file.go:115-120 | rewriting one key leaves whether another key is present, and its value, unchanged |
| Entities.SetDataRefreshesTimestamps | joplin_provider/entities/file.go:106-126 | the body is always replaced; a non-S3 file changes nowhere else and cannot fail; an S3 file fails exactly when updated_time or user_updated_time is missing, and keeps its raw bytes then; on success both timestamps read back as now, no metadata line is added and the raw bytes are rebuilt |
| Entities.File.SplitRaw | joplin_provider/entities/file.go:32-54 | the file's new value is the split of its old value |
| Entities.File.MetaLine | joplin_provider/entities/file.go:45-53 | the search for the metadata block stops at the first line after the header and before the last line that starts with "id: "; it returns the last line's index when no such line exists |
| Entities.File.FormatRaw | joplin_provider/entities/file.go:56-68 | the file's new value is the format of its old value |
| Entities.File.MetaData | joplin_provider/entities/file.go:70-86 | returns the value lookup of the key in the metadata |
| Entities.File.SetMetaData | joplin_provider/entities/file.go:88-104 | the metadata and the result are the update of the old metadata (only the first line with the key is rewritten), and no other field changes |
| Entities.File.SetData | joplin_provider/entities/file.go:106-126 | the new value and the error are those of SetData on the old value, with `now` as the clock reading |
| TodoRecords.Bangs | internal/managers/todo.go:191-199 | counts the run of `!` the text starts with: all of them are `!` and the next character is not |
| TodoRecords.ParseLine | internal/managers/todo.go:180-216 | a line yields a record exactly when its trimmed form starts with `- [ ] !` or `- [x] !`, and that record's priority is at least 1 |
| TodoRecords.OneRecordPerMarkedLine | internal/managers/todo.go:180-219 | getMarkedTodos yields exactly one record per marked line, each with priority at least 1 |
| TodoRecords.MarkedSnoc | internal/managers/todo.go:180-219 | the records come in line order: a later line's records follow the earlier lines' records |
| TodoRecords.ParseTrimmed | internal/managers/todo.go:181-188 | a trimmed line with a checkbox prefix yields the record built from the rest after the prefix |
| TodoRecords.RecordOfRun | internal/managers/todo.go:188-206 | after `n` more `!`s the priority is n + 1, and the text is the rest after them, or the `!`s themselves when nothing follows |
| TodoRecords.ParseTaggedLine | internal/managers/todo.go:181-206 | `- [ ] ` + (n+1) `!`s + text renders as `- [ ] **text** (header)` + newline with priority n + 1, and the same for `- [x]` |
| TodoRecords.ParseBangsOnly | internal/managers/todo.go:191-199 | a line that is only the prefix and `!`s keeps the `!`s as its text, because the loop never reaches its break |
| TodoRecords.BangsOfRun | internal/managers/todo.go:191-199 | the count of a text that starts with exactly n `!`s is n |
| TodoRecords.GetMarkedTodos | internal/managers/todo.go:172-220 | returns the records of the lines of the file's body, in order |
| TodoRecords.MarkLine | internal/managers/todo.go:181-216 | returns the records of one line, trying the unchecked and then the checked prefix |
| TodoRecords.CountBangs | internal/managers/todo.go:189-199 | the priority is one more than the run of `!`, and the text is the rest after the run, or the whole rest when it is all `!` |
| TodoRecords.LineRecordsMatched | internal/managers/todo.go:183-215 | a line is rendered with the first prefix its trimmed form starts with |
| TodoRecords.LineRecordsUnmatched | internal/managers/todo.go:183-187 | a line matching neither prefix yields nothing |
| TodoRecords.RecordOfCounted | internal/managers/todo.go:201-213 | the record is the checkbox, then " **", the text, "** (", the header and ")" with a newline, at the counted priority |
| TodoRecords.CollectedConcat | internal/managers/todo.go:127-138 | collecting from two lists of files is collecting from each, in order |
| TodoRecords.TargetContributesNothing | internal/managers/todo.go:128-130 | a file whose `id` metadata is the target note's id contributes nothing |
| TodoRecords.OtherFileContributes | internal/managers/todo.go:127-138 | any other file contributes all its marked records, in place |
| TodoRecords.ByPriorityOrders | internal/managers/todo.go:140 | the comparison passed to `slices.SortFunc` is a strict weak ordering, and a list sorted by it is exactly a list in non-increasing priority |
| TodoRecords.InsertBy | internal/managers/todo.go:140 | under a strict weak ordering, inserting into a sorted list keeps it sorted; it adds exactly the record |
| TodoRecords.SortBy | internal/managers/todo.go:140 | a reference sort: for any strict weak ordering its result is sorted by it and is a permutation of its input, so the sort contract can be met |
| TodoRecords.LibraryContractSatisfiable | internal/managers/todo.go:140 | some hash and sort meet the library contract: 32-byte digests, and for every strict weak ordering a sorted permutation |
| TodoRecords.TodoDataIsSortedPermutation | internal/managers/todo.go:124-147 | the merged text concatenates a permutation of all collected records in non-increasing priority, derived from the by-priority comparison and the library's promise for any strict weak ordering |
| TodoRecords.FormatTodoData | internal/managers/todo.go:124-147 | returns the merged text of the records collected from the files |
| TodoRecords.CollectRecords | internal/managers/todo.go:125-138 | the list built is the records of every file but the target note, in file order |
| TodoRecords.ConcatRecords | internal/managers/todo.go:142-144 | the bytes built are the records' texts concatenated in order |
| Todo.Provider.WaitForLockRealised | internal/managers/todo.go:18 | the call is recorded, and the provider's scripted answer comes back |
| Todo.Provider.AcquireLock | internal/managers/todo.go:19 | the call is recorded, and the provider's scripted answer comes back |
| Todo.Provider.ReleaseLock | internal/managers/todo.go:20 | the call is recorded, and the provider's scripted answer comes back |
| Todo.Provider.ListNames | internal/managers/todo.go:21 | the call is recorded, and the provider's scripted listing comes back |
| Todo.Provider.Get | internal/managers/todo.go:22 | the call is recorded, and the provider's scripted note or error for that name comes back |
| Todo.Provider.Put | internal/managers/todo.go:23 | the call is recorded, and the provider's scripted answer for that file comes back |
| Todo.IsChildIff | internal/managers/todo.go:118-122 | a note is a child exactly when "parent_id: <parent>" occurs in its raw bytes, so a note with empty raw bytes never is |
| Todo.ScanStep | internal/managers/todo.go:89-113 | one loop step: a name without ".md" is skipped; a failed fetch ends the loop with the error wrapped with "get"; otherwise the fetched note is gathered and the loop goes on |
| Todo.FetchCalls | internal/managers/todo.go:90-98 | every fetch is of a listed name ending in ".md" |
| Todo.ScanOnlyFetches | internal/managers/todo.go:89-113 | the loop makes no call but fetches |
| Todo.ScanFailsIff | internal/managers/todo.go:95-98 | the loop succeeds exactly when every ".md" name can be fetched |
| Todo.ScanMeetsReference | internal/managers/todo.go:89-115 | when every fetch succeeds, the loop fetches each ".md" name once in order, its children are the split child notes in listing order, and the target is the split target note |
| Todo.GatheredMeetsReference | internal/managers/todo.go:100-112 | gathering one fetched note adds its child file and updates the target note as the listing-wide definition says |
| Todo.TargetNameIsMd | internal/managers/todo.go:100 | the target's name ends in ".md" and trimming that gives back the note id |
| Todo.ListChildrenMeetsReference | internal/managers/todo.go:83-116 | listChildren lists once with no prefix and then only fetches; it succeeds exactly when the listing and every ".md" fetch succeed; it then returns the split children in listing order and the split target, or the zero File when there is no target |
| Todo.TargetIsNoChild | internal/managers/todo.go:100-105 | the target note is never counted among the children |
| Todo.LockedSectionMakesNoteCalls | internal/managers/todo.go:68-78 | the work under the lock only lists, fetches and puts |
| Todo.LockDiscipline | internal/managers/todo.go:50-81 | a run first waits; a failed wait or failed acquire ends it with an error and nothing else happens; after an acquire the run ends with the release of its own lock and makes only note calls in between; the release's error never changes the outcome |
| Todo.RunKeepsHashOfWrittenData | internal/managers/todo.go:149-170 | a failed run keeps the previous hash; a successful run keeps the hash of the text it generated |
| Todo.RepeatedRunWritesNothing | internal/managers/todo.go:150-153 | a run after a successful run succeeds, puts nothing and keeps the hash, whatever the clock says, when it gets the lock, the listing is the same and every note but the target (which the first run may have rewritten) reads the same |
| Todo.FirstRunWrites | internal/managers/todo.go:149-167 | a first run whose listing succeeds puts the target note with the generated text plus the trailer, or fails when SetData fails |
| Todo.MissingTargetWritesZeroFile | internal/managers/todo.go:149-170 | with no target note, a run whose text changed puts a zero File whose body is the text |
| Todo.Todo.NewTodo | internal/managers/todo.go:41-48 | a new manager holds its provider and ids and has no previous hash |
| Todo.Todo.UpdateTodo | internal/managers/todo.go:50-81 | the calls made, the hash kept and the error returned are those of one cycle |
| Todo.Todo.ListChildren | internal/managers/todo.go:83-116 | the calls made and the result are those of listChildren; on error the list is empty and the note is the zero File |
| Todo.Todo.Scan | internal/managers/todo.go:89-113 | the calls made and the result are those of the reference loop over the listed names; on error the list is empty and the note is the zero File |
| Todo.Todo.Locked | internal/managers/todo.go:68-80 | the calls made, the hash kept and the error returned are those of the reference work under the lock |
| Todo.Todo.Gather | internal/managers/todo.go:100-112 | the next state of the loop is the one gathering the fetched note gives |
| Todo.Todo.UpdateNote | internal/managers/todo.go:149-170 | the calls made, the hash kept and the error returned are those of updateNote |
| S3Adapter.AfterSortedSuffix | joplin_provider/s3client/s3client.go:86-92 | the keys after a start key are a suffix of the sorted keys, each greater than the start |
| S3Adapter.PageContinues | joplin_provider/s3.go:84-103 | when the keys already received are the first keys under the prefix, the next page starting after the last of them continues them; an empty page means all keys have been received |
| S3Adapter.InsertKey | joplin_provider/s3client/s3client.go:113-132 | the stored keys stay strictly sorted and hold exactly the old keys and the new one |
| S3Adapter.ObjectStore.ListPage | joplin_provider/s3client/s3client.go:86-111 | a listing fails exactly when its request fails; otherwise it returns the next page of keys under the prefix after the start key; nothing is stored or removed |
| S3Adapter.ObjectStore.FetchObject | joplin_provider/s3client/s3client.go:60-84 | a fetch returns the stored bytes, a transport failure, or not-found for a missing key |
| S3Adapter.ObjectStore.UploadObject | joplin_provider/s3client/s3client.go:113-132 | an upload stores the bytes under the key unless its request fails |
| S3Adapter.ObjectStore.DeleteObject | joplin_provider/s3client/s3client.go:134-145 | a delete removes the key, succeeding for a missing key too, unless its request fails |
| S3Adapter.ListingStep | joplin_provider/s3.go:87-100 | each request of the loop continues the paged log; an empty page means every key under the prefix was received; otherwise the keys received grow and stay the first keys under the prefix |
| S3Adapter.LockFileNameUnderLocks | joplin_provider/s3.go:125-127 | every lock name lies under "locks/", and different ids give different lock names |
| S3Adapter.StoredLockIsListed | joplin_provider/s3.go:46-54 | while any lock is stored, the polled listing is not empty |
| S3Adapter.ReleaseUndoesAcquire | joplin_provider/s3.go:64-81 | releasing a lock that acquiring created restores the same keys and objects |
| S3Adapter.S3.NewS3 | joplin_provider/s3.go:24-28 | the provider holds its object-store client |
| S3Adapter.S3.WaitForLockRealised | joplin_provider/s3.go:31-60 | polls "locks/" at most budget times; succeeds exactly when a poll comes back empty; a failed poll ends it with the error wrapped with "list"; otherwise, once the budget is used, every poll found a lock and it fails with ErrOtherLockWasNotRealised |
| S3Adapter.S3.AcquireLock | joplin_provider/s3.go:64-76 | stores the desktop-client lock body under the id's lock name, without looking for other locks; an error is wrapped with "put" |
| S3Adapter.S3.ReleaseLock | joplin_provider/s3.go:79-81 | deletes the id's lock name; an error is returned unwrapped |
| S3Adapter.S3.ListNames | joplin_provider/s3.go:84-103 | asks for pages under the prefix, each starting after the last key of the page before, until an empty page; on success returns every key under the prefix in order; on failure the failing request's error is wrapped with "list" |
| S3Adapter.S3.ListRound | joplin_provider/s3.go:88-99 | one round of the loop: a failure or an empty page ends the listing with its outcome, and any other page keeps the loop state for the next round |
| S3Adapter.S3.Get | joplin_provider/s3.go:106-116 | a fetched note carries only the stored name and bytes; errors come back unwrapped |
| S3Adapter.S3.Put | joplin_provider/s3.go:119-123 | uploads the raw bytes unchanged under the name |
| WebClipperAdapter.NoteService.List | joplin_provider/webClipperClient/webClipperClient.go:70-101 | a listing request returns the numbered page, or a transport failure |
| WebClipperAdapter.NoteService.Get | joplin_provider/webClipperClient/webClipperClient.go:103-133 | returns the stored note, a transport failure, or not-found |
| WebClipperAdapter.NoteService.Put | joplin_provider/webClipperClient/webClipperClient.go:135-165 | replaces the body of an existing note and leaves everything else as it was; a missing note or a failed request changes nothing |
| WebClipperAdapter.NamesFromIff | joplin_provider/webClipper.go:35-55 | a name is listed exactly when it is "<id>.md" for a note on one of the pages up to and including the first page without more |
| WebClipperAdapter.IdOfListedName | joplin_provider/webClipper.go:44-58 | the id Get derives from a listed name is the id the name was made from |
| WebClipperAdapter.ListedNameIsNoteId | joplin_provider/webClipper.go:35-58 | every listed name ends in ".md", and Get maps it back to the id of a listed note |
| WebClipperAdapter.NoteFileMeta | joplin_provider/webClipper.go:65-71 | the fetched file's MetaData("id") is the note's id and MetaData("parent_id") its parent id |
| WebClipperAdapter.ListingStep | joplin_provider/webClipper.go:37-52 | asking for page p after pages 1 to p - 1 keeps the pages in order; a page without more completes the listing, and any other page keeps the loop state for page p + 1 |
| WebClipperAdapter.WebClipper.NewWebClipper | joplin_provider/webClipper.go:18-22 | the provider holds its client |
| WebClipperAdapter.WebClipper.AcquireLock | joplin_provider/webClipper.go:24-27 | always succeeds and changes nothing |
| WebClipperAdapter.WebClipper.ReleaseLock | joplin_provider/webClipper.go:29-32 | always succeeds and changes nothing |
| WebClipperAdapter.WebClipper.ListNames | joplin_provider/webClipper.go:35-55 | asks for pages 1, 2, … in order; on success returns "<id>.md" for every note of every page up to and including the first page without more; on failure the failing request's error is wrapped with "list" |
| WebClipperAdapter.WebClipper.AppendNames | joplin_provider/webClipper.go:43-45 | appends "<id>.md" for every note of the page, in order |
| WebClipperAdapter.WebClipper.Get | joplin_provider/webClipper.go:57-72 | fetches the note named without ".md" and builds a web-clipper File with title as header, body as data, id and parent id as metadata and empty raw bytes; an error is wrapped with "get" |
| WebClipperAdapter.WebClipper.Put | joplin_provider/webClipper.go:74-79 | sends the file's data, not its raw bytes, as the body of the note named without ".md"; the error comes back unwrapped |
| Providers.FetchedFileKeepsRaw | joplin_provider/s3.go:106-116 | an S3 note passes through SplitRaw and SetData with its raw bytes intact, so Put uploads them as fetched; it has no `id` metadata |
| Providers.ClippedNoteIsNoChild | joplin_provider/webClipper.go:65-71 | a web-clipper note is never a child, and SetData on it replaces the body that Put then sends |

## Left out

- Go slice aliasing is not modelled; all byte data is an immutable sequence of runes. It arises at `bytes.NewBuffer(p[:len(p)-2])` (`internal/managers/todo.go:201`) and `bytes.NewBuffer(f.Header)` (`joplin_provider/entities/file.go:61`).
- Go's `[]byte` is modelled as `seq<char>`, one `char` per UTF-8 rune (`Text.Bytes`). Raw payloads that are not valid UTF-8 cannot be represented, and lengths and positions count runes, not bytes. Every byte the code compares against (`\n`, `!`, the checkbox prefixes, `: `) is ASCII, and an ASCII byte never occurs inside another rune's encoding, so splitting, prefix tests and counting give the same pieces on runes as on bytes.
- SHA-256 in `hashBytes` is a parameter, the hash function of `TodoRecords.Library`. The model assumes only that digests are 32 bytes; the digests are compared but never computed.
- `slices.SortFunc` is a parameter, the sort of `TodoRecords.Library`, which takes the comparison as an argument. The model assumes only the library's promise: for a strict weak ordering, a sorted permutation. Its order among records that compare equal is not modelled.
- TodoRecords.ByPriority: the difference of two priorities is not wrapped to 64 bits. A priority is at most one more than the length of a line, so the Go subtraction cannot overflow.
- The clock (`time.Now`) is not read. The timestamp `updateNote` appends and the one `SetData` writes are parameters (`generatedAt`, `stamp`, `now`). Their RFC 3339 formatting is not modelled.
- S3Adapter.S3.WaitForLockRealised: the 30-second deadline and the one-second timer are not modelled. The deadline is a budget, the number of polls it leaves time for. A context cancelled while a request is in flight is not modelled either.
- The HTTP and AWS clients are not modelled; `joplin_provider/s3client/s3client.go` and `joplin_provider/webClipperClient/webClipperClient.go` are replaced by `ObjectStore` and `NoteService`.
  - Not modelled: request building, JSON decoding, status-code handling, and the clients' own error wrapping.
  - A client error is either `Transport(n)` for request `n`, or `NotFound`.
- ObjectStore keys are listed in sorted order with a fixed page size. Keys without a name, which the client skips, do not occur.
- WebClipperAdapter.NoteService: the listing is fixed for the service's lifetime, and `Put` does not change it. A page number past the last page answers an empty page with nothing more.
- Todo.Provider: the answers are fixed for a run, so a `Put` does not change what later calls return. `UpdateTodo` puts only as its last note call.
- Only one process is modelled. Concurrent clients, and mutual exclusion between them, are not: the code gives none. The store does not change between the polls of one wait.
- Logging is not modelled. That includes the log line for a failed release (`internal/managers/todo.go:63-65`) and the run's report.
- `NewTodo` also takes the library (hash and sort) that the Go code calls directly.
- Wiring and scheduling are not modelled: `cmd/app/app.go`, `main.go`, `internal/crons/todo.go` and `internal/configs/configs.go`.
- `joplin_provider/provider.go` is not part of this model. It only declares the interface that both adapters implement.
- The loops inside `getMarkedTodos`, `formatTodoData`, `listChildren`, `SplitRaw` and `ListNames` are separate methods (`MarkLine`, `CountBangs`, `CollectRecords`, `ConcatRecords`, `AppendNames`, `ListRound`, `Scan`, `MetaLine`). They take and return the loop's state. The work under the lock in `UpdateTodo` is the method `Locked`.
