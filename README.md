# gomad migration pipeline, modelled in Dafny

gomad receives GitHub push webhooks, picks the changed `.sql` files, and cuts
each one into migration blocks. A block is a header line
`-- skip?:user:namespace:comment` followed by SQL body lines. Each block gets a
64-bit FNV-1a signature of its raw header line. The deduplication filter drops
every candidate whose signature the store already holds, and the rest are
bulk-inserted.

The model covers four parts:

- **The parser** (`internal/utils/migrations_parser.go`):
  - `ParseSQL` is an imperative loop over the scanned lines (module
    `MigrationsParser`). It is proved equal to a block-wise reference
    reading, `Parse`.
  - `parseMigrationHeader` is the colon-field splitter and validator (module
    `HeaderParser`, with round trips in `HeaderFormat`).
  - `generateSignature` is FNV-1a 64 (module `Fnv`): `Write` then `Sum64` is
    a left-to-right fold over the octets, with the offset basis and prime of
    section 2 of draft-eastlake-fnv. It is proved equal to `Fnv1a`, an
    independent recursion on the last octet (the draft's own reference code
    is the iterative loop).
  - The block-level properties are lemmas in `ParserFacts`. Whole files are
    in `WrittenBlocks`: well-formed blocks written out as text parse back to
    their migrations, in file order.
- **Deduplication**:
  - `filterCompleted` and the `managers` `ProcessMigrations` are in module
    `Managers`.
  - The older `migrations` `ProcessMigrations`, which drops the bulk-insert
    error, is in module `Migrations`.
  - The store's lookup and insert are oracles. Go's map iteration order is
    unspecified, so the filter's output is specified by `Enumerates`: every
    surviving candidate exactly once, in some order.
- **The newer webhook**: `HookHandler.getSQLFiles` and `HandlePush` (module
  `Handlers`).
- **The older webhook**: `HookManager.processSQLFiles`, `processFile` and
  `HandlePush` (module `Hooks`).

The two webhooks share the push event, the `.sql` path filter and the
stop-at-first-failure concatenation of per-file results (module `PushEvents`).
Text is a sequence of bytes (module `SqlText`, with Go's `strings` helpers on
ASCII white space and letters).

Every collaborator is an oracle passed in as a function:

- the JSON decoder;
- the webhook signature check;
- the file fetcher;
- the file parser and the per-file processor;
- the migration manager;
- the store's `GetFilteredBySignature` and `BulkInsert`.

Each method also returns what it handed to those oracles, so that "not called"
and "called with exactly this" can be stated:

- the files requested;
- the batch given to the manager;
- the list given to `BulkInsert`.

## Model

| member | source | states |
|---|---|---|
| MigrationsParser.ParseSQL | internal/utils/migrations_parser.go:22-82 | The scanning loop returns exactly `Parse(content)`, the block-wise reading of the text's lines. |
| MigrationsParser.ScanLines | internal/utils/migrations_parser.go:30-75 | The loop over the lines, then appending the last open block, equals the state machine `RunFrom` started from no header, no block and an empty buffer, followed by `Finish`. |
| MigrationsParser.ScanLine | internal/utils/migrations_parser.go:31-68 | One pass of the loop body is the step the line's kind dictates: skip a blank line, open a block at a `--` line, or add a body line. |
| MigrationsParser.ScanHeader | internal/utils/migrations_parser.go:38-59 | A header line fails when the open block has no body. Otherwise it closes the open block with its trimmed DDL and opens the parsed header, or returns the header's parse error. |
| MigrationsParser.ScanBody | internal/utils/migrations_parser.go:61-68 | A body line before any header is `MissingHeader`. Inside a block it is appended to the buffer followed by a newline. After a header has been seen but with no block open it is ignored. |
| MigrationsParser.LineCases | internal/utils/migrations_parser.go:32-38 | Unfolds `Classify`: a line whose trimmed text is empty is skipped. Otherwise it is a header exactly when the untrimmed line starts with `--`, and body text when it does not. |
| MigrationsParser.OpenBlock | internal/utils/migrations_parser.go:50-56 | A header opens a block exactly when `parseMigrationHeader` accepts it, and the block's signature is the hash of the whole raw line. |
| MigrationsParser.FromStart | internal/utils/migrations_parser.go:22-82 | The state machine over any line kinds, started empty, gives the block-wise `Migrations` of the non-blank lines. |
| MigrationsParser.InBlock | internal/utils/migrations_parser.go:30-75 | Inside an open block, the rest of the loop gives the block-wise result of the remaining non-blank lines. |
| MigrationsParser.BlankSkipped | internal/utils/migrations_parser.go:32-36 | One unfolding of the state machine: a blank line leaves the loop's outcome and the non-blank lines unchanged. |
| MigrationsParser.HeaderFails | internal/utils/migrations_parser.go:39-41 | One unfolding of the state machine: a header met while the open block has no body, or a header that fails to parse, ends the loop as the block-wise reading says. |
| MigrationsParser.ClosingOutcome | internal/utils/migrations_parser.go:43-57 | One unfolding of the state machine: a header that parses, met after a block with a body, appends that block with its trimmed DDL, empties the buffer and opens the new block. |
| MigrationsParser.RunFromIs | internal/utils/migrations_parser.go:30-69 | The loop position `from` runs the state machine on exactly the lines not yet scanned. |
| MigrationsParser.ParseReading | internal/utils/migrations_parser.go:22-82 | `Parse` of the content is the state machine over the content's lines followed by the final append. |
| SqlText.SplitLines | internal/utils/migrations_parser.go:28-31 | The scanned lines hold no newline and only bytes of the content, and there are none exactly when the content is empty. |
| SqlText.SplitCons | internal/utils/migrations_parser.go:28-31 | A line without a newline, then a newline, then the rest, scans to that line (final carriage return dropped) followed by the lines of the rest. |
| SqlText.SplitOne | internal/utils/migrations_parser.go:28-31 | Non-empty content without a newline scans to one line, itself with a final carriage return dropped. |
| SqlText.BodyKept | internal/utils/migrations_parser.go:28-38 | Dropping a final carriage return keeps a line that holds more than white space and does not start with `--` such a line, with the same trimmed text. |
| SqlText.TrimSpace | internal/utils/migrations_parser.go:32 | The trimmed text is empty exactly when the line is all white space, and it neither starts nor ends with white space. |
| SqlText.TrimBounds | internal/utils/migrations_parser.go:32 | The trimmed text is the line with a white-space prefix and a white-space suffix removed: the line is that prefix, the trimmed text and that suffix. |
| SqlText.TrimSpaceAfter | internal/utils/migrations_parser.go:44 | A white-space byte appended to a text, such as the newline after the last body line, does not change its trimmed text. |
| SqlText.TrimPrefix | internal/utils/migrations_parser.go:88 | One leading `--` is dropped when present, and the text is otherwise unchanged. |
| SqlText.ToLower | internal/utils/migrations_parser.go:108 | Every upper-case ASCII letter is lowered and every other byte is kept. |
| SqlText.IndexOfFirst | internal/utils/migrations_parser.go:91-106 | No occurrence of the byte lies before the position `strings.Index` reports, and none at all when it reports -1. |
| SqlText.IndexOfIs | internal/utils/migrations_parser.go:91-106 | The first occurrence of a byte is the position the search reports. |
| ParserFacts.BlankIgnored | internal/utils/migrations_parser.go:32-36 | Inserting a blank line anywhere leaves the parse result unchanged. |
| ParserFacts.BlankContent | internal/utils/migrations_parser_test.go:74-85 | Empty or all-white-space content parses to no migrations and no error. |
| ParserFacts.BodyBeforeHeader | internal/utils/migrations_parser.go:61-63 | A body line before any header, after blank lines only, fails the whole parse with `MissingHeader` and no partial result. |
| ParserFacts.HeaderWithoutBody | internal/utils/migrations_parser.go:39-41 | After complete blocks, a header followed only by blank lines and then another header is `HeaderWithoutSql` with that header's comment, whatever follows. |
| ParserFacts.TrailingHeaderDropped | internal/utils/migrations_parser.go:72-75 | After complete blocks, a header that ends the input, blank lines allowed after it, is dropped without an error: the result is the complete blocks' migrations. |
| ParserFacts.BadHeaderFails | internal/utils/migrations_parser.go:50-53 | After complete blocks, a `--` line whose header does not parse fails the whole parse with its error. |
| ParserFacts.FewColonsHeader | internal/utils/migrations_parser_test.go:87-92 | A non-blank line starting with `--` with fewer than three colons after the marker is a header whose parse fails with `NotEnoughParts`. |
| ParserFacts.Compose | internal/utils/migrations_parser.go:43-47 | The migrations of complete blocks followed by lines that start with a header are the first part's migrations followed by the second part's, in file order. |
| ParserFacts.BlockAppend | internal/utils/migrations_parser.go:43-47 | A block with a body is closed by the next header, and what follows it does not change that block's migration. |
| ParserFacts.NonBlankAppend | internal/utils/migrations_parser.go:32-36 | Dropping blank lines distributes over concatenation. |
| ParserFacts.NonBlankMembers | internal/utils/migrations_parser.go:32-36 | The kept lines are exactly the lines that are not blank. |
| ParserFacts.CollectJoined | internal/utils/migrations_parser.go:65-68 | The DDL buffer is the body lines, each followed by a newline, appended to what it held. |
| ParserFacts.DdlNotEmpty | internal/utils/migrations_parser.go:43-47 | Every migration the block-wise reading returns from scanned lines has a non-empty DDL. |
| ParserFacts.MigrationsFromHeaders | internal/utils/migrations_parser.go:43-57 | Every migration has a trimmed DDL and is, DDL aside, the parse of one of the headers. |
| ParserFacts.ScannedKinds | internal/utils/migrations_parser.go:32-38 | Body lines that survive hold more than white space, and every parsed header comes from a scanned `--` line. |
| ParserFacts.OpenedFields | internal/utils/migrations_parser.go:50-56 | A block opened by a line has a non-empty trimmed user, namespace and comment, and its signature is the hash of that line. |
| ParserFacts.ParsedMigrations | internal/utils/migrations_parser.go:22-82 | Every migration `ParseSQL` returns has a non-empty trimmed DDL and a non-empty user, namespace and comment. It comes from a scanned `--` line that parses to its fields, and its signature is that line's hash. |
| HeaderParser.ParseMigrationHeader | internal/utils/migrations_parser.go:85-134 | An accepted header has a non-empty user, namespace and comment without surrounding white space, an empty DDL and a zero signature. |
| HeaderParser.FieldsResult | internal/utils/migrations_parser.go:108-133 | The field checks succeed only with non-empty trimmed fields. A rejection names a field fault and carries the line. |
| HeaderParser.FieldChecks | internal/utils/migrations_parser.go:108-123 | Unfolds the checks' definition: an all-white-space user, then namespace, then comment is rejected in that order. Otherwise the result is the trimmed fields, with skip set exactly when the trimmed first field, lowered, is `skip`. |
| HeaderParser.TooFewColons | internal/utils/migrations_parser.go:91-106 | A header is rejected as not having enough parts exactly when its trimmed input holds fewer than three colons. |
| HeaderParser.ColonCount | internal/utils/migrations_parser.go:91-106 | The three searches all succeed exactly when the input holds at least three colons. |
| HeaderParser.NextColonIndex | internal/utils/migrations_parser.go:96-106 | Each search is `strings.Index` on the rest of the input from `from`, shifted back by `from`. |
| HeaderParser.NextColonFirst | internal/utils/migrations_parser.go:91-106 | A search reports a colon, and no colon lies between its start and the position reported. |
| HeaderParser.NextColonCount | internal/utils/migrations_parser.go:91-106 | A search fails exactly when no colon remains, and a successful one passes exactly one colon. |
| HeaderParser.ColonPositionsAt | internal/utils/migrations_parser.go:91-106 | When the first three colons lie at `i`, `j` and `k`, the searches report exactly those positions. |
| HeaderParser.ColonPositionsSound | internal/utils/migrations_parser.go:91-106 | Successful searches report the first three colons of the input. |
| HeaderParser.SearchesFail | internal/utils/migrations_parser.go:92-105 | A failure of the first, second or third search means the header has no fields. |
| HeaderParser.HeaderFields | internal/utils/migrations_parser.go:88-111 | With the first three colons of the trimmed input at `i`, `j` and `k`, the parse is the field checks on the text before, between and after them. |
| HeaderFormat.HeaderRoundTrip | internal/utils/migrations_parser.go:85-134 | A header written as `-- first:user:namespace:comment`, with colon-free first three fields and outer fields without surrounding white space, parses to the field checks on exactly those fields. The comment may hold further colons, and may be empty, which the checks then reject as `CommentEmpty`. |
| HeaderFormat.HeaderParsed | internal/utils/migrations_parser_test.go:209-311 | Such a header with trimmed non-empty user, namespace and comment parses to a migration holding exactly them, with skip set exactly when the first field reads `skip` in any case. |
| HeaderFormat.Layout | internal/utils/migrations_parser.go:108-111 | In the joined fields the first three colons are the separators, and the slices between them are the fields. |
| HeaderFormat.InputAfterMarker | internal/utils/migrations_parser.go:88-89 | After `--` and one space, already-trimmed text is the header input unchanged. |
| WrittenBlocks.SingleBlock | internal/utils/migrations_parser_test.go:13-27 | One well-formed header line, a newline and one SQL line parse to exactly one migration: the header's trimmed user, namespace and comment, skip as the first field reads, the trimmed SQL line as DDL and the hash of the raw header line as signature. |
| WrittenBlocks.LastUnterminated | internal/utils/migrations_parser_test.go:28-53 | Well-formed blocks followed by a last block with no final newline parse to every block's migration, in file order. |
| WrittenBlocks.RenderParsed | internal/utils/migrations_parser.go:22-82 | Any number of well-formed blocks written with every line newline-terminated parse to the blocks' migrations, in file order. |
| WrittenBlocks.SplitRender | internal/utils/migrations_parser.go:28-31 | The scanner cuts written blocks, and any text after them, into each block's header line and body line, then the lines of that text. |
| WrittenBlocks.RawKinds | internal/utils/migrations_parser.go:32-38 | Block by block, the header line opens the migration its fields describe and the body line is body text. |
| WrittenBlocks.KindsParsed | internal/utils/migrations_parser.go:39-75 | The blocks' lines are all kept, end in body text, and make the blocks' migrations in order. |
| WrittenBlocks.HeaderOpens | internal/utils/migrations_parser.go:50-56 | A well-written header line is a header that opens the migration with its trimmed fields, its skip flag and the hash of the raw line. |
| WrittenBlocks.BodyKind | internal/utils/migrations_parser.go:32-38 | A well-written body line, final carriage return dropped, is body text with the same trimmed text. |
| WrittenBlocks.PairParsed | internal/utils/migrations_parser.go:65-75 | A header line with one body line makes one migration whose DDL is the trimmed body line. |
| WrittenBlocks.BodyOnly | internal/utils/migrations_parser.go:72-75 | A block with a single body line that ends the input is appended with that line, trimmed, as DDL. |
| WrittenBlocks.KindsCons | internal/utils/migrations_parser.go:30-38 | Lines are classified one at a time, in order. |
| Fnv.Sum64aIsFnv1a | internal/utils/migrations_parser.go:136-140 | `Write` then `Sum64` from the offset basis, a fold over the octets from the first, equals `Fnv1a`, an independent recursion on the last octet with the same basis and prime. |
| Fnv.Streaming | internal/utils/migrations_parser.go:137-139 | Hashing `a + b` is hashing `b` from the state `a` leaves. |
| Fnv.SignatureAppend | internal/utils/migrations_parser.go:136-140 | The signature of a concatenation continues from the signature of its first part. |
| Fnv.EmptySignature | internal/utils/migrations_parser_test.go:180-182 | The signature of the empty string is the offset basis 14695981039346656037. |
| Fnv.User1Signature | internal/utils/migrations_parser_test.go:14-23 | `-- :user1:ns1:comment1` hashes to 4193559969700021025. |
| Fnv.User2SkipSignature | internal/utils/migrations_parser_test.go:33-50 | `-- skip:user2:ns2:comment2` hashes to 9442060313613740461. |
| Fnv.SimpleSignature | internal/utils/migrations_parser_test.go:170-172 | `-- :user:ns:comment` hashes to 1374584940602396620. |
| Fnv.SkipSignature | internal/utils/migrations_parser_test.go:175-177 | `-- skip:user:ns:comment` hashes to 15469498398215482039. |
| Managers.FilterCompleted | internal/rest/managers/migrations_manager.go:68-93 | The store is asked for every pending signature, in order and with duplicates. A failing lookup is wrapped and returned. Otherwise the result lists each survivor of the signature map (last occurrence wins, reported ids removed) exactly once. |
| Managers.ListValues | internal/rest/managers/migrations_manager.go:87-91 | Ranging over the map and appending lists each value exactly once. |
| Managers.ProcessMigrations | internal/rest/managers/migrations_manager.go:37-48 | A failing lookup is returned wrapped twice, and `BulkInsert` is not called. Otherwise `BulkInsert` receives exactly the filtered list, and its error, wrapped, or none is returned. |
| Migrations.ProcessMigrations | internal/rest/migrations/migrations_manager.go:69-77 | A failing lookup is returned wrapped, with no insert. Otherwise `BulkInsert` receives exactly the filtered list and the result is no error, whatever the insert returns. |
| Managers.Signatures | internal/rest/managers/migrations_manager.go:70-73 | Definition: the signature list has one entry per candidate, in input order. |
| Managers.LastWinsKeys | internal/rest/managers/migrations_manager.go:71-74 | The signature map has exactly the pending signatures as keys. |
| Managers.LastWinsValues | internal/rest/managers/migrations_manager.go:72 | Every value of the signature map is an unmodified pending candidate carrying its key. |
| Managers.LastWinsIs | internal/rest/managers/migrations_manager.go:72 | For a repeated signature the map keeps its last occurrence in `pending`. |
| Managers.FilteredNotStored | internal/rest/managers/migrations_manager.go:81-85 | No filtered candidate has a signature among the reported ids. |
| Managers.FilteredFromPending | internal/rest/managers/migrations_manager.go:72 | Every filtered candidate is an unmodified element of `pending`. |
| Managers.FilteredCovers | internal/rest/managers/migrations_manager.go:69-91 | Every pending signature the store did not report appears in the result exactly once. |
| Managers.FilteredLastWins | internal/rest/migrations/migrations_manager.go:45-48 | The candidate kept for a signature is its last occurrence in `pending`. |
| Managers.FilteredBound | internal/rest/migrations/migrations_manager.go:61-64 | The result is no longer than `pending`. |
| Managers.EnumeratedKeys | internal/rest/managers/migrations_manager.go:87-91 | The signatures of a listing are exactly the map's keys. |
| Managers.DistinctCount | internal/rest/managers/migrations_manager.go:87-91 | A listing with distinct signatures has as many signatures as elements. |
| Managers.SignatureSetBound | internal/rest/managers/migrations_manager.go:69-74 | A batch has no more distinct signatures than candidates. |
| Managers.ReplayFiltersAll | internal/rest/managers/migrations_manager.go:81-91 | When every pending signature is stored, the filtered list, and so the insert, is empty. |
| Managers.UnknownIdsIgnored | internal/rest/managers/migrations_manager.go:82-84 | Reported ids that are not pending signatures do not change the survivors. |
| Managers.IdsStep | internal/rest/managers/migrations_manager.go:81-85 | One unfolding of the definition: each pass of the delete loop removes one more reported id. |
| Handlers.GetSQLFiles | internal/rest/handlers/hook_handler.go:126-144 | The loop returns `SqlFiles` of the commits: commit by commit, the added then the modified paths ending in `.sql`. |
| Handlers.AppendSqlPaths | internal/rest/handlers/hook_handler.go:131-140 | One inner loop appends exactly the `.sql` paths of its list, in order. |
| Handlers.HandlePush | internal/rest/handlers/hook_handler.go:83-124 | A decode failure is a bad request, then an invalid signature is unauthorized. A non-master ref, or no `.sql` file, is 204 with no file processed and no manager call. Otherwise files are processed in order up to and including the first failure, which is an internal error naming the file. If none fails the manager gets the concatenation, and its error is an internal error, otherwise 204. |
| Handlers.FileStep | internal/rest/handlers/hook_handler.go:109-115 | One unfolding of the definitions: processing one more file extends the requests and the outcomes by that file, and the gathered result stops at the first failure. |
| Handlers.Outcomes | internal/rest/handlers/hook_handler.go:110 | Definition: each file is asked of the processor with the repository's full name and the pushed commit. |
| Hooks.ProcessFile | internal/rest/hooks/hook_manager.go:167-184 | A fetch error is returned wrapped with the path, without calling the parser. Otherwise the parser gets the fetched text, and its result or error is returned unchanged. |
| Hooks.ProcessSQLFiles | internal/rest/hooks/hook_manager.go:138-164 | Files are fetched in `SqlFiles` order up to and including the first failure, which is returned wrapped with that file's name. Otherwise the result is the concatenation of every file's output. |
| Hooks.ProcessCommit | internal/rest/hooks/hook_manager.go:142-161 | One commit's added then modified `.sql` files are processed after those already visited, stopping at a failure. |
| Hooks.ProcessPaths | internal/rest/hooks/hook_manager.go:143-151 | One inner loop processes its `.sql` paths in order, stopping at a failure. |
| Hooks.VisitPath | internal/rest/hooks/hook_manager.go:144-150 | A path is processed exactly when it ends in `.sql`, and a failure is wrapped with its name. |
| Hooks.FileOutcomes | internal/rest/hooks/hook_manager.go:145 | Definition: each matched path is fetched with the repository's full name at the pushed commit. |
| Hooks.FailureStays | internal/rest/hooks/hook_manager.go:146-148 | Once a file fails, no later file changes the outcome. |
| Hooks.HandlePush | internal/rest/hooks/hook_manager.go:85-119 | A decode failure is a bad request, then an invalid signature is unauthorized, then a non-master ref is 204 with nothing processed. On master the manager is called even with no `.sql` file, with an empty batch. A processing failure is an internal error without a manager call. A manager error is an internal error, otherwise 204. |
| PushEvents.SqlFilesExactly | internal/rest/handlers/hook_handler.go:126-144 | A path is selected exactly when it ends in `.sql` and some commit added or modified it. |
| PushEvents.CommitFilesExactly | internal/rest/handlers/hook_handler.go:131-140 | A commit's selected files are its added or modified `.sql` paths. |
| PushEvents.SqlFilesAppend | internal/rest/hooks/hook_manager.go:142-161 | The selection of a push is the selections of its commits, in commit order. |
| PushEvents.SqlPathsAppend | internal/rest/handlers/hook_handler.go:131-140 | The path filter keeps order, and duplicates are kept. |
| PushEvents.SqlPathsSound | internal/rest/handlers/hook_handler.go:131-140 | Every kept path ends in `.sql`, comes from the list, and the list does not grow. |
| PushEvents.SqlPathsComplete | internal/rest/handlers/hook_handler.go:131-140 | Every path of the list that ends in `.sql` is kept. |
| PushEvents.SqlFilesBound | internal/rest/handlers/hook_handler.go:131-140 | Every selected path ends in `.sql`, and there are at most as many as added plus modified entries. |
| PushEvents.RemovedIgnored | internal/rest/hooks/hook_manager.go:142-161 | The removed paths of the commits never affect the selection. |
| PushEvents.GatherOk | internal/rest/hooks/hook_manager.go:149-163 | The per-file results gather to success exactly when every file succeeds, and then to their concatenation in order. |
| PushEvents.GatherFirstError | internal/rest/handlers/hook_handler.go:109-113 | A gathered failure is the first failing file's error, and every file before it succeeded. |
| PushEvents.GatherStops | internal/rest/handlers/hook_handler.go:109-113 | Files after the first failure do not change the gathered outcome. |
| PushEvents.Requests | internal/rest/hooks/hook_manager.go:168-173 | Definition: one fetch request per file, with the repository's full name and the pushed commit. |

## Left out

- HMAC-SHA256 webhook signature checking: cryptography through library calls. Validity is a boolean oracle (`validator`, `signatureValid`).
- JSON decoding of the request body: a library call. It is the `Decoder` oracle, which returns the event or an error.
- GitHub file fetching, the per-file processor, the Postgres store and `BulkInsert`: network and database I/O. They are oracles returning a value or an error. `BulkInsert` is not declared on the repository interface in `internal/data/repository/repository.go`; it is modelled with the signature the managers call it with.
- The `ctx` parameters of the `migrations` package: they only pass cancellation to the store.
- Hooks.HandlePush: the request context `r.Context()` that the older webhook passes to the migration manager's `ProcessMigrations` (internal/rest/hooks/hook_manager.go:112) is dropped; the manager oracle takes only the batch, because the context only carries cancellation.
- WrittenBlocks: each written block has one body line. Bodies of several lines are covered block-wise by `ParserFacts.CollectJoined` and `ParserFacts.MigrationsFromHeaders`, not by a whole-file lemma.
- `CreatedAt: time.Now()`: a clock read. `MigrationProto` has no timestamp.
- `bufio.Scanner`'s token size limit and `scanner.Err`: the content is an in-memory string. Lines are split on `\n` with one trailing `\r` dropped, the way `bufio.ScanLines` does it, and the read error path is not modelled.
- Go's map iteration order: the filter's output order is unspecified. `Enumerates` states the result as a listing, each survivor exactly once, in no particular order.
- Pointer identity in `filterCompleted` (`&pending[idx]`, a slice of pointers): candidates are values, so "unmodified element of `pending`" is value equality.
- Error message text: the parser's errors are structured (`InvalidHeader(fault, line)`, `MissingHeader`, `HeaderWithoutSql(comment)`) rather than formatted strings. Wrapped errors keep their prefix and cause, and each prefix is the source's own text.
- Unicode: `strings.TrimSpace` and `strings.ToLower` are modelled on ASCII white space and letters. Text is bytes.
- `api.Migration.ID` is declared `int`, but `filterCompleted` compares it with `uint64` signatures. The id is modelled as the 64-bit signature.
- `HandlePush` in `internal/rest/handlers/hook_handler.go` is declared on `*HookManager`, but the struct of that file is `HookHandler`. It is modelled as a `HookHandler` operation.
- Empty pending batches: the code still asks the store (with no signatures) and calls `BulkInsert`; there is no short-circuit, and the model follows the code.
- The loops are modelled as loops. Each inner loop body is a separate method: `ScanLine`/`ScanHeader`/`ScanBody` for `ParseSQL`, `AppendSqlPaths` for `getSQLFiles`, `ProcessCommit`/`ProcessPaths`/`VisitPath` for `processSQLFiles`, and `ListValues` for the last loop of `filterCompleted`.
- The newer webhook's per-file failure carries no cause. The source formats only the file name, without `%w`, and the model does the same.
- The stale webhook variants `internal/rest/hookManager.go` and `internal/rest/hook_manager.go`, the read-path handlers, secrets and admin tokens, routing and server start-up are not part of this model.
