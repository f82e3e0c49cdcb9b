# A verified model of the database-playground backend

This project models, in Dafny, the core of the database-playground backend:
the query-result cache of its `dbrunner` service and the small rules around
it in the gateway and the database layer.

- **Execution and caching.**
  - A request carries an init script and a query.
  - The request is normalized, and its input hash (SHA-256 then ascii85) is probed in a two-tier Redis cache:
    - `dbrunner:sql-input:<input hash>` maps to an output hash;
    - `dbrunner:sql-output:<output hash>` maps to the output's JSON.
  - On a miss the query is run in a fresh in-memory SQLite database under a one-second deadline.
  - After a miss, the rows are written back to the cache, reusing an output that is already stored.
  - A handle is returned.
  - `RetrieveQuery` resolves a handle and streams the rows.
  - `AreQueriesOutputSame` compares two handles by their output hashes.
  - The older streaming `RunQuery` classifies errors by their text.
- **SQL formatting.** The comment and statement loop of `fmtsql`.
- **Gateway authorization.** The scope table, the per-request decision of the middleware, `parseScope`, and the 401/404/500 answers it writes.
- **Migrations.** Loading the migration files, and the `Migrate` loop that skips recorded migrations and runs and records the others in one transaction.
- **Pagination and codecs.**
  - Cursor limit clamping.
  - The id codecs: decimal text for int64 ids, and base64url of a JSON object for challenge ids.

Parts of Go's standard library that the core relies on are modelled concretely where their behaviour matters to a property:

- `encoding/ascii85` (in place on an array, with a decoder as its partner);
- `encoding/base64` with the URL alphabet;
- the string escaping of `encoding/json`;
- `strconv.FormatInt` and `ParseInt`;
- `strings` (`Split`, `TrimSpace`, `Contains`, `CutPrefix`);
- UTF-8 encoding;
- `errors.Is` and `errors.As` through `%w`;
- the header behaviour of net/http's `ResponseWriter`.

Some components are parameters instead:

- SHA-256, gob, JSON of `Output`;
- the SQL formatter and the cockroach parser;
- the SQLite engine;
- the JSON Web Key Set and token verification.

Where a property needs something of them, that assumption is an explicit `requires`:

- `NoCollision`: SHA-256 gives two different byte strings different digests;
- `GobDistinguishes`: gob encodes two result row sequences without error, and differently when they differ;
- `HashDetermines`: no other output has the same output hash, that is, SHA-256 over the gob encoding does not collide between two outputs;
- `JsonRoundTrip`: `json.Unmarshal` gives back the output `json.Marshal` encoded;
- `RunRoundTrips`: `JsonRoundTrip` holds for the output the runner produces for the request at hand;
- `UnmarshalErrorsArePlain`: `json.Unmarshal` fails only with its own errors, never with the cache's `ErrNotFound`;
- `FormatIdempotentOn`: the formatter maps its own output to itself.

State that the source changes in place is a class:

- the Redis client (`RedisStore.Redis`);
- the cache module (`Cacher.CacheModule`);
- the SHA-256 writer (`Structure.Hasher`);
- the result set (`Query.Rows`);
- the server stream (`Rpc.Stream`);
- the response writer (`NetHttp.ResponseWriter`);
- the migration database and transaction (`Migration.Database`, `Migration.Tx`).

Each method is proved against a pure step function. The properties are proved as lemmas about those functions.

Files, one module each:

| file | module | models |
|---|---|---|
| common.dfy | Common | `Option`, `Result`, byte and int64 types, sequence lemmas |
| goerrors.dfy | GoErrors | Go errors with `%w` wrapping, `errors.Is`, `errors.As` |
| gostrings.dfy | GoStrings | `strings` functions and UTF-8 |
| strconv.dfy | Strconv | `FormatInt`, `ParseInt` |
| ascii85.dfy | Ascii85 | `encoding/ascii85` |
| base64.dfy | Base64 | `base64.URLEncoding` |
| json.dfy | GoJson | JSON string escaping |
| http.dfy | NetHttp | `http.ResponseWriter` |
| structure.dfy | Structure | internal/dbrunner/structure.go |
| query.dfy | Query | internal/dbrunner/query.go |
| sqlformatter.dfy | SqlFormatter | internal/sqlformatter/sqlformatter.go |
| redis.dfy | RedisStore | the Redis commands `GETEX` and `SETEX` |
| cacher.dfy | Cacher | internal/services/dbrunner/cacher.go |
| rpc.dfy | Rpc | connect status codes and server streams |
| run_query.dfy | RunQueryHandler | internal/services/dbrunner/run_query.go |
| retrieve.dfy | Retrieval | internal/services/dbrunner/retrieve.go |
| comparison.dfy | Comparison | internal/services/dbrunner/comparsion.go |
| stream_runner.dfy | StreamRunner | internal/services/dbrunner/dbrunner.go |
| auth.dfy | Authorization | internal/services/gateway/auth.go |
| migration.dfy | Migration | internal/database/migration.go |
| cursor.dfy | Pagination | internal/database/cursor.go |
| converter.dfy | Converter | internal/services/gateway/converter/converter.go |
| gateway_converter.dfy | GatewayConverter | internal/services/gateway/converter.go |

Behaviour of the code worth noting:

- **NULL cells.** A NULL cell becomes the text `<nil>`, not an absent value (`Query.NullCell`, `Query.NoNilCells`).
- **Input hashing.** The input hash is taken over `Init` and `Query` concatenated with no separator, so inputs that split the same text differently collide (`Structure.InputHashBoundaryExample`).
- **Hash text.** The hash text is the whole 40-byte ascii85 buffer. Where `z` shortens the encoding, the buffer's tail is NUL bytes (`Structure.ZeroDigestText`).
- **Output shape.** An output has no separate header: each cell carries its column name. A query with no rows gives an empty result (`Query.EmptyResult`).
- **Retrieval stream.** Retrieval streams one message of column/value pairs per row, with no header message and no hash metadata.
- **Cache hits.** A cache hit answers with the output hash rather than the request's handle (see Findings).

## Model

| member | source | states |
|---|---|---|
| Structure.Normalize | internal/dbrunner/structure.go:15-26 | succeeds exactly when formatting the query succeeds; the result keeps `Init` untouched and carries the formatted query; a formatter error is passed through unchanged |
| Structure.NormalizeTwice | internal/dbrunner/structure.go:15-26 | when the formatter is idempotent on its own output, normalizing a normalized input gives the same input again |
| Structure.Text | internal/dbrunner/structure.go:41 | `string(output)` keeps every byte, in order, one character per byte |
| Structure.OutputHash | internal/dbrunner/structure.go:51-65 | fails exactly when the gob encoding of the result fails |
| Structure.Hasher.constructor | internal/dbrunner/structure.go:32 | a new SHA-256 state has absorbed nothing |
| Structure.Hasher.Write | internal/dbrunner/structure.go:34-35 | each write appends its bytes to what the hash absorbs |
| Structure.EncodeDigest | internal/dbrunner/structure.go:37-41 | the digest is ascii85-encoded into a buffer of `MaxEncodedLen(32)` bytes and the whole buffer becomes the hash text |
| Structure.HashInput | internal/dbrunner/structure.go:31-42 | the input hash is the ascii85 text of SHA-256 over the UTF-8 of `Init` followed by the UTF-8 of `Query` |
| Structure.HashOutput | internal/dbrunner/structure.go:51-65 | the output hash is the ascii85 text of SHA-256 over the gob encoding of the result, or the gob error |
| Structure.HashShape | internal/dbrunner/structure.go:39-41 | every hash text is 40 characters long, each in `!`..`u`, a `z`, or the NUL of unused buffer space |
| Structure.EncodeAlphabet | internal/dbrunner/structure.go:40 | every character ascii85 writes is `z` or lies in `!`..`u` |
| Structure.HashTextInjective | internal/dbrunner/structure.go:39-41 | two digests with the same hash text are the same digest |
| Structure.ZeroDigestText | internal/dbrunner/structure.go:39-41 | the all-zero digest becomes eight `z` followed by 32 NUL characters, since the unused tail of the buffer is kept |
| Structure.InputHashOfConcatenation | internal/dbrunner/structure.go:34-35 | inputs whose `Init + Query` concatenations agree hash alike, whatever the split |
| Structure.InputHashBoundaryExample | internal/dbrunner/structure.go:34-35 | `("ab", "c")` and `("a", "bc")` have the same input hash |
| Structure.InputHashDistinct | internal/dbrunner/structure.go:31-42 | inputs with different concatenations hash differently unless SHA-256 collides |
| Structure.OutputHashDistinct | internal/dbrunner/structure.go:51-65 | results with different gob encodings hash differently unless SHA-256 collides |
| Structure.AddingRowChangesHash | internal/dbrunner/structure.go:51-65 | appending a row changes the output hash, given gob tells the two results apart and SHA-256 does not collide |
| Structure.InputDigest | internal/dbrunner/structure.go:31-38 | the SHA-256 digest of the UTF-8 bytes of `Init` followed by those of `Query`, absorbed by the two writes |
| Structure.HashText | internal/dbrunner/structure.go:39-41 | the hash text of a digest: its ascii85 encoding into a zeroed `MaxEncodedLen(32)`-byte buffer, the whole buffer, unused tail included, turned into a string; `HashTextInjective` proves it loses nothing |
| Structure.InputHash | internal/dbrunner/structure.go:31-42 | the value of `Input.Hash`: `HashText` of `InputDigest`; `HashInput` proves the method computes it |
| Structure.Hasher.Sum | internal/dbrunner/structure.go:37 | the digest of exactly the bytes written so far, in order |
| Structure.NoCollision | internal/dbrunner/structure.go:31-42 | assumption: SHA-256 maps two different byte strings to different digests; required by `InputHashDistinct`, `OutputHashDistinct` and `AddingRowChangesHash` |
| Structure.GobDistinguishes | internal/dbrunner/structure.go:51-65 | assumption: gob encodes both row sequences without error, and encodes them differently when they differ; required by `AddingRowChangesHash` |
| Structure.FormatIdempotentOn | internal/dbrunner/structure.go:15-26 | assumption: `FormatSQL` maps its own successful output to itself; required by `NormalizeTwice` and the handle lemmas, since the code never promises it |
| Ascii85.MaxEncodedLen | internal/dbrunner/structure.go:39 | for whole groups of four bytes the buffer is five bytes per group |
| Ascii85.EncodeBound | internal/dbrunner/structure.go:39-40 | what `Encode` writes always fits the `MaxEncodedLen` buffer |
| Ascii85.Buffer | internal/dbrunner/structure.go:39-41 | the zero-initialised buffer after encoding has exactly `MaxEncodedLen` bytes |
| Ascii85.Block | internal/dbrunner/structure.go:40 | the five-byte block a group is written into starts with the group's encoding; after a `z` the remaining four bytes are zero |
| Ascii85.EncodeInto | internal/dbrunner/structure.go:40 | writes exactly the encoding at the front of `dst`, returns its length, and leaves the rest of the buffer as it was (zeroed in the whole-group case) |
| Ascii85.GroupShape | internal/dbrunner/structure.go:40 | a zero group of four becomes the single `z`; any other becomes five characters in `!`..`u` |
| Ascii85.DigestBufferLength | internal/dbrunner/structure.go:39-41 | a 32-byte digest gives a 40-byte buffer of which the encoding fills between 8 and 40 bytes |
| Ascii85.EncodeLength | internal/dbrunner/structure.go:40 | whole groups encode to between one and five characters per group |
| Ascii85.UnpackGroupValue | internal/dbrunner/structure.go:40 | a group is determined by its 32-bit big-endian value |
| Ascii85.Value85Base85 | internal/dbrunner/structure.go:40 | the five base-85 digits of a 32-bit value read back to that value |
| Ascii85.DecodeGroup | internal/dbrunner/structure.go:40 | one encoded group decodes to its four bytes and decoding continues after it |
| Ascii85.DecodeEncode | internal/dbrunner/structure.go:40 | decoding undoes encoding for whole groups, with anything after it left to decode |
| Ascii85.DecodeZeros | internal/dbrunner/structure.go:39-41 | the NUL padding of the buffer decodes to nothing |
| Ascii85.EncodeZeros | internal/dbrunner/structure.go:40 | `q` zero groups encode to `q` copies of `z` |
| Ascii85.BufferAfterEncode | internal/dbrunner/structure.go:39-41 | encoding into a zeroed buffer leaves exactly `Buffer(src)` |
| Ascii85.BufferInjective | internal/dbrunner/structure.go:39-41 | two inputs of the same whole-group length with the same buffer are equal |
| Ascii85.DecodeBuffer | internal/dbrunner/structure.go:39-41 | the whole buffer, padding included, decodes back to the input |
| Ascii85.GroupValue | internal/dbrunner/structure.go:40 | a group of one to four bytes read as a big-endian 32-bit value, missing bytes as zero: always below 2^32 |
| Ascii85.Encode | internal/dbrunner/structure.go:40 | the characters `ascii85.Encode` writes, group by group in input order, four bytes at a time and a short last group of `n` bytes as `n + 1` characters; `EncodeInto` writes exactly these and `DecodeEncode` reads them back |
| Ascii85.Unpack | internal/dbrunner/structure.go:40 | the four big-endian bytes of a 32-bit value; `UnpackGroupValue` proves it inverts `GroupValue` |
| Ascii85.Value85 | internal/dbrunner/structure.go:40 | the number five base-85 characters from `!` stand for; `Value85Base85` proves it inverts the encoder's digits |
| Ascii85.Decode | internal/dbrunner/structure.go:39-41 | the partner of `Encode`: reads `z` as four zero bytes and five characters as one group, stopping at the end or at a NUL of the buffer; `DecodeBuffer` proves the whole hash buffer decodes back to the digest |
| Query.WithTimeout | internal/dbrunner/query.go:17 | the child deadline is `now + d` or the parent's, whichever is earlier, and cancellation is inherited |
| Query.DeadlineIsOneSecond | internal/dbrunner/query.go:14-17 | the query runs under a deadline at most one second away, exactly one second when the caller set none |
| Query.Scan | internal/dbrunner/query.go:49 | scanning succeeds only on a fetched row and yields one value per column; a failing scan yields its error |
| Query.ProjectRow | internal/dbrunner/query.go:58-73 | a row pairs each column name, in order, with the printed value of its cell |
| Query.Project | internal/dbrunner/query.go:58-73 | builds that projection of one scanned row |
| Query.Collected | internal/dbrunner/query.go:42-76 | the result has one projected row per fetched row, in order, up to and not including the first row whose scan fails |
| Query.Rows.Next | internal/dbrunner/query.go:42 | advances over the fetched rows and reports whether one was left |
| Query.Rows.ScanRow | internal/dbrunner/query.go:49 | scans the row `Next` last moved onto |
| Query.CollectRows | internal/dbrunner/query.go:41-76 | the loop over `rows.Next()` builds exactly `Collected(cols, fetched)` |
| Query.ClassifyRowsError | internal/dbrunner/query.go:77-88 | a rows error is wrapped as "query timeout" exactly when it is a deadline error, as "sqlite error" exactly when it is not but is an SQLite error, and as "rows error" otherwise |
| Query.RowsErrorText | internal/dbrunner/query.go:77-85 | the message then starts with "query timeout: " or "sqlite error: " in those cases |
| Query.RunQuery | internal/dbrunner/query.go:16-91 | opening, init, query, columns, collection and rows-error check happen in the source's order, with its early returns |
| Query.RunErrors | internal/dbrunner/query.go:16-91 | every error is wrapped with one of the seven prefixes the function uses and its message starts with that prefix and ": " |
| Query.InitFailure | internal/dbrunner/query.go:25-28 | an init script that fails gives the "exec init: " error and nothing else |
| Query.NoNilCells | internal/dbrunner/query.go:59-64 | no cell of a result is ever nil, because the nil test is made on the pointer that was scanned into |
| Query.NullCell | internal/dbrunner/query.go:59-61 | an SQL NULL is printed as the text `<nil>` |
| Query.ScanFailureKeepsEarlierRows | internal/dbrunner/query.go:49-52 | a failing scan ends collection silently, keeping every row before it |
| Query.EmptyResult | internal/dbrunner/query.go:41-90 | a query with no rows and no rows error gives an empty result |
| Query.Sprint | internal/dbrunner/query.go:61 | `fmt.Sprint` of a scanned value: `<nil>` for NULL, the decimal text of an integer, text as it is, a byte slice as its decimal bytes in brackets |
| Query.IsProjection | internal/dbrunner/query.go:58-73 | a row has one cell per column, cell `i` holding column name `i` and the printed value `i`, never nil; `ProjectRow` and `Project` are proved to build it |
| Query.Run | internal/dbrunner/query.go:16-91 | the result of `RunQuery`: open, init, query, columns and rows errors in the source's order, each wrapped with its prefix, otherwise the `Collected` rows; `RunQuery` is proved to compute it and `RunErrors` states the prefixes |
| SqlFormatter.LineEnd | internal/sqlformatter/sqlformatter.go:14 | `.*` runs up to, not over, the next newline or the end |
| SqlFormatter.SpaceEnd | internal/sqlformatter/sqlformatter.go:14 | `\s*` takes the longest run of RE2 Perl spaces |
| SqlFormatter.CommentMatch | internal/sqlformatter/sqlformatter.go:14-24 | the regexp matches exactly when the text starts with `--`, and the match lies inside the text |
| SqlFormatter.CommentMatchShape | internal/sqlformatter/sqlformatter.go:14 | a match is `--`, the rest of that line, then the longest run of spaces after it |
| SqlFormatter.StripComments | internal/sqlformatter/sqlformatter.go:23-37 | the inner loop leaves a suffix of the statement that starts with no comment, and writes nothing when there was none |
| SqlFormatter.WriteComments | internal/sqlformatter/sqlformatter.go:23-37 | the comment loop appends the stripped comments, each trimmed and followed by at most two newlines, and reports whether it found any |
| SqlFormatter.SplitFirst | internal/sqlformatter/sqlformatter.go:39-45 | each cut either consumes the statement or leaves a strictly shorter rest |
| SqlFormatter.Emitted | internal/sqlformatter/sqlformatter.go:28-58 | a round's text starts with its comments and is empty or ends in a newline, and it is not empty when a comment was found |
| SqlFormatter.WriteStatements | internal/sqlformatter/sqlformatter.go:51-55 | appends each parsed statement pretty-printed and followed by ";" and a newline, and reports whether there was one |
| SqlFormatter.Round | internal/sqlformatter/sqlformatter.go:19-58 | a successful round of the outer loop consumes part of a non-empty statement |
| SqlFormatter.WriteRound | internal/sqlformatter/sqlformatter.go:19-58 | one round writes `Round`'s text and leaves its rest, or returns the parser's error |
| SqlFormatter.RoundEndsWithNewline | internal/sqlformatter/sqlformatter.go:56-58 | a round's text is empty or ends in a newline, and is not empty when a comment was found |
| SqlFormatter.RoundStartsWithComments | internal/sqlformatter/sqlformatter.go:28-34 | a round's text starts with the comments stripped from its statement |
| SqlFormatter.CommentKept | internal/sqlformatter/sqlformatter.go:29 | a leading comment survives, with its trailing space trimmed |
| SqlFormatter.Results | internal/sqlformatter/sqlformatter.go:18 | there is one formatted result per input statement, in order |
| SqlFormatter.Format | internal/sqlformatter/sqlformatter.go:16-63 | the output never ends in whitespace, and formatting fails exactly when a statement fails |
| SqlFormatter.FmtSql | internal/sqlformatter/sqlformatter.go:16-63 | the loop computes `Format`, returning the empty string with the error |
| SqlFormatter.FirstError | internal/sqlformatter/sqlformatter.go:47-50 | the joined results fail with `e` exactly when `e` is the first failure |
| SqlFormatter.FirstErrorWins | internal/sqlformatter/sqlformatter.go:47-50 | formatting fails with `e` exactly when `e` is the error of the first statement that fails |
| SqlFormatter.AllOk | internal/sqlformatter/sqlformatter.go:62 | a successful join means every statement succeeded |
| SqlFormatter.OkWhenAllOk | internal/sqlformatter/sqlformatter.go:62 | and every statement succeeding means the join succeeds |
| SqlFormatter.ParseErrorAborts | internal/sqlformatter/sqlformatter.go:47-50 | a parse error in the first round aborts the whole format with that error |
| SqlFormatter.ConcatErrorStays | internal/sqlformatter/sqlformatter.go:47-50 | once a prefix of the results has failed, the whole join fails the same way |
| SqlFormatter.SplitsWithin | internal/sqlformatter/sqlformatter.go:39-45 | assumption on the parser parameter: `SplitFirstStatement` returns a position no greater than the text's length, so `stmt[:pos]` and `stmt[pos:]` are in range; every member that cuts a statement requires it |
| SqlFormatter.CommentText | internal/sqlformatter/sqlformatter.go:29-34 | what is written for one comment match: the match with its trailing white space removed, then as many newlines as it held, at most two; `CommentKept` and `WriteComments` are proved about it |
| SqlFormatter.Pretties | internal/sqlformatter/sqlformatter.go:51-55 | each parsed statement pretty-printed and followed by ";" and a newline, in order; `WriteStatements` is proved to write it and `PrettiesAppend` proves it distributes over concatenation |
| SqlFormatter.Prepend | internal/sqlformatter/sqlformatter.go:23-58 | a round's text written before whatever the rest of the loop writes, an error staying that error, as the early `return "", err` discards what was written |
| SqlFormatter.Chunks | internal/sqlformatter/sqlformatter.go:18-58 | the middle loop over one input text: round after round until nothing is left, their texts in order, or the first parse error; `SplitFirst` gives the progress that ends it |
| SqlFormatter.Concat | internal/sqlformatter/sqlformatter.go:18-58 | the outer loop's results joined in order, or the first error; `FirstError`, `ConcatErrorStays` and `ConcatAppend` are proved about it |
| SqlFormatter.Body | internal/sqlformatter/sqlformatter.go:18-58 | what the builder holds after every input text, or the first error; `FmtSql` is proved to return it with trailing white space removed, and `BodyAppend` proves it splits over concatenated inputs |
| SqlFormatter.ConcatAppend | internal/sqlformatter/sqlformatter.go:18-58 | the join of two result lists is the first join followed by the second, unless the first already failed |
| SqlFormatter.BodyAppend | internal/sqlformatter/sqlformatter.go:18-58 | formatting two lists of texts one after the other is formatting their concatenation |
| SqlFormatter.PrettiesAppend | internal/sqlformatter/sqlformatter.go:51-55 | the printed statements of two lists are the printed statements of each, concatenated |
| SqlFormatter.StripKeepsFirst | internal/sqlformatter/sqlformatter.go:23-37 | when the text starts with a comment, the comments written start with that first comment, trimmed (proof step of `CommentKept`) |
| SqlFormatter.PrefixTransitive | internal/sqlformatter/sqlformatter.go:23-37 | a prefix of a prefix is a prefix (proof step of `CommentKept`) |
| Cacher.KeysApart | internal/services/dbrunner/cacher.go:12-19 | no input key carries the output prefix, so an input key never equals an output key |
| Cacher.KeysInjective | internal/services/dbrunner/cacher.go:35-58 | each tier's key determines the hash it was made from |
| Cacher.NilToNotFound | internal/services/dbrunner/cacher.go:38-40 | `redis.Nil` becomes `ErrNotFound`; every other result passes through |
| Cacher.LookupOutputHash | internal/services/dbrunner/cacher.go:34-51 | succeeds exactly when the server is up and the input key is stored, with the stored value; a missing key is `ErrNotFound`; an outage is returned as is |
| Cacher.OutputPresent | internal/services/dbrunner/cacher.go:57-62 | true exactly when the server is up and the output key is stored |
| Cacher.LookupOutput | internal/services/dbrunner/cacher.go:67-85 | an outage and a missing key fail as the source says; a stored value is unmarshalled |
| Cacher.ReadIsAddressed | internal/services/dbrunner/cacher.go:67-85 | in a content-addressed store, an output read under `h` hashes to `h` |
| Cacher.ReuseOrWrite | internal/services/dbrunner/cacher.go:109-120 | succeeds exactly when hashing succeeds and the server is up, with the output hash; a stored output is reused untouched; otherwise the marshalled output is written; a failure changes nothing |
| Cacher.WriteInput | internal/services/dbrunner/cacher.go:123-138 | succeeds exactly when normalization succeeds and the server is up, and then maps the hash of the normalized input to the output hash; a failure changes nothing |
| Cacher.WriteThenRead | internal/services/dbrunner/cacher.go:141-148 | after a successful write, the returned input hash leads to the output hash, and the output under it reads back and hashes to it; it is the output just written when that was new or the hash determines the output |
| Cacher.WriteKeepsContentAddressed | internal/services/dbrunner/cacher.go:88-106 | every write keeps the invariant that each stored output hashes to its own key |
| Cacher.WriteTouchesOnlyTwoKeys | internal/services/dbrunner/cacher.go:141-148 | a write removes no key and no expiry, and the only keys whose value or expiry can change are the output key and the input key of this call |
| Cacher.OutputFailureWritesNothing | internal/services/dbrunner/cacher.go:142-145 | when the output step fails, the input step never runs and the store is unchanged |
| Cacher.FailureKeepsInputTier | internal/services/dbrunner/cacher.go:141-148 | a failed write leaves every input-tier key as it was |
| Cacher.Deduplication | internal/services/dbrunner/cacher.go:109-120 | two inputs with the same output share one stored output: the second write reuses it and both input hashes lead to the same output hash |
| Cacher.CacheModule.constructor | internal/services/dbrunner/cacher.go:25-29 | the module holds the client it was given |
| Cacher.CacheModule.GetOutputHash | internal/services/dbrunner/cacher.go:34-51 | returns `LookupOutputHash` and refreshes the key's one-hour expiry |
| Cacher.CacheModule.HasOutput | internal/services/dbrunner/cacher.go:57-62 | returns `OutputPresent` and refreshes the expiry |
| Cacher.CacheModule.GetOutput | internal/services/dbrunner/cacher.go:67-85 | returns `LookupOutput` and refreshes the expiry |
| Cacher.CacheModule.WriteOutput | internal/services/dbrunner/cacher.go:88-106 | hashes, marshals and stores the output as `WriteOutputStep` says, keeping the store content-addressed |
| Cacher.CacheModule.ReuseOrWriteOutput | internal/services/dbrunner/cacher.go:109-120 | behaves as `ReuseOrWriteStep` |
| Cacher.CacheModule.WriteInput | internal/services/dbrunner/cacher.go:123-138 | behaves as `WriteInputStep` |
| Cacher.CacheModule.WriteToCache | internal/services/dbrunner/cacher.go:141-148 | runs the output step, then the input step only if that succeeded, as `WriteToCacheStep` |
| Cacher.CacheModule.WriteThenReadBack | internal/services/dbrunner/cacher.go:141-148 | writing, then looking up the returned hash and reading its output, gives back an output with the same hash |
| Cacher.InputKey | internal/services/dbrunner/cacher.go:12-19 | the key of the input tier: `dbrunner:sql-input:` followed by the hash; `KeysApart` and `KeysInjective` prove the tiers never share a key and the hash can be read back |
| Cacher.OutputKey | internal/services/dbrunner/cacher.go:12-19 | the key of the output tier: `dbrunner:sql-output:` followed by the hash |
| Cacher.JsonRoundTrip | internal/services/dbrunner/cacher.go:67-106 | assumption: `json.Unmarshal` reads back what `json.Marshal` wrote for this output; required wherever the output tier must stay content-addressed after a write |
| Cacher.Addresses | internal/services/dbrunner/cacher.go:67-106 | a JSON text decodes to an output whose hash is the given one |
| Cacher.ContentAddressed | internal/services/dbrunner/cacher.go:67-106 | the invariant of the output tier: every value under `dbrunner:sql-output:<h>` decodes to an output whose hash is `h`; `ReadIsAddressed` uses it and `WriteKeepsContentAddressed` preserves it |
| Cacher.UnmarshalErrorsArePlain | internal/services/dbrunner/cacher.go:79-82 | assumption: `json.Unmarshal` fails only with plain errors, never with the cache's `ErrNotFound`; required by `Retrieval.UndecodableOutputIsInternal` |
| Cacher.HashDetermines | internal/services/dbrunner/cacher.go:109-120 | assumption: no other output has this output's hash, SHA-256 over gob not colliding between two outputs; required by `CacheModule.WriteThenReadBack` to get the output itself back |
| Cacher.WriteOutputStep | internal/services/dbrunner/cacher.go:88-106 | `writeOutput`: a hash failure or an outage is returned and nothing is written; otherwise the JSON text is stored under the output key for an hour and the hash returned |
| Cacher.ReuseOrWriteStep | internal/services/dbrunner/cacher.go:109-120 | `reuseOrWriteOutput`: the output key is probed (refreshing its expiry), and written only when the probe fails; `ReuseOrWrite` proves it returns the hash on both paths and writes nothing when the output is present |
| Cacher.WriteInputStep | internal/services/dbrunner/cacher.go:123-138 | `writeInput`: the input is normalized again and hashed, and the output hash stored under that input key for an hour; normalization and outage errors are returned with nothing written |
| Cacher.WriteToCacheStep | internal/services/dbrunner/cacher.go:141-148 | `WriteToCache`: the output half first, the input half only when it succeeded, returning the input hash; `WriteTouchesOnlyTwoKeys` and `OutputFailureWritesNothing` are proved about it |
| Cacher.CacheModule.Valid | internal/services/dbrunner/cacher.go:25-29 | the module invariant: the server pairs every value with an expiry and the output tier is content-addressed; every method keeps it |
| Cacher.FirstWrite | internal/services/dbrunner/cacher.go:141-148 | a successful write leaves the server up with the output stored and the returned input hash mapped to the output's hash (proof step of `Deduplication`) |
| Cacher.SecondWrite | internal/services/dbrunner/cacher.go:109-148 | writing an output that is already stored: the output half changes no value, the stored output text stays as it was, the returned input hash maps to the output's hash, and an earlier handle mapped to it still is (proof step of `Deduplication`) |
| RedisStore.Outage | internal/services/dbrunner/cacher.go:41-43 | a connection failure is neither `redis.Nil` nor a wrapped error |
| RedisStore.Get | internal/services/dbrunner/cacher.go:37-43 | `GET` returns the stored value, `redis.Nil` for a missing key, and the outage error when the server is down |
| RedisStore.AfterGetEx | internal/services/dbrunner/cacher.go:37 | `GETEX` changes no value and resets a found key's expiry to one hour |
| RedisStore.SetReply | internal/services/dbrunner/cacher.go:100 | `SETEX` fails exactly when the server is down |
| RedisStore.AfterSetEx | internal/services/dbrunner/cacher.go:100 | `SETEX` stores the value with its expiry when the server is up, and changes nothing when it is down |
| RedisStore.CommandsKeepConsistent | internal/services/dbrunner/cacher.go:37 | both commands keep every stored key's expiry recorded; a value just set reads back; `GETEX` reads what `GET` reads |
| RedisStore.Redis.constructor | internal/services/dbrunner/cacher.go:25-29 | a new client sees an empty store that is up |
| RedisStore.Redis.GetEx | internal/services/dbrunner/cacher.go:37 | one call is `Get` plus the expiry refresh of `AfterGetEx` |
| RedisStore.Redis.SetEx | internal/services/dbrunner/cacher.go:100 | one call is `SetReply` plus `AfterSetEx` |
| RedisStore.Redis.Expire | internal/services/dbrunner/cacher.go:100 | a key whose hour has run out disappears with its expiry, and nothing else changes |
| RedisStore.Consistent | internal/services/dbrunner/cacher.go:100 | every stored key carries an expiry and only stored keys do; `CommandsKeepConsistent` proves both commands keep it |
| RunQueryHandler.ProbeCache | internal/services/dbrunner/run_query.go:26 | reads the input tier, then the output tier only if that succeeded, and reports a hit exactly as `Probe` does |
| RunQueryHandler.ProbeNeedsBothTiers | internal/services/dbrunner/run_query.go:26 | a hit needs the server up, the input key stored and the output it names stored; the hit is the stored output hash; probing changes no value |
| RunQueryHandler.RunAndCache | internal/services/dbrunner/run_query.go:36-73 | the miss path runs the query, classifies a failure, and otherwise writes the result back, as `Miss` |
| RunQueryHandler.RunFailureAnswers | internal/services/dbrunner/run_query.go:37-59 | a deadline is answered in band with the fixed timeout text, an SQLite error in band with its message, anything else as an internal error; the cache is untouched |
| RunQueryHandler.MissWritesBack | internal/services/dbrunner/run_query.go:61-73 | a successful run is written back and answered with the hash of the normalized input, or an internal error if the write fails |
| RunQueryHandler.InvalidQueryRejected | internal/services/dbrunner/run_query.go:19-23 | a query the formatter rejects is an invalid argument, before any cache read |
| RunQueryHandler.HitIgnoresEngine | internal/services/dbrunner/run_query.go:25-34 | on a hit the database is never consulted and no value in the cache changes |
| RunQueryHandler.RunQuery | internal/services/dbrunner/run_query.go:13-74 | the handler as written: `Serve` with a hit answered by the output hash |
| RunQueryHandler.HitHandleDoesNotResolve | internal/services/dbrunner/run_query.go:26-33 | as written, the handle a hit returns names an output hash; readers look it up as an input hash, so it is reported expired |
| RunQueryHandler.HitHandleExample | internal/services/dbrunner/run_query.go:26-33 | a concrete store where the handle of a hit cannot be retrieved |
| RunQueryHandler.RunQueryIntended | internal/services/dbrunner/run_query.go:13-74 | the handler with a hit answered by the input hash it probed |
| RunQueryHandler.IntendedHandleResolves | internal/services/dbrunner/run_query.go:26-73 | with that correction every handle the handler returns can be retrieved |
| RunQueryHandler.IntendedHandleIsProbedHash | internal/services/dbrunner/run_query.go:26-73 | with that correction both paths answer with the hash of the normalized input |
| RunQueryHandler.Probe | internal/services/dbrunner/run_query.go:25-34 | the hit test: the output hash stored under the input key, when the output it names is present too |
| RunQueryHandler.AfterProbe | internal/services/dbrunner/run_query.go:25-34 | the server after the probe: the input key's expiry refreshed, and the output key's too when the first read succeeded; no value changes (`HitIgnoresEngine`) |
| RunQueryHandler.RunFailure | internal/services/dbrunner/run_query.go:37-59 | a runner error as the client sees it: a deadline anywhere in the chain is the fixed timeout text in band, an SQLite error its own message in band, anything else an internal error |
| RunQueryHandler.Miss | internal/services/dbrunner/run_query.go:36-73 | the miss path: run the query, answer a failure by `RunFailure` with the cache untouched, otherwise write back and answer the id, or an internal error if the write fails |
| RunQueryHandler.Serve | internal/services/dbrunner/run_query.go:13-74 | the handler's answer and the server after it: an invalid argument when normalization fails, the hit's hash on a hit (the output hash as written, the probed input hash when corrected), otherwise `Miss` |
| RunQueryHandler.RunRoundTrips | internal/services/dbrunner/run_query.go:61-73 | assumption: JSON reads back the output the runner produced for this request; required by `RunQuery`, `RunQueryIntended` and `IntendedHandleResolves` to keep the output tier content-addressed |
| StreamRunner.RunQueryStream | internal/services/dbrunner/dbrunner.go:23-62 | a runner error is returned with the code its text selects and nothing is sent; otherwise one message per row is sent in order until a send fails, which is a data-loss error |
| StreamRunner.NoQ | internal/services/dbrunner/dbrunner.go:35 | a text without the letter `q` contains no word starting with `q` |
| StreamRunner.RowsTimeoutIsAborted | internal/services/dbrunner/dbrunner.go:30-31 | a timeout reported through the rows error is `Aborted` |
| StreamRunner.PhaseErrorsAreNotInternal | internal/services/dbrunner/dbrunner.go:30-38 | errors of the init, query, timeout and SQLite phases are never `Internal` |
| StreamRunner.InitErrorIsInvalidArgument | internal/services/dbrunner/dbrunner.go:34-37 | an init failure is an invalid argument |
| StreamRunner.QueryErrorIsInvalidArgument | internal/services/dbrunner/dbrunner.go:34-37 | a query failure is an invalid argument |
| StreamRunner.EarlyTimeoutsAreInvalidArgument | internal/services/dbrunner/dbrunner.go:30-37 | a deadline hit during init or query is reported as an invalid argument, since its text has no "query timeout" |
| StreamRunner.LegacyCode | internal/services/dbrunner/dbrunner.go:30-40 | the code chosen from the error text alone: `Aborted` when it contains "query timeout", otherwise `InvalidArgument` when it contains "exec init", "query" or "sqlite error", otherwise `Internal` |
| Rpc.Delivered | internal/services/dbrunner/dbrunner.go:43-58 | never more messages go through than are sent |
| Rpc.Stream.constructor | internal/services/dbrunner/dbrunner.go:23 | a new stream has delivered nothing |
| Rpc.Stream.Send | internal/services/dbrunner/dbrunner.go:44-57 | a send is counted; it delivers the message or fails with the transport's error and delivers nothing |
| Rpc.Stream.Accepts | internal/services/dbrunner/retrieve.go:43 | whether the next `Send` goes through: the stream has no failure point, or has not reached it |
| Retrieval.PairsOf | internal/services/dbrunner/retrieve.go:34-41 | one pair per cell, in order, with the column as key and the value kept nil when it was nil |
| Retrieval.Messages | internal/services/dbrunner/retrieve.go:33-48 | one message per row, in order |
| Retrieval.RowPairs | internal/services/dbrunner/retrieve.go:34-41 | the loop builds `PairsOf` |
| Retrieval.SendRows | internal/services/dbrunner/retrieve.go:33-50 | sends the messages in order until one fails, reporting the transport's error exactly when not all went through |
| Retrieval.RetrieveQuery | internal/services/dbrunner/retrieve.go:12-51 | answers as `Resolve`, streams the rows it found, and returns a failed send's error as is |
| Retrieval.EmptyIdRejected | internal/services/dbrunner/retrieve.go:13-15 | an empty id is an invalid argument and touches no key |
| Retrieval.IdExpiredWhenInputMissing | internal/services/dbrunner/retrieve.go:17-20 | an id with no input key is `NotFound` "id expired" |
| Retrieval.OutputExpiredWhenOutputMissing | internal/services/dbrunner/retrieve.go:25-28 | an id whose output is gone is `NotFound` "output expired" |
| Retrieval.UndecodableOutputIsInternal | internal/services/dbrunner/retrieve.go:25-31 | when the decoder's errors are plain, a stored output whose JSON does not decode is an internal error carrying the decoder's error, not "output expired" |
| Retrieval.OutageIsInternal | internal/services/dbrunner/retrieve.go:21-23 | a server outage is an internal error |
| Retrieval.ResolveOnlyRefreshes | internal/services/dbrunner/retrieve.go:17-31 | retrieval changes no value and only refreshes expiries of stored keys |
| Retrieval.RetrieveAfterWrite | internal/services/dbrunner/retrieve.go:12-51 | the id a successful write returns retrieves an output with the written output's hash, and the output itself when it was new or the hash determines it |
| Retrieval.Expired | internal/services/dbrunner/retrieve.go:17-31 | a cache error as the client sees it: `NotFound` with the given text when it is `ErrNotFound` or wraps it, otherwise `Internal` carrying the error |
| Retrieval.Resolve | internal/services/dbrunner/retrieve.go:12-31 | the handle resolution: an empty id is an invalid argument with no read; otherwise the input key, then the output it names, each failure answered by `Expired` with its own text; both reads refresh expiries |
| Comparison.AreQueriesOutputSame | internal/services/dbrunner/comparsion.go:11-43 | answers as `Compare` |
| Comparison.Verdict | internal/services/dbrunner/comparsion.go:22-42 | a verdict is returned exactly when both ids resolve, and is true exactly when they name the same output hash |
| Comparison.Reflexive | internal/services/dbrunner/comparsion.go:38-42 | an id that resolves has the same output as itself |
| Comparison.Symmetric | internal/services/dbrunner/comparsion.go:38-42 | the verdict does not depend on the order of the ids |
| Comparison.LeftFirst | internal/services/dbrunner/comparsion.go:15-25 | the left id is checked first: empty is an invalid argument and missing is "left_id expired" |
| Comparison.InputTierOnly | internal/services/dbrunner/comparsion.go:22-42 | the answer depends only on the two input keys and the server's state, never on the output tier |
| Comparison.SameAfterOutputExpired | internal/services/dbrunner/comparsion.go:22-42 | two ids naming the same output hash compare equal even after that output has expired |
| Comparison.LookupFailure | internal/services/dbrunner/comparsion.go:22-36 | a failed lookup as the client sees it: `NotFound` with the side's "expired" text for `ErrNotFound`, otherwise `Internal` |
| Comparison.Compare | internal/services/dbrunner/comparsion.go:11-43 | the answer of `AreQueriesOutputSame`: the empty-id checks left then right, the left lookup, the right lookup, then whether the two output hashes are equal |
| Comparison.Resolvable | internal/services/dbrunner/comparsion.go:22-28 | an id resolves when it is not empty, the server is up and its input key is stored; `Verdict` proves a verdict comes exactly when both ids resolve |
| Authorization.Wrap | internal/services/gateway/auth.go:52-64 | an operation missing from the scope table is denied outright, one listed with no scopes is passed through unwrapped, and any other is guarded by exactly its listed scopes |
| Authorization.TableGaps | internal/services/gateway/auth.go:22-31 | the table lists `GetHealthz` as open and `GetQuestionsIdSolution` as needing two scopes, and leaves `GetQuestionsIdAnswer` and `GetSchemasIdInitialSql` out, so they are denied |
| Authorization.UnlistedAndOpenOperations | internal/services/gateway/auth.go:52-64 | a request is answered 404 exactly when its operation is not in the table; an open operation always passes, with no token |
| Authorization.ParseScope | internal/services/gateway/auth.go:144-155 | a missing or non-string claim gives no scopes; a string is split at every single space, losing nothing, into pieces without spaces |
| Authorization.ParseScopeEdges | internal/services/gateway/auth.go:154 | the empty claim gives one empty scope and a doubled space gives an empty scope between its neighbours |
| Authorization.FirstMissing | internal/services/gateway/auth.go:91-96 | nothing is missing exactly when every required scope is held; otherwise the answer is the first required scope not held |
| Authorization.FirstMissingAt | internal/services/gateway/auth.go:91-96 | the scope the loop reports is the first one missing, in the table's order |
| Authorization.PassExactly | internal/services/gateway/auth.go:66-100 | a guarded request passes with a token exactly when the header is `Bearer ` and a token, the key set is fetched, the token verifies, and it holds every required scope |
| Authorization.GuardedNeverPassesWithoutToken | internal/services/gateway/auth.go:66-75 | a guarded operation never runs without a verified token, and a header without the `Bearer ` prefix, the empty one included, is rejected as malformed |
| Authorization.SolutionNeedsBothScopes | internal/services/gateway/auth.go:27 | a token with `read:question` but not `read:solution` is refused the solution with the missing scope named |
| Authorization.ContentTypeLostAsWritten | internal/services/gateway/auth.go:104-106 | as written, on every writer that has not yet answered, the handler's header map that goes out has no `Content-Type`, because it is set after `WriteHeader`, while the status does go out; `application/json` is lost (the header net/http sniffs in its place is not modelled) |
| Authorization.ContentTypeSentCorrected | internal/services/gateway/auth.go:104-106 | with the header set before the status, the JSON content type always goes out with that status |
| Authorization.SendErrorAsWritten | internal/services/gateway/auth.go:104-140 | the error answer as written: status first, then the header, then the marshalled message; the write's error is returned |
| Authorization.SendError | internal/services/gateway/auth.go:104-140 | the error answer with the header set first; the write's error is returned |
| Authorization.AnswerContentType | internal/services/gateway/auth.go:104-106 | an answer carries the JSON content type exactly when the header is set before the status; the status goes out either way |
| Authorization.Answer | internal/services/gateway/auth.go:104-140 | answers as `SendErrorAsWritten` for `StatusFirst` and as `SendError` for `HeaderFirst`; the write's error is returned |
| Authorization.Handler.constructor | internal/services/gateway/auth.go:52 | the wrapped handler answers each call by its reply function and has not been called yet |
| Authorization.Handler.Invoke | internal/services/gateway/auth.go:98-99 | a call is recorded with the token placed in its context, and answers with the handler's reply for that token |
| Authorization.Serve | internal/services/gateway/auth.go:52-100 | the middleware decides as `Authorize`; on a pass (with a token for a guarded operation, without one for an open operation, which is the handler itself) it calls the handler once, writes nothing of its own and returns the handler's response and error unchanged; on 404 it only writes the status and returns nil, nil; on a rejection the handler is not called, the answer is written by the helpers in the order given, `StatusFirst` being the middleware as written (status, then header, then message), and it returns no response and the error of the body write |
| Authorization.InsufficientScopeText | internal/services/gateway/auth.go:94 | the message naming the missing scope: "Insufficient scope (" then the scope, then " is required)" |
| Authorization.Missing | internal/services/gateway/auth.go:91-96 | `required[k]` is the first scope the token lacks: it is missing and every scope before it is held |
| Authorization.Authorize | internal/services/gateway/auth.go:52-100 | the per-request decision: 404 for an operation outside the table, a pass with no token for one needing no scope, otherwise the header, key-set, verification and scope checks in order, each with its own status and message, and a pass with the token |
| Authorization.SentAsWritten | internal/services/gateway/auth.go:104-121 | the writer after an answer as the helpers give it: status, then `Content-Type`, then the body |
| Authorization.SentCorrected | internal/services/gateway/auth.go:104-106 | the writer after the same answer with `Content-Type` set before the status |
| Authorization.Sent | internal/services/gateway/auth.go:104-140 | the writer after an answer given in the chosen order; `AnswerContentType` proves the content type goes out exactly in the corrected order |
| NetHttp.Fresh | internal/services/gateway/auth.go:56 | a writer no handler has touched has fixed no status and sent no header |
| NetHttp.AfterHeader | internal/services/gateway/auth.go:106 | `Header()` called after the status is fixed and before anything is sent takes a copy of the header map, which is what will go out; otherwise it only records that the map was handed out |
| NetHttp.AfterSet | internal/services/gateway/auth.go:106 | setting a header updates the live map, but once the status is fixed the header that will go out stays as it was |
| NetHttp.AfterWriteHeader | internal/services/gateway/auth.go:105 | only the first `WriteHeader` counts; it copies the header map if `Header()` was called before |
| NetHttp.AfterWrite | internal/services/gateway/auth.go:115 | `Write` fixes status 200 if none was fixed, sends the copied header or else the live map once, and takes the bytes unless the connection is closed |
| NetHttp.WriteReply | internal/services/gateway/auth.go:115-118 | `Write` fails exactly when the connection is closed |
| NetHttp.SetBeforeStatusIsSent | internal/services/gateway/auth.go:104-106 | a header set before the status is fixed goes out with that status |
| NetHttp.SetAfterStatusIsLost | internal/services/gateway/auth.go:104-106 | on every writer, a header set after the status is fixed never goes out: the header sent is the map as it was when the status was fixed |
| NetHttp.ResponseWriter.constructor | internal/services/gateway/auth.go:56 | a new writer is `Fresh` |
| NetHttp.ResponseWriter.Header | internal/services/gateway/auth.go:106 | returns the live map and behaves as `AfterHeader`, copying the map when called after `WriteHeader` |
| NetHttp.ResponseWriter.SetHeader | internal/services/gateway/auth.go:106 | behaves as `AfterSet`, taking the copy first when the status is already fixed |
| NetHttp.ResponseWriter.WriteHeader | internal/services/gateway/auth.go:105 | behaves as `AfterWriteHeader` |
| NetHttp.ResponseWriter.Write | internal/services/gateway/auth.go:115 | behaves as `AfterWrite` and returns `WriteReply` |
| NetHttp.Valid | internal/services/gateway/auth.go:104-106 | the writer invariant: a copy of the header exists, and a header has been sent, only once the status is fixed |
| NetHttp.CopiesOnHeader | internal/services/gateway/auth.go:106 | a `Header()` call now takes the copy that will go out: the status is fixed, no copy exists yet and nothing has been sent |
| NetHttp.Outgoing | internal/services/gateway/auth.go:115 | the handler's header map that goes out with the first body bytes: the copy taken when the status was fixed, or else the live map (headers the server adds itself are not modelled) |
| Migration.Names | internal/database/migration.go:29-31 | one name per migration file, in order |
| Migration.Init | internal/database/migration.go:20-46 | a directory that cannot be listed panics with "read migrations directory"; a file that cannot be read panics with its error; otherwise the available migrations are the regular entries, in directory order, with their contents |
| Migration.LoadFailureStays | internal/database/migration.go:37-40 | once reading a file has failed, later entries do not change the outcome |
| Migration.LoadKeepsRegularFiles | internal/database/migration.go:28-45 | a successful load keeps exactly the regular entries' names, in order, each with the contents its file holds |
| Migration.ReadNames | internal/database/migration.go:84-96 | the recorded names read are a prefix of the table: all of it, or the rows before the first failing scan, or none when the query failed |
| Migration.ReadRecorded | internal/database/migration.go:84-96 | the reading loop computes `ReadNames` |
| Migration.RunAll | internal/database/migration.go:102-121 | statements run in order; when none fails, all of them ran |
| Migration.RunAllStopsAtFailure | internal/database/migration.go:110-121 | the statements that ran are a prefix, each of them succeeded, and a failure stops at the first statement that failed |
| Migration.RunPair | internal/database/migration.go:110-121 | one migration runs its script, then records its name, each failure wrapped with its own text and stopping the run |
| Migration.Database.constructor | internal/database/migration.go:74-76 | the database holds the given table rows and committed scripts |
| Migration.Tx.constructor | internal/database/migration.go:62 | a new transaction is open and has run nothing |
| Migration.Tx.Exec | internal/database/migration.go:72-121 | a statement that succeeds joins the transaction's log; one that fails does not |
| Migration.Tx.Commit | internal/database/migration.go:124-128 | a successful commit adds the logged insertions and scripts to the database; a failed one changes nothing; either way the transaction is closed |
| Migration.Tx.Rollback | internal/database/migration.go:67-69 | closes the transaction and changes nothing in the database |
| Migration.RunMigration | internal/database/migration.go:108-121 | runs one migration's two statements as `RunAll(Steps(m))` |
| Migration.RunPending | internal/database/migration.go:102-122 | runs the plan of the pending migrations, skipping recorded ones, and stops at the first failure, as `RunAll` of that plan |
| Migration.PendingStep | internal/database/migration.go:102-106 | a recorded migration adds nothing to the plan, a pending one adds its two statements |
| Migration.PendingMembers | internal/database/migration.go:102-106 | a migration is pending exactly when it is available and its name was not read as recorded |
| Migration.NothingPending | internal/database/migration.go:102-106 | when every available migration is recorded, nothing runs |
| Migration.PendingAppend | internal/database/migration.go:102-106 | the pending migrations of a concatenation are the concatenation of each part's |
| Migration.PlanAppend | internal/database/migration.go:102-122 | the plan of a concatenation is the concatenation of the plans |
| Migration.PlanEffects | internal/database/migration.go:72-122 | a transaction that ran the table creation and the whole plan records exactly the pending names and ran exactly their scripts, in order |
| Migration.Migrate | internal/database/migration.go:54-131 | returns the first failure with its wrapping text; on success the table and the applied scripts gain exactly the pending names, in order; on failure the database is unchanged |
| Migration.RecordedAfterRun | internal/database/migration.go:102-121 | after a run every available migration is recorded, and only names that were not recorded before are added |
| Migration.SecondRunNothing | internal/database/migration.go:102-106 | when the recorded names are read in full, a second run after a successful first runs nothing |
| Migration.ScanFailureReruns | internal/database/migration.go:89-100 | a failing scan with no rows error ends reading early without an error, so a migration recorded after that row is run again |
| Migration.Load | internal/database/migration.go:20-46 | what `init` collects from the listing: every regular file with its content, in listing order, or the wrapped error of the first file that cannot be read; `LoadKeepsRegularFiles` and `LoadFailureStays` are proved about it |
| Migration.RegularNames | internal/database/migration.go:28-35 | the names of the regular entries, in listing order, directories skipped |
| Migration.RowsErr | internal/database/migration.go:97-100 | the error `rows.Err()` reports after reading: the query's own failure, or else the rows error |
| Migration.Pending | internal/database/migration.go:102-106 | the available migrations whose names were not read as recorded, in order; `PendingMembers` proves it has exactly those |
| Migration.Steps | internal/database/migration.go:110-121 | one migration's statements: its script, then the insertion of its name |
| Migration.Plan | internal/database/migration.go:102-122 | the statements of all pending migrations, migration by migration in order; `PlanAppend` and `PlanEffects` are proved about it |
| Migration.MigrateError | internal/database/migration.go:54-131 | the result of `Migrate`: the acquire, begin, create, read, statement and commit failures in the source's order, each with its wrapping text, or nil; `Migrate` is proved to return it |
| Migration.Inserted | internal/database/migration.go:117-121 | the names a statement log inserts into the table, in order; `PlanEffects` proves a full plan inserts exactly the pending names |
| Migration.Scripts | internal/database/migration.go:110-114 | the names whose scripts a statement log runs, in order |
| Converter.StringToID | internal/services/gateway/converter/converter.go:50-52 | the empty string is a syntax error, and any accepted text is an optional sign followed by decimal digits |
| Converter.Int64ToString | internal/services/gateway/converter/converter.go:34-36 | the decimal text of an id reads back to that id, has no plus sign, and starts with a minus exactly when the id is negative |
| Converter.PInt64ToPString | internal/services/gateway/converter/converter.go:38-44 | nil stays nil; an id becomes its decimal text, which reads back to it |
| Converter.TimeToTime | internal/services/gateway/converter/converter.go:46-48 | a time passes through unchanged |
| Converter.EncodeChallengeID | internal/services/gateway/converter/converter.go:59-66 | the challenge id is text that base64url-decodes to the JSON encoding of the pair |
| Converter.DecodeChallengeID | internal/services/gateway/converter/converter.go:68-81 | a base64 error is returned as it is; a result comes from unmarshalling exactly the decoded bytes |
| Converter.IndexOf | internal/services/gateway/converter/converter.go:54-57 | finds the first occurrence of a character, or the end |
| Converter.ReadMarshal | internal/services/gateway/converter/converter.go:54-60 | the JSON text of a pair, `{"q":…,"c":"…"}`, can be read back to the pair |
| Converter.MarshalInjective | internal/services/gateway/converter/converter.go:60 | two pairs with the same JSON encoding are equal |
| Converter.ChallengeRoundTrip | internal/services/gateway/converter/converter.go:59-81 | decoding an encoded challenge id gives the pair back, whenever JSON unmarshalling reads its own encoding back |
| Converter.BadBase64Rejected | internal/services/gateway/converter/converter.go:69-72 | a text whose length is not a multiple of four is rejected with the base64 error before JSON is tried |
| Converter.JsonErrorPassesThrough | internal/services/gateway/converter/converter.go:74-78 | a JSON error on well-formed base64 is returned as it is |
| Converter.MarshalText | internal/services/gateway/converter/converter.go:54-60 | the JSON text `json.Marshal` writes for the pair: `{"q":` then the decimal id, `,"c":` then the quoted challenge id, `}` |
| Converter.Marshal | internal/services/gateway/converter/converter.go:54-60 | the UTF-8 bytes of that text; `MarshalInjective` proves distinct pairs marshal differently |
| Converter.ReadMarshalText | internal/services/gateway/converter/converter.go:74-78 | the partner of `MarshalText`: reads the number up to the comma and the escaped id up to the closing quote and brace; `ReadMarshal` proves it gives every pair back |
| GatewayConverter.Int64ToString | internal/services/gateway/converter.go:30-32 | the text is the decimal digits of the id, after a minus sign when it is negative |
| GatewayConverter.PInt64ToPString | internal/services/gateway/converter.go:34-40 | nil stays nil; an id becomes its decimal text |
| GatewayConverter.TimeToPtrTime | internal/services/gateway/converter.go:42-44 | a time becomes a non-nil pointer to that same time |
| Pagination.CoalesceOrEmpty | internal/database/cursor.go:15 | a non-zero value is kept; zero is replaced by the default |
| Pagination.GetOffset | internal/database/cursor.go:10-12 | the offset is returned as set |
| Pagination.GetLimit | internal/database/cursor.go:14-16 | the limit never exceeds 100; an unset limit is 10; a limit from 1 to 100 is kept; a larger one is cut to 100; a negative one is passed through |
| Pagination.LimitIdempotent | internal/database/cursor.go:14-16 | taking the limit of a cursor whose limit was already taken changes nothing |
| Pagination.CursorExamples | internal/database/cursor.go:14-16 | an unset limit gives 10, a limit of 99 is kept, and 114514 gives 100 |
| GoErrors.WrapKeeps | internal/dbrunner/query.go:77-87 | wrapping with `%w` keeps what `errors.Is` and `errors.As` find, and the message starts with the prefix and ": " |
| GoErrors.Message | internal/dbrunner/query.go:77-87 | `err.Error()`: a wrapped error's text is its prefix, ": ", then the inner text; sentinels have their fixed texts |
| GoErrors.Is | internal/services/dbrunner/retrieve.go:17-31 | `errors.Is` for sentinels: the error, or an error it wraps, is the target |
| GoErrors.AsSqlite | internal/dbrunner/query.go:77-87 | `errors.As` into `*sqlite.Error`: some error in the wrap chain is an SQLite error |
| GoStrings.CutPrefix | internal/services/gateway/auth.go:72 | succeeds exactly when the text has the prefix, and the prefix followed by the rest is the text |
| GoStrings.TrimSpace | internal/sqlformatter/sqlformatter.go:20 | the result is a slice of the text with only white space before and after it, and it neither starts nor ends with white space: exactly the leading and trailing white space is removed |
| GoStrings.TrimLeftSpace | internal/sqlformatter/sqlformatter.go:20 | removes exactly the leading white space |
| GoStrings.TrimRightSpace | internal/sqlformatter/sqlformatter.go:29 | removes exactly the trailing white space |
| GoStrings.Count | internal/sqlformatter/sqlformatter.go:30 | counts occurrences; zero exactly when the character does not occur |
| GoStrings.Repeat | internal/sqlformatter/sqlformatter.go:34 | `n` copies of the character |
| GoStrings.Split | internal/services/gateway/auth.go:154 | one more piece than separators, none containing the separator |
| GoStrings.JoinSplit | internal/services/gateway/auth.go:154 | joining the pieces with the separator gives the text back |
| GoStrings.SplitWhole | internal/services/gateway/auth.go:154 | a text without the separator is one piece |
| GoStrings.SplitFirstPiece | internal/services/gateway/auth.go:154 | a text splits at its first separator, then goes on splitting the rest |
| GoStrings.SplitDoubled | internal/services/gateway/auth.go:154 | a doubled separator gives an empty piece |
| GoStrings.ContainsIffOccurs | internal/services/dbrunner/dbrunner.go:30-36 | `strings.Contains` holds exactly when the word occurs at some position |
| GoStrings.ContainsAfterPrefix | internal/services/dbrunner/dbrunner.go:30-36 | a prefix without the word's first letter does not change whether the word occurs |
| GoStrings.ContainsPrefix | internal/services/dbrunner/dbrunner.go:30-36 | a text contains its own prefix |
| GoStrings.Utf8Char | internal/dbrunner/structure.go:34-35 | `[]byte(s)` writes each character as one to four bytes |
| GoStrings.Utf8CharRoundTrip | internal/dbrunner/structure.go:34-35 | the lead byte gives the length of each encoded character, and the bytes decode back to it |
| GoStrings.Utf8Append | internal/dbrunner/structure.go:34-35 | the bytes of a concatenation are the concatenation of the bytes |
| GoStrings.Utf8Injective | internal/dbrunner/structure.go:34-35 | two strings with the same bytes are equal |
| GoStrings.IsSpace | internal/sqlformatter/sqlformatter.go:20 | `unicode.IsSpace`: the Latin-1 spaces and the Unicode `White_Space` characters |
| GoStrings.IsPerlSpace | internal/sqlformatter/sqlformatter.go:14 | the class `\s` of the comment regexp: tab, newline, form feed, carriage return and space only |
| GoStrings.HasPrefix | internal/services/gateway/auth.go:72 | the text starts with the prefix |
| GoStrings.OccursAt | internal/services/dbrunner/dbrunner.go:30-36 | the declarative reading of an occurrence: the word lies in the text at position `i` |
| GoStrings.Contains | internal/services/dbrunner/dbrunner.go:30-36 | `strings.Contains`, scanning from the left; `ContainsIffOccurs` proves it holds exactly when there is an occurrence |
| GoStrings.Join | internal/services/gateway/auth.go:154 | `strings.Join` with a one-character separator, the partner of `Split`; `JoinSplit` proves joining the pieces gives the text back |
| GoStrings.Utf8 | internal/dbrunner/structure.go:34-35 | `[]byte(s)`: the UTF-8 bytes of each character in order; `Utf8Append` and `Utf8Injective` are proved about it |
| Strconv.Digits | internal/services/gateway/converter/converter.go:35 | decimal digits only, with no leading zero unless the number is zero |
| Strconv.FormatInt | internal/services/gateway/converter/converter.go:35 | a minus sign exactly for negative numbers, then the digits of the magnitude |
| Strconv.ParseInt | internal/services/gateway/converter/converter.go:51 | the empty string is a syntax error |
| Strconv.ParseFormat | internal/services/gateway/converter/converter.go:34-52 | parsing the decimal text of an int64 gives it back |
| Strconv.ParseIntDecimal | internal/services/gateway/converter/converter.go:51 | every accepted text is an optional sign and decimal digits |
| Strconv.SignAndLeadingZeros | internal/services/gateway/converter/converter.go:51 | a plus sign, leading zeros and minus zero are accepted |
| Strconv.SyntaxErrors | internal/services/gateway/converter/converter.go:51 | a sign alone and trailing garbage are syntax errors |
| Strconv.OutOfRange | internal/services/gateway/converter/converter.go:51 | magnitudes beyond the int64 range are range errors, and the most negative int64 is accepted |
| Strconv.Step | internal/services/gateway/converter/converter.go:51 | one digit of the `ParseUint` loop: a non-digit is a syntax error, an accumulator at the cutoff or a result over 2^64 - 1 a range error |
| Strconv.Scan | internal/services/gateway/converter/converter.go:51 | the loop over the characters, stopping at the first error; `ScanOkDigits` proves a successful scan read only digits |
| Strconv.ParseUint | internal/services/gateway/converter/converter.go:51 | `ParseUint(s, 10, 64)`: the empty string is a syntax error, otherwise the scan from zero |
| Strconv.Decimal | internal/services/gateway/converter/converter.go:51 | an optional sign followed by at least one decimal digit; `ParseIntDecimal` proves every accepted text has this form |
| GoJson.Hex | internal/services/gateway/converter/converter.go:60 | each digit is written lower case and reads back to its value |
| GoJson.HexVal | internal/services/gateway/converter/converter.go:60 | a hexadecimal digit has a value below 16 |
| GoJson.EscapeChar | internal/services/gateway/converter/converter.go:60 | each character becomes text with no control character, no `<`, `>` or `&` and no U+2028 or U+2029; safe ASCII and other non-ASCII characters stay as they are; other ASCII starts a backslash escape |
| GoJson.Escape | internal/services/gateway/converter/converter.go:60 | a string's escaped text is clean throughout and no shorter than the string |
| GoJson.UnescapeChar | internal/services/gateway/converter/converter.go:60 | every escaped character reads back to itself |
| GoJson.UnescapeEscape | internal/services/gateway/converter/converter.go:60 | every string survives JSON string escaping |
| GoJson.EscapeInjective | internal/services/gateway/converter/converter.go:60 | two strings that escape alike are equal |
| GoJson.HtmlSafe | internal/services/gateway/converter/converter.go:60 | the ASCII characters JSON writes as themselves: printable, and not a quote, a backslash, `<`, `>` or `&` |
| GoJson.Quote | internal/services/gateway/converter/converter.go:60 | a marshalled string: the escaped text between double quotes |
| GoJson.ShortEscape | internal/services/gateway/converter/converter.go:60 | the character a two-character escape `\c` stands for, for the eight escapes JSON defines |
| GoJson.Unescape | internal/services/gateway/converter/converter.go:74-78 | the partner of the escaper: reads plain characters, short escapes and `\u` escapes of scalar values back, refusing anything else; `UnescapeEscape` proves it inverts `Escape` |
| Base64.Sym | internal/services/gateway/converter/converter.go:65 | every symbol of the URL-safe alphabet differs from the pad and from newlines |
| Base64.Val | internal/services/gateway/converter/converter.go:69 | the decoder maps each symbol back to its six-bit value |
| Base64.ValSym | internal/services/gateway/converter/converter.go:65-69 | decoding a symbol gives its value back |
| Base64.StripNewlines | internal/services/gateway/converter/converter.go:69 | the decoder drops every carriage return and newline, and changes a text without them not at all |
| Base64.DecodeGroups | internal/services/gateway/converter/converter.go:69 | every error is the corrupt-input error |
| Base64.Decode | internal/services/gateway/converter/converter.go:69-72 | every error is the corrupt-input error |
| Base64.EncodeHasNoNewlines | internal/services/gateway/converter/converter.go:65 | the encoding is one line |
| Base64.EncodedLength | internal/services/gateway/converter/converter.go:65 | three bytes, or a last one or two, take four symbols |
| Base64.DecodeEncode | internal/services/gateway/converter/converter.go:65-69 | decoding undoes encoding for every byte string |
| Base64.UnpaddedRejected | internal/services/gateway/converter/converter.go:69-72 | a text whose length, without newlines, is not a multiple of four is rejected |
| Base64.MisplacedPadRejected | internal/services/gateway/converter/converter.go:69-72 | padding in the first two places of a group, or a group after a padded one, is rejected |
| Base64.EncodeGroup | internal/services/gateway/converter/converter.go:65 | three bytes as four symbols of the URL-safe alphabet, six bits each, most significant first |
| Base64.Encode | internal/services/gateway/converter/converter.go:65 | `URLEncoding.EncodeToString`: groups of three, a last one or two bytes padded with `=` to four symbols; `DecodeEncode` proves decoding gives the bytes back |
| Query.Rows.constructor | internal/dbrunner/query.go:30-34 | a new result set stands before its first row |
| Ascii85.EncodeGroup | internal/dbrunner/structure.go:40 | one group of one to four bytes becomes one to five characters |
| Ascii85.Base85 | internal/dbrunner/structure.go:40 | `k` base-85 digits, each written in `!`..`u` |
| Ascii85.PutGroup | internal/dbrunner/structure.go:40 | a group's five-byte block is written at `p`, nothing else changes, and the group's encoded length is returned |

## Left out

- Logging: every `slog` call is left out, since none of them affects a result.
- Panics: `init` returns the error it would panic with (`Migration.Init`'s `panicked`). The middleware constructor's URL joining and JWKS cache registration are left out: the key set the cache returns is a parameter.
- Foreign components: SHA-256, gob, JSON of `Output`, `FormatSQL`, the cockroach parser (`SplitFirstStatement`, `Parse`, `Pretty`), the SQLite engine and JWT verification are function parameters. Properties that need them to behave state that as an explicit assumption in `requires`.
- Deadline enforcement: the one-second deadline is computed, but stopping a statement in flight is up to the engine parameter.
- Unmodelled `fmt.Sprint` formatting: floating point, booleans and times are carried as opaque text, because their formatting is not modelled.
- Redis clock: the Redis time-to-live clock is not modelled. A key's expiry is recorded as the seconds last set, and eviction is the explicit step `RedisStore.Redis.Expire`.
- Redis failures: an outage fails every command alike. The second error check after `result.Result()` (internal/services/dbrunner/cacher.go:45-48) cannot fire once `Err()` is nil, so no failure is modelled there.
- Concurrency: writers racing on the same keys are not modelled, since the code takes no locks.
- Stream transport: a server stream fails from a given send onwards, a parameter of `Rpc.Stream`. The wire encoding of messages is not modelled.
- Migration files: the file system (`ReadDir`, `ReadFile`, `filepath.Join`) is a listing and a read function given as parameters.
- Postgres calls: acquiring, beginning, querying, executing and committing are described by a `Faults` value. Releasing the connection has no modelled effect.
- Migration.ReadNames: a failing `Scan` and the rows error are independent faults here. In pgx v5 a `Scan` error is also recorded in `rows.Err()`, which would turn the silent early stop of `Migration.ScanFailureReruns` into a "scan ran migrations" error.
- `SeedTestOnly` (internal/database/migration.go:137-165): it only performs Postgres I/O, so it is not part of this model.
- `ListQuestions` is not part of this model: it is database I/O. It applies the default limit of 10 without the cap of 100 that `Pagination.GetLimit` applies.
- Gateway handlers: internal/services/gateway/impl.go is not part of this model, including its uses of the challenge-id codec.
- Converter.DecodeChallengeID: `json.Unmarshal` into the struct is a parameter. What is proved is that JSON text in exactly the form `json.Marshal` writes can be read back (`Converter.ReadMarshal`); a general JSON parser is left out.
- GoJson.EscapeChar: the short escapes `\b` and `\f` are those written by Go 1.22 and later; older releases write `\u0008` and `\u000c`.
- Converter.EncodeChallengeID: `json.Marshal` cannot fail for this struct, so the `"<failed>"` branch is unreachable and is not modelled.
- Base64.Decode: the byte offset that Go's `CorruptInputError` carries is not modelled. Every decoding error is the single corrupt-input error.
- Structure.Normalize: the empty `Input` returned beside an error is not modelled, because no caller reads it.
- Go strings: bytes are modelled as Dafny strings, which are sequences of Unicode scalar values, so `[]byte(s)` (`GoStrings.Utf8`) never sees invalid UTF-8, and `strings.Contains` and `TrimSpace` work on characters rather than bytes. The strings come from connect requests, whose proto3 string fields reject invalid UTF-8.
- Cacher.LookupOutput: the `unmarshal` parameter may return any error; properties that need its errors to be plain `json` errors, never `ErrNotFound`, assume `UnmarshalErrorsArePlain`.
- Go pointers: nil and non-nil pointers are `Option` values, so aliasing through them is not modelled.
- HTTP details: the `Authorization` header is given as its value, `""` when missing. The header that goes out (`NetHttp.Outgoing`, a writer's `sent`) is the handler's header map only: the headers net/http adds itself when the handler set none (a `Content-Type` sniffed from the body, which is `text/plain; charset=utf-8` for these JSON answers, `Date`, and `Content-Length` for a short body) are not modelled, so `Authorization.ContentTypeLostAsWritten` shows that `application/json` is not sent, not that no `Content-Type` reaches the client. The request context is reduced to the token handed to the wrapped handler. Response bodies come from a `marshal` parameter.
- Authorization.Handler: the wrapped handler is its reply function, recorded calls and the outcome it returns; what it writes to the response writer itself is not modelled, so `Authorization.Serve` states on a pass only that the middleware writes nothing of its own.
- Authorization.ContentTypeLostAsWritten: states that the handler's map sent has no `Content-Type`; on the wire the server's sniffed `text/plain; charset=utf-8` takes its place, which is not modelled.
- NetHttp.Outgoing: gives the handler's header map only, without the `Date`, `Content-Length` and sniffed `Content-Type` headers the server adds.
- Two services: the two `RunQuery` implementations (internal/services/dbrunner/dbrunner.go and internal/services/dbrunner/run_query.go) belong to different service types and are modelled separately (`StreamRunner`, `RunQueryHandler`).

## Findings

| source | as written | input that shows it | evidently intended | confidence | as-written member | corrected member |
|---|---|---|---|---|---|---|
| internal/services/dbrunner/run_query.go:26-33 | a cache hit answers with the output hash it read from the input tier | the same request twice in a row, with `FormatSQL` idempotent on its own output (the key written is the hash of the request normalized twice, the key probed the hash of it normalized once): the first (a miss) answers with input hash `H`; the second (a hit) answers with output hash `O`; `RetrieveQuery(O)` then looks up `dbrunner:sql-input:O`, which is not stored, and answers "id expired" | answer a hit with the input hash that was probed, which is what the miss path returns and what `RetrieveQuery` and `AreQueriesOutputSame` resolve | high; not executed | RunQueryHandler.HitHandleDoesNotResolve | RunQueryHandler.IntendedHandleResolves |
| internal/services/gateway/auth.go:104-106 | `sendUnauthorizedError` and `sendServerError` call `WriteHeader` before setting `Content-Type`; net/http sends the header map as it was when the status was fixed | any request the middleware rejects, for example one without an `Authorization` header: the 401 goes out without `Content-Type: application/json` (net/http then sniffs `text/plain; charset=utf-8` from the body) | set the header first, then the status | high; not executed | Authorization.ContentTypeLostAsWritten | Authorization.ContentTypeSentCorrected |
