# face-rec-system core, modelled in Dafny

The service registers people by face and later recognises them. `POST /register`
takes an image and an email. A Python extractor turns the image into a biometric
vector. The vector and the email are inserted into the Postgres `users` table.
Every stored (user_id, embedding) pair is then exported into the gallery file
`gallery_embeddings.npy`. `POST /match` stages an image and asks a Python matcher
for the id of the nearest gallery entry. It then looks that id up in the store and
answers with the user's id and email. At startup the server exports the gallery
once before it serves anything.

The model covers four pieces:

- **The two handlers** (`server.dfy`, module `Server`). Each is a method of class
  `Api`. It runs over the store (`Db.rows`), the gallery file (`FileSystem.gallery`)
  and the staged uploads (`FileSystem.tempImages`). Each step of the Go code that
  checks an error is a fault point: a request passes in the set of steps that fail.
  The Python processes are `ProcessResult` inputs, and JSON decoding is an
  uninterpreted function. A ghost out-parameter `calls` records which external
  collaborators a request reached, and in what order.
- **The identity store and the gallery export** (`storage.dfy`, `array_literal.dfy`,
  `files.dfy`). A row keeps the array literal `CreateUser` inserted. Reading it back
  goes through the driver's uninterpreted `scanArray`. The export is a full rebuild:
  on success the gallery becomes exactly the scan of every row, in whatever order the
  query delivered them.
- **The matcher-output classifier** (`match_output.dfy`, `strconv.dfy`). It implements
  Go's `strings.TrimSpace` with `unicode.IsSpace`, and `strconv.Atoi` in base 10 for a
  64-bit `int`. Inputs of 1 to 18 characters (bytes, for ASCII input) take Atoi's fast path. Longer or empty inputs go
  through `ParseInt` and the left-to-right scan of `ParseUint`. That scan reports a range
  error as soon as the digits read so far pass the uint64 maximum, before it reaches a
  later bad byte. `Strconv.Atoi` is proved equal to a reference definition that does
  not scan.
- **Largest-face selection** (`biometric_id.dfy`). This is the loop of
  `generate_biometric_id.py`. The face encoder and `json.dumps` are uninterpreted.

Invariants and assumptions:

- `Api.Valid()` is the main invariant. It says every gallery entry is the projection
  of some stored row, so the gallery never names a user the store lacks. Startup
  establishes it and both handlers keep it.
- Ids are assumed fresh. The model assigns ids from a counter (`Db.nextId`), and
  `Db.Valid()` keeps them strictly increasing.
- Float64 values are `real`. `%f` formatting (`Db.formatFloat`) and `pq.Array`
  decoding (`Db.scanArray`) are uninterpreted.

In these places the code behaves in ways a reader might not expect. The model follows the code:

- A missing `image` part is answered 500, not as a client error.
- The extractor runs before the email is checked.
- A matcher id that is missing from the store is a 500 "Error fetching user details",
  the same as any other lookup error.
- Nothing checks that the extracted vector is non-empty. An extractor output of `[]`
  is stored.
- `save_embeddings.py` writes the gallery in place. So a failed conversion may leave
  the gallery corrupt (`ConverterRun.FailedDuringWrite`) rather than untouched.

## Model

| member | source | states |
|---|---|---|
| `ArrayLiteral.FormatArrayLiteral` | internal/storage/storage.go:59-63 | the literal is `{`, the formatted elements joined by `,`, then `}`: one field per element, in input order; the empty vector gives `{}` |
| `ArrayLiteral.SplitJoin` | internal/storage/storage.go:63 | cutting a comma-joined list at its commas gives back the fields, when no field holds a comma |
| `ArrayLiteral.LiteralRoundTrip` | internal/storage/storage.go:59-63 | reading a literal back gives exactly its fields, in order, when every field is non-empty and comma-free (as `%f` output is) |
| `Storage.Db.CreateUser` | internal/storage/storage.go:56-76 | success exactly when prepare and exec succeed; then exactly one row is appended, holding the vector's literal and the unchanged email under a fresh id; on either error the error is returned and the store is unchanged |
| `Storage.ScanRowsSpec` | internal/storage/storage.go:87-93 | scanning yields one entry per row in delivery order, each the row's id and decoded embedding with no email; it fails exactly when some row fails to scan |
| `Storage.Db.GetAllEmbeddings` | internal/storage/storage.go:79-96 | success exactly when the query runs, the iteration ends without an error and every row scans; the result is then the scan of the delivered rows; a stream that fails is an error even when it fails after its last row; each error names its cause: a query error exactly when the query fails, a scan error exactly when a delivered row fails to scan, and an iteration error exactly when the delivered rows all scan but the stream fails; on any error the partial result is dropped |
| `Storage.FetchAsWritten` | internal/storage/storage.go:87-95 | the code as written: a success may hold only the scan of a prefix of the rows |
| `Storage.TruncatedFetchLooksComplete` | internal/storage/storage.go:87-95 | a one-row store whose iteration breaks at once is reported as an empty, successful result |
| `Storage.Db.GetUserByID` | internal/storage/storage.go:99-113 | NotFound exactly when the query runs and no row has the id; every other failure is the generic retrieval error; success exactly when the query runs, some row has the id and that row's embedding decodes; a success is that row's id, decoded embedding and email |
| `Storage.Db.ExportEmbeddings` | internal/storage/storage.go:117-154 | success exactly when every step succeeds; the gallery is then the `GetAllEmbeddings` result; the error is a fetch error exactly when `GetAllEmbeddings` fails, and each later failing step (marshal, working directory, create, write, converter) gives its own error, the converter's carrying its output; a fetch error returns before any temporary file exists and leaves the gallery alone; the temporary JSON file is gone on every exit; a converter failure carries the converter's output |
| `Storage.ScannedRowsMatchStore` | internal/storage/storage.go:81-95 | whatever order the rows arrive in, the scan succeeds exactly when every stored row scans, and it yields exactly the projections of the stored rows |
| `Storage.RepeatedExportSamePairs` | internal/storage/storage.go:81 | two exports of an unchanged store in two delivery orders both succeed or both fail the scan, and they hand the converter the same set of (user_id, embedding) pairs |
| `Storage.ExportedGalleryMatchesStore` | internal/storage/storage.go:117-123 | after a successful export every gallery entry is the projection of a stored row and every stored row is in the gallery, without an email |
| `Storage.GalleryIdsInStore` | internal/storage/storage.go:117-123 | a consistent gallery names only ids that are in the store |
| `Storage.GalleryIdResolves` | internal/storage/storage.go:99-112 | an id taken from a consistent gallery always resolves, so GetUserByID cannot answer NotFound for it |
| `Files.FileSystem.CreateTemp` | internal/server/handlers.go:57-62 | a failure creates nothing; otherwise one file is added to the directory, under a name not in use |
| `Files.FileSystem.Remove` | internal/server/handlers.go:63 | the named file leaves its directory and nothing else changes, as a successful `os.Remove` does |
| `MatchOutput.TrimSpace` | internal/server/handlers.go:182 | the result is the input with only white space removed at both ends, and it neither starts nor ends with white space |
| `Strconv.Atoi` | internal/server/handlers.go:189 | an optional sign followed by one or more digits parses to its signed value when that value is inside the int64 range, and is a range error outside it; any other input is a syntax error, except that it is a range error when some all-digit prefix after the sign is above the uint64 maximum; a success is always inside the int64 range |
| `Strconv.ScanUintMeaning` | internal/server/handlers.go:189 | `ParseUint`'s scan succeeds only on an all-digit string, with its value, which is at most the uint64 maximum; it gives a range error exactly when some all-digit prefix passes that maximum; a syntax error means a non-digit byte |
| `Strconv.ParseUintMeaning` | internal/server/handlers.go:189 | `ParseUint` succeeds exactly on a non-empty digit string within the uint64 range, with its value; it gives a range error exactly when some all-digit prefix passes the maximum |
| `Strconv.ParseIntMeaning` | internal/server/handlers.go:189 | `ParseInt` meets the same reference definition as `Atoi` |
| `Strconv.FastPathAgrees` | internal/server/handlers.go:189 | for inputs of 1 to 18 characters (bytes, for ASCII input), Atoi's fast path, which has no range check, answers exactly as `ParseInt` does |
| `Strconv.LeadingNinesOutOfRange` | internal/server/handlers.go:189 | any input that starts with twenty `9`s is a range error, whatever follows, a non-digit included |
| `Strconv.AtoiFormatInt` | internal/server/handlers.go:189 | every int64 written in decimal parses back to itself |
| `MatchOutput.ClassifyMatcherOutput` | internal/server/handlers.go:182-194 | no match exactly when the trimmed output is empty or `None`; otherwise the id is the `Atoi` value of the trimmed output, or the `Atoi` error |
| `MatchOutput.TrimAround` | internal/server/handlers.go:182 | white space added around the output is trimmed away |
| `MatchOutput.SpaceAroundOutput` | internal/server/handlers.go:182-194 | white space around the output never changes its classification |
| `MatchOutput.TrimPrintedLine` | internal/server/handlers.go:182 | a decimal integer followed by a newline trims back to the integer |
| `MatchOutput.PrintedMatcherOutput` | internal/server/handlers.go:182-194 | the matcher's printed `str(user_id)` line reads back as exactly that id |
| `MatchOutput.EmptyMatcherOutput` | internal/server/handlers.go:182-187 | the matcher's printed empty line reads as no match |
| `Server.StagingFailure` | internal/server/handlers.go:27-61 | each failure before the upload exists is a 500; a missing image part is "Error retrieving the image file" |
| `Server.Api.Stage` | internal/server/handlers.go:27-69 | the upload exists and is written exactly when every staging step succeeds; it gets a name not in use; on a failure no upload is left behind and the answer is a 500; a missing image part is "Error retrieving the image file", and a failed write "Error writing to temporary file" |
| `Server.Api.RegisterHandler` | internal/server/handlers.go:26-123 | extractor first, then insert, then export, in that order; a failed extractor and undecodable output are 500s with their messages; a form-parse failure after extraction is a 400 "Error parsing form data"; an empty email gives 400 after extraction, with no insert and no export; the export runs only after a successful insert and close; an export failure is a 500 with the row kept; a 200 carries the vector that was inserted, and the gallery then holds the new user; the upload's removal runs on every exit; the invariant is kept |
| `Server.Api.InsertAndExport` | internal/server/handlers.go:96-122 | the export runs exactly when the insert and the close succeed; the store gains exactly the new row when the insert succeeds; an insert failure is a 500 with the store unchanged; a 200 carries the inserted vector, with the gallery rebuilt from the store and holding the new user; the invariant is kept |
| `Server.Api.MatchHandler` | internal/server/handlers.go:125-219 | staging failures are 500s with no collaborator reached; a failed matcher is a 500; otherwise the answer is `MatchResponse` of the matcher's output, and the store is consulted only for an integer id; the store and gallery do not change, and the upload's removal runs |
| `Server.Api.AnswerMatch` | internal/server/handlers.go:173-209 | the matcher is called on the staged upload; a failed matcher is a 500 "Error executing Python script" with nothing else reached; otherwise the answer is `MatchResponse` of its output, and the store is consulted exactly when the output classifies as an integer id, with that id |
| `Server.Api.DiscardUpload` | internal/server/handlers.go:162 | the staged upload leaves its directory; the store, the gallery and the other directory are untouched, and the invariant is kept |
| `Server.MatchResponse` | internal/server/handlers.go:182-209 | 404 exactly when the trimmed output is empty or `None`; a non-integer output is a 500; an integer id is looked up, and any lookup error is a 500 "Error fetching user details"; a 200 carries the id and email of a stored row |
| `Server.GalleryConsistentGrows` | internal/server/handlers.go:96-100 | an insert keeps a consistent gallery consistent |
| `Server.ExportedUserInGallery` | internal/server/handlers.go:96-112 | after an insert and a successful export, the gallery holds the new row's entry |
| `Server.AllRowsScan` | internal/server/handlers.go:96-108 | if the old rows and the new row all scan, the export's scan succeeds |
| `Server.NewestRowFound` | internal/storage/storage.go:99-112 | GetUserByID on the newest row's id returns that row, with its email |
| `Server.Startup` | main.go:17-26 | the server starts exactly when the startup export succeeds, and it then starts with a gallery that is the projection of the store |
| `Server.RegisterCleanly` | internal/server/handlers.go:26-123 | a registration in which every step succeeds answers 200 with the vector and appends exactly the new row |
| `Server.MatchNewest` | internal/server/handlers.go:125-209 | matching an image the matcher attributes to the newest row answers 200 with that row's id and email |
| `Server.RegisterThenMatch` | internal/server/handlers.go:125-219 | registering a@x.com and then matching an image the matcher attributes to the new id answers with that id and a@x.com |
| `BiometricId.GenerateBiometricId` | generate_biometric_id.py:12-31 | None when there are no faces, and exactly when no face has positive area; otherwise the JSON of the encoding of the first face with the largest area, which is at least every other face's area |
| `BiometricId.LargestFaceUnique` | generate_biometric_id.py:17-25 | at most one face meets that description |
| `BiometricId.ScriptOutput` | generate_biometric_id.py:39-42 | nothing is printed for None; otherwise the JSON and a newline |

## Findings

| source | as written | input that shows it | evidently intended | confidence | as-written member | corrected member |
|---|---|---|---|---|---|---|
| internal/storage/storage.go:87-95 | `GetAllEmbeddings` stops when `rows.Next()` returns false and never calls `rows.Err()`. An iteration that ends on an error therefore returns the rows read so far, with a nil error | a store of one row whose result stream fails before its first row. `GetAllEmbeddings` returns an empty list and no error, and the export writes a gallery without that user. A registration can then answer 200 while the new user is not in the gallery (`Storage.TruncatedFetchLooksComplete`) | after the loop, return `rows.Err()` when it is non-nil, so the export fails instead | medium (needs an error in the middle of the result stream); not executed | `Storage.FetchAsWritten` | `Storage.Db.GetAllEmbeddings` |

The rest of the model uses the corrected `Storage.Db.GetAllEmbeddings`.

## Left out

- HTTP routing, CORS, middleware, the 30-second timeout and the listen loop (`internal/server/server.go`, `main.go`). These are framework wiring.
- Database connection setup from the environment (`NewDB`). The model starts from a `Db` that already holds rows.
- The bytes of the uploaded image and of the temporary JSON file. Files are modelled by name only.
- Logging (`fmt.Println`, `log.Printf`), the `Content-Type` header, and the trailing newline that `http.Error` appends.
- `entry_scanning.py`: camera capture, threads, timers and its HTTP client. These are I/O and concurrency.
- `find_match_in_gallery.py`: face detection, nearest-neighbour search and the 0.6 threshold. These are floating point and foreign libraries. The matcher is only a `ProcessResult`.
- `save_embeddings.py`: the `np.save` write. Only its outcome is modelled (`ConverterRun`).
- The face detector and encoder, `json.dumps`, `json.Unmarshal`, `%f` formatting and `pq.Array` decoding. These are uninterpreted functions, so float precision is not modelled.
- Postgres id assignment. Ids come from a counter. Gaps in the sequence that a failed insert leaves are not modelled, since only freshness matters.
- Concurrent registrations rewriting the gallery at the same time. This is concurrency.
- The 500 branch after the match response is marshalled (`handlers.go:211-216`). Marshalling an int and a string cannot fail, and by then the status 200 has already been written.
- A failed `os.Remove`. Each deferred removal ignores its error (`handlers.go:63`, `handlers.go:162`, `storage.go:141`), and a failed one leaves the file behind without anyone noticing. The model's `Remove` always succeeds. So where a handler or the export promises that the staging directories end as they began, it means that every removal was attempted, and that the promise holds when removal works.
- Closing files. RegisterHandler closes its upload only just before the export, and on its earlier exits only the deferred `os.Remove` runs. MatchHandler closes its upload by a deferred `tempFile.Close()` (`handlers.go:169`), which is not modelled. The multipart file's deferred `Close` is not modelled in either handler.
- The difference between a nil and an empty embeddings slice. The first is exported as JSON `null`, the second as `[]`.
- The bytes of the matcher's output. It is a string of characters, so output that is not valid UTF-8 cannot be represented, and lengths count characters (the same as bytes for ASCII).
- Exceptions in the Python scripts. They appear only as a non-zero exit (`ProcessResult.Failed`).
