/**
 * `internal/server/handlers.go` and the startup export of `main.go`: the
 * register and match workflows as step sequences over the store, the
 * gallery file and the staged uploads.
 *
 * The Python scripts are `ProcessResult` inputs, JSON decoding of the
 * extractor's output is the uninterpreted `unmarshal`, and each step the
 * handler checks for an error is a `Fault` in the fault set. The ghost
 * out-parameter `calls` records, in order, which external collaborators a
 * request reached.
 */
module Server {
  import opened Wrappers
  import opened Records
  import opened Files
  import opened ArrayLiteral
  import opened Storage
  import opened MatchOutput
  import opened Strconv

  /** The fault points of the handlers. */
  datatype Fault =
    | ParseMultipart     // r.ParseMultipartForm
    | ReadImage          // io.ReadAll on the uploaded file
    | Getwd              // os.Getwd
    | CreateUpload       // os.CreateTemp in temp-images
    | WriteUpload        // tempFile.Write
    | ParseForm          // r.ParseForm
    | CloseUpload        // tempFile.Close before the export
    | MarshalResponse    // json.Marshal of the register response

  /** The multipart form: whether an `image` part is present, and the
      `email` value (`FormValue` gives "" when it is missing). */
  datatype Request = Request(hasImage: bool, email: string)

  datatype Call =
    | RunExtractor(upload: nat)
    | InsertUser(biometricId: seq<real>, email: string)
    | ExportGallery
    | RunMatcher(upload: nat)
    | LookupUser(userId: int)

  datatype Body =
    | RegisterBody(biometricId: seq<real>)
    | MatchBody(userId: int, email: string)
    | ErrorText(message: string)

  datatype Response = Response(status: int, body: Body)

  /** The steps up to and including creating the upload file succeed. */
  predicate Created(req: Request, faults: set<Fault>)
  {
    && ParseMultipart !in faults && req.hasImage
    && ReadImage !in faults && Getwd !in faults
    && CreateUpload !in faults
  }

  /** The upload is created and written. */
  predicate Staged(req: Request, faults: set<Fault>)
  {
    Created(req, faults) && WriteUpload !in faults
  }

  /** The vector the extractor's output decodes to, if it ran cleanly. */
  function Decoded(extractor: ProcessResult, unmarshal: string -> Option<seq<real>>): Option<seq<real>>
  {
    if extractor.Exited? then unmarshal(extractor.output) else None
  }

  /** The response of the steps before the upload exists. */
  function StagingFailure(req: Request, faults: set<Fault>): (resp: Response)
    requires !Created(req, faults)
    ensures resp.status == 500
    ensures ParseMultipart !in faults && !req.hasImage ==> resp.body == ErrorText("Error retrieving the image file")
  {
    if ParseMultipart in faults then Response(500, ErrorText("Error parsing multipart form"))
    else if !req.hasImage then Response(500, ErrorText("Error retrieving the image file"))
    else if ReadImage in faults then Response(500, ErrorText("Error reading the image file"))
    else if Getwd in faults then Response(500, ErrorText("Failed to get current working directory"))
    else Response(500, ErrorText("Error creating a temporary file"))
  }

  class Api {
    const db: Db

    /** The server's invariant: the gallery never names a user the store lacks. */
    ghost predicate Valid()
      reads this, db, db.fs
    {
      db.Valid() && GalleryConsistent(db.fs.gallery, db.rows, db.scanArray)
    }

    constructor (db: Db)
      requires db.Valid() && GalleryConsistent(db.fs.gallery, db.rows, db.scanArray)
      ensures Valid() && this.db == db
    {
      this.db := db;
    }

    /**
     * Lines 27-69 (and 126-168): parse the form, read the image, create the
     * upload in temp-images and write it. A failed write removes the upload
     * again, as the deferred `os.Remove` does.
     */
    method Stage(req: Request, faults: set<Fault>) returns (staged: Result<nat, Response>)
      requires Valid()
      modifies db.fs
      ensures Valid()
      ensures staged.Success? <==> Staged(req, faults)
      ensures staged.Failure? ==> db.fs.tempImages == old(db.fs.tempImages) && staged.error.status == 500
      ensures staged.Failure? && ParseMultipart !in faults && !req.hasImage ==>
        staged.error == Response(500, ErrorText("Error retrieving the image file"))
      ensures staged.Failure? && Created(req, faults) ==>
        staged.error == Response(500, ErrorText("Error writing to temporary file"))
      ensures staged.Success? ==>
        staged.value !in old(db.fs.tempImages) && db.fs.tempImages == old(db.fs.tempImages) + {staged.value}
      ensures staged.Success? ==> old(db.fs.nextName) <= staged.value < db.fs.nextName
      ensures db.fs.tempEmbeddings == old(db.fs.tempEmbeddings) && db.fs.gallery == old(db.fs.gallery)
    {
      if ParseMultipart in faults || !req.hasImage || ReadImage in faults || Getwd in faults {
        return Failure(StagingFailure(req, faults));
      }
      var tempFile := db.fs.CreateTemp(TempImages, CreateUpload in faults);
      if tempFile.None? {
        return Failure(StagingFailure(req, faults));
      }
      if WriteUpload in faults {
        db.fs.Remove(TempImages, tempFile.value);
        return Failure(Response(500, ErrorText("Error writing to temporary file")));
      }
      staged := Success(tempFile.value);
    }

    /**
     * Lines 26-123: stage the upload, extract, decode, check the email,
     * insert, close the upload, export, respond with the vector. The upload
     * is removed on every exit after it was created.
     */
    method RegisterHandler(req: Request, faults: set<Fault>, extractor: ProcessResult,
                           unmarshal: string -> Option<seq<real>>, store: StoreEnv)
      returns (resp: Response, ghost calls: seq<Call>)
      requires Valid() && Permutes(store.query.arrange)
      modifies db, db.fs
      ensures Valid()
      ensures db.fs.tempImages == old(db.fs.tempImages) && db.fs.tempEmbeddings == old(db.fs.tempEmbeddings)
      ensures resp.status == 200 || resp.status == 400 || resp.status == 500
      // which collaborators run, and in which order
      ensures |calls| <= 3
      ensures !Staged(req, faults) ==> calls == [] && resp.status == 500
      ensures ParseMultipart !in faults && !req.hasImage ==>
        resp == Response(500, ErrorText("Error retrieving the image file"))
      ensures Staged(req, faults) <==> |calls| >= 1
      ensures |calls| >= 1 ==> calls[0].RunExtractor? && old(db.fs.nextName) <= calls[0].upload < db.fs.nextName
      ensures |calls| >= 1 && Decoded(extractor, unmarshal).None? ==> |calls| == 1 && resp.status == 500
      ensures |calls| >= 1 && extractor.Failed? ==> resp == Response(500, ErrorText("Error executing Python script"))
      ensures |calls| >= 1 && extractor.Exited? && Decoded(extractor, unmarshal).None? ==>
        resp == Response(500, ErrorText("Error unmarshalling python output"))
      ensures |calls| >= 1 && Decoded(extractor, unmarshal).Some? && ParseForm in faults ==>
        resp == Response(400, ErrorText("Error parsing form data"))
      ensures |calls| >= 1 && Decoded(extractor, unmarshal).Some? && ParseForm !in faults && req.email == "" ==>
        resp == Response(400, ErrorText("Email is required"))
      ensures resp.status == 400 ==> |calls| == 1
      ensures |calls| >= 2 <==> |calls| >= 1 && Decoded(extractor, unmarshal).Some? && ParseForm !in faults && req.email != ""
      ensures |calls| >= 2 ==> calls[1] == InsertUser(Decoded(extractor, unmarshal).value, req.email)
      ensures |calls| == 3 <==>
        |calls| >= 2 && PrepareFails !in store.faults && ExecFails !in store.faults && CloseUpload !in faults
      ensures |calls| == 3 ==> calls[2] == ExportGallery
      // the store: one new row exactly when the insert ran and succeeded
      ensures |calls| < 2 ==> db.rows == old(db.rows) && db.nextId == old(db.nextId)
      ensures |calls| >= 2 ==>
        db.rows == if PrepareFails in store.faults || ExecFails in store.faults then old(db.rows)
                   else old(db.rows) + [Row(old(db.nextId), Literal(Fields(calls[1].biometricId, db.formatFloat)), req.email)]
      ensures |calls| >= 2 && (PrepareFails in store.faults || ExecFails in store.faults) ==>
        resp == Response(500, ErrorText("Error inserting user to db"))
      // the gallery: touched only by the export
      ensures |calls| < 3 ==> db.fs.gallery == old(db.fs.gallery)
      ensures |calls| == 3 ==> (resp.status == 200 <==> db.ExportSucceeds(store) && MarshalResponse !in faults)
      ensures |calls| == 3 && !db.ExportSucceeds(store) ==>
        resp == Response(500, ErrorText("Error exporting embeddings from database"))
      ensures resp.status == 200 ==>
        && |calls| == 3
        && resp.body == RegisterBody(calls[1].biometricId)
        && db.fs.gallery == Snapshot(ScanRows(store.query.arrange(db.rows), db.scanArray).value)
      ensures resp.status == 200 ==>
        exists e :: e in db.fs.gallery.entries && e.userId == old(db.nextId)
          && db.scanArray(Literal(Fields(resp.body.biometricId, db.formatFloat))) == Some(e.embedding)
    {
      calls := [];
      var staged := Stage(req, faults);
      if staged.Failure? {
        return staged.error, calls;
      }
      var upload := staged.value;
      calls := [RunExtractor(upload)];
      if extractor.Failed? {
        resp := Response(500, ErrorText("Error executing Python script"));
      } else if unmarshal(extractor.output).None? {
        resp := Response(500, ErrorText("Error unmarshalling python output"));
      } else if ParseForm in faults {
        resp := Response(400, ErrorText("Error parsing form data"));
      } else if req.email == "" {
        resp := Response(400, ErrorText("Email is required"));
      } else {
        var biometricId := unmarshal(extractor.output).value;
        calls := calls + [InsertUser(biometricId, req.email)];
        ghost var exported;
        resp, exported := InsertAndExport(biometricId, req.email, faults, store);
        if exported {
          calls := calls + [ExportGallery];
        }
      }
      db.fs.Remove(TempImages, upload);
    }

    /**
     * Lines 96-122: insert the user, close the upload, export the gallery
     * and answer with the vector. `exported` says whether the export ran.
     */
    method InsertAndExport(biometricId: seq<real>, email: string, faults: set<Fault>, store: StoreEnv)
      returns (resp: Response, ghost exported: bool)
      requires Valid() && Permutes(store.query.arrange)
      modifies db, db.fs
      ensures Valid()
      ensures db.fs.tempImages == old(db.fs.tempImages) && db.fs.tempEmbeddings == old(db.fs.tempEmbeddings)
      ensures resp.status == 200 || resp.status == 500
      ensures exported <==> PrepareFails !in store.faults && ExecFails !in store.faults && CloseUpload !in faults
      ensures db.rows == if PrepareFails in store.faults || ExecFails in store.faults then old(db.rows)
                         else old(db.rows) + [Row(old(db.nextId), Literal(Fields(biometricId, db.formatFloat)), email)]
      ensures PrepareFails in store.faults || ExecFails in store.faults ==>
        resp == Response(500, ErrorText("Error inserting user to db")) && db.nextId == old(db.nextId)
      ensures !exported ==> db.fs.gallery == old(db.fs.gallery) && resp.status == 500
      ensures exported ==> (resp.status == 200 <==> db.ExportSucceeds(store) && MarshalResponse !in faults)
      ensures exported && !db.ExportSucceeds(store) ==>
        resp == Response(500, ErrorText("Error exporting embeddings from database"))
      ensures resp.status == 200 ==>
        && resp.body == RegisterBody(biometricId)
        && db.fs.gallery == Snapshot(ScanRows(store.query.arrange(db.rows), db.scanArray).value)
      ensures resp.status == 200 ==>
        exists e :: e in db.fs.gallery.entries && e.userId == old(db.nextId)
          && db.scanArray(Literal(Fields(biometricId, db.formatFloat))) == Some(e.embedding)
    {
      ghost var rows0 := db.rows;
      exported := false;
      var insertErr := db.CreateUser(biometricId, email, store.faults);
      if insertErr.Some? {
        resp := Response(500, ErrorText("Error inserting user to db"));
      } else if CloseUpload in faults {
        resp := Response(500, ErrorText("Err closing temp file"));
      } else {
        exported := true;
        var exportErr := db.ExportEmbeddings(store);
        if exportErr.Some? {
          resp := Response(500, ErrorText("Error exporting embeddings from database"));
        } else if MarshalResponse in faults {
          resp := Response(500, ErrorText("Err marshalling response"));
        } else {
          resp := Response(200, RegisterBody(biometricId));
        }
        ExportedUserInGallery(rows0, db.rows, store.query.arrange, db.scanArray, exportErr.None?);
      }
      GalleryConsistentGrows(old(db.fs.gallery), rows0, db.rows, db.scanArray);
    }

    /**
     * Lines 125-219: stage the upload, run the matcher, classify its
     * output, look the id up and answer with that user's id and email.
     * Nothing in the store or the gallery changes.
     */
    method MatchHandler(req: Request, faults: set<Fault>, matcher: ProcessResult, lookupFails: bool)
      returns (resp: Response, ghost calls: seq<Call>)
      requires Valid()
      modifies db.fs
      ensures Valid()
      ensures db.fs.tempImages == old(db.fs.tempImages) && db.fs.tempEmbeddings == old(db.fs.tempEmbeddings)
      ensures db.fs.gallery == old(db.fs.gallery)
      ensures resp.status == 200 || resp.status == 404 || resp.status == 500
      ensures |calls| <= 2
      ensures !Staged(req, faults) ==> calls == [] && resp.status == 500
      ensures ParseMultipart !in faults && !req.hasImage ==>
        resp == Response(500, ErrorText("Error retrieving the image file"))
      ensures Staged(req, faults) <==> |calls| >= 1
      ensures |calls| >= 1 ==> calls[0].RunMatcher? && old(db.fs.nextName) <= calls[0].upload < db.fs.nextName
      ensures |calls| >= 1 && matcher.Failed? ==>
        resp == Response(500, ErrorText("Error executing Python script")) && |calls| == 1
      ensures |calls| >= 1 && matcher.Exited? ==> resp == MatchResponse(db, matcher.output, lookupFails)
      ensures |calls| == 2 <==> |calls| >= 1 && matcher.Exited? && ClassifyMatcherOutput(matcher.output).Matched?
      ensures |calls| == 2 ==> calls[1] == LookupUser(ClassifyMatcherOutput(matcher.output).userId)
    {
      calls := [];
      var staged := Stage(req, faults);
      if staged.Failure? {
        return staged.error, calls;
      }
      var upload := staged.value;
      resp, calls := AnswerMatch(upload, matcher, lookupFails);
      DiscardUpload(upload);
    }

    /** The deferred `os.Remove` of a staged upload: the store and the gallery
        stay consistent. */
    method DiscardUpload(upload: nat)
      requires Valid()
      modifies db.fs
      ensures Valid()
      ensures db.fs.tempImages == old(db.fs.tempImages) - {upload}
      ensures db.fs.tempEmbeddings == old(db.fs.tempEmbeddings)
      ensures db.fs.gallery == old(db.fs.gallery) && db.fs.nextName == old(db.fs.nextName)
    {
      db.fs.Remove(TempImages, upload);
    }

    /**
     * The part of MatchHandler after the upload is staged: run the matcher
     * on it and answer from its output; the store is only read.
     */
    method AnswerMatch(upload: nat, matcher: ProcessResult, lookupFails: bool)
      returns (resp: Response, ghost calls: seq<Call>)
      ensures resp.status == 200 || resp.status == 404 || resp.status == 500
      ensures 1 <= |calls| <= 2 && calls[0] == RunMatcher(upload)
      ensures matcher.Failed? ==>
        resp == Response(500, ErrorText("Error executing Python script")) && |calls| == 1
      ensures matcher.Exited? ==> resp == MatchResponse(db, matcher.output, lookupFails)
      ensures |calls| == 2 <==> matcher.Exited? && ClassifyMatcherOutput(matcher.output).Matched?
      ensures |calls| == 2 ==> calls[1] == LookupUser(ClassifyMatcherOutput(matcher.output).userId)
    {
      calls := [RunMatcher(upload)];
      if matcher.Failed? {
        resp := Response(500, ErrorText("Error executing Python script"));
      } else {
        var m := ClassifyMatcherOutput(matcher.output);
        if m.Matched? {
          calls := calls + [LookupUser(m.userId)];
        }
        resp := MatchResponse(db, matcher.output, lookupFails);
      }
    }
  }

  /**
   * Lines 182-209 of handlers.go: the answer to the matcher's output. Only
   * an integer id reaches the store, and a 200 names a stored user.
   */
  function MatchResponse(db: Db, output: string, lookupFails: bool): (resp: Response)
    reads db
    ensures resp.status == 404 <==> ClassifyMatcherOutput(output) == NoMatch
    ensures resp.status == 404 ==> resp == Response(404, ErrorText("No match found"))
    ensures ClassifyMatcherOutput(output).Unparsable? ==> resp == Response(500, ErrorText("Error processing match result"))
    ensures ClassifyMatcherOutput(output).Matched? ==>
      var user := db.GetUserByID(ClassifyMatcherOutput(output).userId, lookupFails);
      resp == if user.Success? then Response(200, MatchBody(user.value.userId, user.value.email))
              else Response(500, ErrorText("Error fetching user details"))
    ensures resp.status == 200 ==>
      && resp.body.MatchBody?
      && exists i | 0 <= i < |db.rows| :: db.rows[i].id == resp.body.userId && db.rows[i].email == resp.body.email
  {
    match ClassifyMatcherOutput(output)
    case NoMatch => Response(404, ErrorText("No match found"))
    case Unparsable(_) => Response(500, ErrorText("Error processing match result"))
    case Matched(userId) =>
      var user := db.GetUserByID(userId, lookupFails);
      if user.Failure? then Response(500, ErrorText("Error fetching user details"))
      else Response(200, MatchBody(user.value.userId, user.value.email))
  }

  /** Inserting rows keeps a consistent gallery consistent. */
  lemma GalleryConsistentGrows(g: Gallery, before: seq<Row>, after: seq<Row>, scan: string -> Option<seq<real>>)
    requires GalleryConsistent(g, before, scan)
    requires before <= after
    ensures GalleryConsistent(g, after, scan)
  {
    if g.Snapshot? {
      forall e | e in g.entries ensures exists i | 0 <= i < |after| :: ScanRow(after[i], scan) == Some(e) {
        var i :| 0 <= i < |before| && ScanRow(before[i], scan) == Some(e);
        assert after[i] == before[i];
      }
    }
  }

  /** After an insert and a successful export, the gallery holds the new row. */
  lemma ExportedUserInGallery(before: seq<Row>, after: seq<Row>, arrange: seq<Row> -> seq<Row>,
                              scan: string -> Option<seq<real>>, exported: bool)
    requires Permutes(arrange) && |after| == |before| + 1
    requires exported ==> ScanRows(arrange(after), scan).Some?
    ensures exported ==>
      && GalleryConsistent(Snapshot(ScanRows(arrange(after), scan).value), after, scan)
      && scan(after[|before|].biometricId).Some?
      && UserEmbedding(after[|before|].id, scan(after[|before|].biometricId).value, "") in ScanRows(arrange(after), scan).value
  {
    if exported {
      ExportedGalleryMatchesStore(after, arrange, scan);
      assert ScanRow(after[|before|], scan).Some?;
    }
  }

  /**
   * `main.go` lines 17-26: the server starts only after a successful export,
   * so it starts from a gallery that is exactly the projection of the store.
   * A failed export ends the process (`log.Fatalf`), modelled as null.
   */
  method Startup(db: Db, store: StoreEnv) returns (api: Api?)
    requires db.Valid() && Permutes(store.query.arrange)
    modifies db.fs
    ensures api == null <==> !db.ExportSucceeds(store)
    ensures api != null ==> api.db == db && api.Valid()
    ensures api != null ==> db.fs.gallery == Snapshot(ScanRows(store.query.arrange(db.rows), db.scanArray).value)
  {
    var err := db.ExportEmbeddings(store);
    if err.Some? {
      return null;
    }
    ExportedGalleryMatchesStore(db.rows, store.query.arrange, db.scanArray);
    api := new Api(db);
  }

  lemma AllRowsScan(before: seq<Row>, after: seq<Row>, arrange: seq<Row> -> seq<Row>,
                    scan: string -> Option<seq<real>>)
    requires Permutes(arrange)
    requires |after| == |before| + 1 && before <= after
    requires forall i | 0 <= i < |before| :: scan(before[i].biometricId).Some?
    requires scan(after[|before|].biometricId).Some?
    ensures ScanRows(arrange(after), scan).Some?
  {
    forall i | 0 <= i < |after| ensures ScanRow(after[i], scan).Some? {
      if i < |before| { assert after[i] == before[i]; }
    }
    ScannedRowsMatchStore(arrange(after), after, scan);
  }

  /** The last inserted row is the one GetUserByID finds for its id. */
  lemma NewestRowFound(db: Db, before: seq<Row>)
    requires db.Valid() && |db.rows| == |before| + 1 && before <= db.rows
    requires db.scanArray(db.rows[|before|].biometricId).Some?
    ensures var row := db.rows[|before|];
      db.GetUserByID(row.id, false) == Success(UserEmbedding(row.id, db.scanArray(row.biometricId).value, row.email))
  {
    var k := IndexOfId(db.rows, db.rows[|before|].id).value;
    assert k == |before|;
  }

  /** A registration in which every step succeeds answers 200 with the
      vector and appends exactly the new row. */
  method RegisterCleanly(api: Api, email: string, biometricId: seq<real>, extractorOutput: string,
                         unmarshal: string -> Option<seq<real>>, store: StoreEnv)
    returns (registered: Response)
    requires api.Valid() && Permutes(store.query.arrange) && email != ""
    requires unmarshal(extractorOutput) == Some(biometricId)
    requires store.faults == {} && store.query.cutAfter == None && store.converter == Saved
    requires forall i | 0 <= i < |api.db.rows| :: api.db.scanArray(api.db.rows[i].biometricId).Some?
    requires api.db.scanArray(Literal(Fields(biometricId, api.db.formatFloat))).Some?
    modifies api.db, api.db.fs
    ensures api.Valid()
    ensures registered == Response(200, RegisterBody(biometricId))
    ensures api.db.rows == old(api.db.rows) + [Row(old(api.db.nextId), Literal(Fields(biometricId, api.db.formatFloat)), email)]
  {
    var db := api.db;
    ghost var rows0 := db.rows;
    ghost var calls;
    registered, calls := api.RegisterHandler(Request(true, email), {}, Exited(extractorOutput), unmarshal, store);
    assert |calls| == 3;
    AllRowsScan(rows0, db.rows, store.query.arrange, db.scanArray);
  }

  /**
   * Match an image the matcher attributes to the newest user: the answer is
   * that user's id and email.
   */
  method MatchNewest(api: Api, before: seq<Row>) returns (matched: Response)
    requires api.Valid() && |api.db.rows| == |before| + 1 && before <= api.db.rows
    requires api.db.scanArray(api.db.rows[|before|].biometricId).Some?
    requires MinInt64 <= api.db.rows[|before|].id <= MaxInt64
    modifies api.db.fs
    ensures matched == Response(200, MatchBody(api.db.rows[|before|].id, api.db.rows[|before|].email))
  {
    var row := api.db.rows[|before|];
    var output := FormatInt(row.id) + "\n";
    assert ClassifyMatcherOutput(output) == Matched(row.id) by {
      PrintedMatcherOutput(row.id);
    }
    assert api.db.GetUserByID(row.id, false) == Success(UserEmbedding(row.id, api.db.scanArray(row.biometricId).value, row.email)) by {
      NewestRowFound(api.db, before);
    }
    assert Staged(Request(true, ""), {});
    ghost var user := api.db.GetUserByID(row.id, false);
    ghost var calls;
    matched, calls := api.MatchHandler(Request(true, ""), {}, Exited(output), false);
    assert api.db.GetUserByID(row.id, false) == user;
    assert |calls| == 2 && calls[1] == LookupUser(row.id);
  }

  /**
   * Register a user, then match an image the matcher attributes to that
   * user: the registration answers with the vector, and the match answers
   * with the new id and the registered email.
   */
  method RegisterThenMatch(api: Api, biometricId: seq<real>, extractorOutput: string,
                           unmarshal: string -> Option<seq<real>>, store: StoreEnv)
    returns (registered: Response, matched: Response)
    requires api.Valid() && Permutes(store.query.arrange)
    requires unmarshal(extractorOutput) == Some(biometricId)
    requires store.faults == {} && store.query.cutAfter == None && store.converter == Saved
    requires forall i | 0 <= i < |api.db.rows| :: api.db.scanArray(api.db.rows[i].biometricId).Some?
    requires api.db.scanArray(Literal(Fields(biometricId, api.db.formatFloat))).Some?
    requires MinInt64 <= api.db.nextId <= MaxInt64
    modifies api.db, api.db.fs
    ensures registered == Response(200, RegisterBody(biometricId))
    ensures matched == Response(200, MatchBody(old(api.db.nextId), "a@x.com"))
  {
    var rows0 := api.db.rows;
    registered := RegisterCleanly(api, "a@x.com", biometricId, extractorOutput, unmarshal, store);
    matched := MatchNewest(api, rows0);
  }
}
