/**
 * `internal/storage`: the `users` table, its three queries, and the export
 * of every stored embedding into the gallery file read by the matcher.
 *
 * The driver's decoding of the `biometric_id` column (`pq.Array`) is the
 * uninterpreted `scanArray`, and `fmt.Sprintf("%f", v)` the uninterpreted
 * `formatFloat`. Every other failure the code checks for is an input: a
 * `DbFault` in the fault set, the converter's outcome, and how the query
 * delivers the rows (in which order, and whether the iteration stops early).
 */
module Storage {
  import opened Wrappers
  import opened Records
  import opened ArrayLiteral
  import opened Files

  /** The fault points of the store and of the export. */
  datatype DbFault =
    | PrepareFails | ExecFails       // CreateUser
    | QueryFails                     // db.Query / db.QueryRow
    | MarshalFails                   // json.Marshal of the embeddings
    | GetwdFails | CreateTempFails | WriteTempFails

  datatype DbError = PrepareError | ExecError | QueryError | ScanError | IterationError

  /** `GetUserByID`'s two errors: "user with ID %d not found", and
      "error retrieving user embedding by ID: %v" for everything else. */
  datatype LookupError = NotFound(id: int) | RetrievalError

  datatype ExportError =
    | Fetching(cause: DbError)       // "fetching embeddings: %w"
    | Marshalling
    | WorkingDir
    | CreatingTemp                   // "creating temporary file: %w"
    | WritingTemp                    // "writing JSON to temporary file: %w"
    | Saving(output: string)         // "saving embeddings to .npy: %s, %w"

  /** How `save_embeddings.py` ends: `np.save` writes the target in place,
      so a failure may come before or after the target was touched. */
  datatype ConverterRun = Saved | FailedBeforeWrite(output: string) | FailedDuringWrite(output: string)
  {
    function Output(): string
    {
      match this
      case Saved => ""
      case FailedBeforeWrite(output) => output
      case FailedDuringWrite(output) => output
    }
  }

  /** How `SELECT id, biometric_id FROM users` delivers its rows: in the
      order `arrange` puts them (there is no ORDER BY), and, when `cutAfter`
      is `Some(n)`, with the stream failing once n rows have been handed out
      (`n` equal to the number of rows is an error after the last row; a
      larger `n` is never reached). */
  datatype QueryRun = QueryRun(arrange: seq<Row> -> seq<Row>, cutAfter: Option<nat>)

  datatype StoreEnv = StoreEnv(faults: set<DbFault>, query: QueryRun, converter: ConverterRun)

  /** A query returns every row exactly once. */
  ghost predicate Permutes(arrange: seq<Row> -> seq<Row>)
  {
    forall rs :: multiset(arrange(rs)) == multiset(rs)
  }

  /** The iteration ends on an error, so `rows.Err()` is non-nil. */
  predicate Interrupted(result: seq<Row>, cutAfter: Option<nat>)
  {
    cutAfter.Some? && cutAfter.value <= |result|
  }

  /** The rows `rows.Next()` hands out before it returns false. */
  function Delivered(result: seq<Row>, cutAfter: Option<nat>): (delivered: seq<Row>)
    ensures delivered <= result
    ensures !Interrupted(result, cutAfter) ==> delivered == result
    ensures Interrupted(result, cutAfter) ==> |delivered| == cutAfter.value
  {
    if Interrupted(result, cutAfter) then result[..cutAfter.value] else result
  }

  ghost predicate IdsIncreasing(rows: seq<Row>)
  {
    forall i, j | 0 <= i < j < |rows| :: rows[i].id < rows[j].id
  }

  /** `rows.Scan(&ue.UserID, pq.Array(&ue.Embedding))`: email is not selected. */
  function ScanRow(r: Row, scan: string -> Option<seq<real>>): Option<UserEmbedding>
  {
    match scan(r.biometricId)
    case None => None
    case Some(v) => Some(UserEmbedding(r.id, v, ""))
  }

  /** Scanning rows one after the other; any failing row fails the whole scan. */
  function ScanRows(rs: seq<Row>, scan: string -> Option<seq<real>>): Option<seq<UserEmbedding>>
  {
    if rs == [] then Some([])
    else
      match ScanRows(rs[..|rs| - 1], scan)
      case None => None
      case Some(es) =>
        match ScanRow(rs[|rs| - 1], scan)
        case None => None
        case Some(e) => Some(es + [e])
  }

  /** One entry per row, in the order the rows come; it fails exactly when some row fails to scan. */
  lemma {:induction false} ScanRowsSpec(rs: seq<Row>, scan: string -> Option<seq<real>>)
    ensures ScanRows(rs, scan).Some? <==> forall i | 0 <= i < |rs| :: ScanRow(rs[i], scan).Some?
    ensures ScanRows(rs, scan).Some? ==>
      && |ScanRows(rs, scan).value| == |rs|
      && forall i | 0 <= i < |rs| :: ScanRow(rs[i], scan) == Some(ScanRows(rs, scan).value[i])
  {
    if rs != [] {
      var front := rs[..|rs| - 1];
      ScanRowsSpec(front, scan);
      assert forall i | 0 <= i < |front| :: front[i] == rs[i];
    }
  }

  /**
   * Whatever order the query delivers the rows in, the scan succeeds
   * exactly when every stored row scans, and it yields exactly the
   * projections of the stored rows.
   */
  lemma ScannedRowsMatchStore(arranged: seq<Row>, rows: seq<Row>, scan: string -> Option<seq<real>>)
    requires multiset(arranged) == multiset(rows)
    ensures ScanRows(arranged, scan).Some? <==> forall i | 0 <= i < |rows| :: ScanRow(rows[i], scan).Some?
    ensures ScanRows(arranged, scan).Some? ==>
      forall e :: e in ScanRows(arranged, scan).value <==> exists i | 0 <= i < |rows| :: ScanRow(rows[i], scan) == Some(e)
  {
    ScanRowsSpec(arranged, scan);
    forall r ensures r in arranged <==> r in rows {
      assert r in arranged <==> r in multiset(arranged);
      assert r in rows <==> r in multiset(rows);
    }
    if forall i | 0 <= i < |rows| :: ScanRow(rows[i], scan).Some? {
      forall j | 0 <= j < |arranged| ensures ScanRow(arranged[j], scan).Some? {
        assert arranged[j] in rows;
      }
    }
    if ScanRows(arranged, scan).Some? {
      var es := ScanRows(arranged, scan).value;
      forall i | 0 <= i < |rows| ensures ScanRow(rows[i], scan).Some? {
        assert rows[i] in arranged;
      }
      forall e ensures e in es <==> exists i | 0 <= i < |rows| :: ScanRow(rows[i], scan) == Some(e) {
        if e in es {
          var j :| 0 <= j < |es| && es[j] == e;
          assert arranged[j] in rows;
          var i :| 0 <= i < |rows| && rows[i] == arranged[j];
          assert ScanRow(rows[i], scan) == Some(e);
        }
        if exists i | 0 <= i < |rows| :: ScanRow(rows[i], scan) == Some(e) {
          var i :| 0 <= i < |rows| && ScanRow(rows[i], scan) == Some(e);
          assert rows[i] in arranged;
          var j :| 0 <= j < |arranged| && arranged[j] == rows[i];
          assert es[j] == e;
        }
      }
    }
  }

  /** Two exports of an unchanged store hand the converter the same set of
      (user_id, embedding) pairs, though possibly in another order. */
  lemma RepeatedExportSamePairs(rows: seq<Row>, first: seq<Row> -> seq<Row>, second: seq<Row> -> seq<Row>,
                                scan: string -> Option<seq<real>>)
    requires Permutes(first) && Permutes(second)
    ensures ScanRows(first(rows), scan).Some? <==> ScanRows(second(rows), scan).Some?
    ensures ScanRows(first(rows), scan).Some? ==>
      forall e :: e in ScanRows(first(rows), scan).value <==> e in ScanRows(second(rows), scan).value
  {
    ScannedRowsMatchStore(first(rows), rows, scan);
    ScannedRowsMatchStore(second(rows), rows, scan);
  }

  /** Every gallery entry is the projection of some stored row: the gallery
      names no user the store does not hold. */
  ghost predicate GalleryConsistent(g: Gallery, rows: seq<Row>, scan: string -> Option<seq<real>>)
  {
    g.Snapshot? ==>
      forall e | e in g.entries :: exists i | 0 <= i < |rows| :: ScanRow(rows[i], scan) == Some(e)
  }

  /** A consistent gallery names only ids of the store. */
  lemma GalleryIdsInStore(g: Gallery, rows: seq<Row>, scan: string -> Option<seq<real>>)
    requires GalleryConsistent(g, rows, scan)
    ensures forall id | id in GalleryIds(g) :: exists i | 0 <= i < |rows| :: rows[i].id == id
  {
    forall id | id in GalleryIds(g) ensures exists i | 0 <= i < |rows| :: rows[i].id == id {
      var e :| e in g.entries && e.userId == id;
      var i :| 0 <= i < |rows| && ScanRow(rows[i], scan) == Some(e);
    }
  }

  /** The position of the first row with that id, if any. */
  function IndexOfId(rows: seq<Row>, id: int): (k: Option<nat>)
    ensures k.None? <==> forall i | 0 <= i < |rows| :: rows[i].id != id
    ensures k.Some? ==> k.value < |rows| && rows[k.value].id == id
  {
    if rows == [] then None
    else if rows[0].id == id then Some(0)
    else match IndexOfId(rows[1..], id)
      case None => None
      case Some(k) => Some(k + 1)
  }

  /**
   * GetAllEmbeddings AS WRITTEN: the loop ends when `rows.Next()` returns
   * false, and `rows.Err()` is never consulted, so an iteration that stops
   * on an error returns the rows read so far as a complete result.
   */
  function FetchAsWritten(rows: seq<Row>, faults: set<DbFault>, query: QueryRun,
                          scan: string -> Option<seq<real>>): (r: Result<seq<UserEmbedding>, DbError>)
    ensures r.Success? ==> exists p :: p <= query.arrange(rows) && ScanRows(p, scan) == Some(r.value)
  {
    if QueryFails in faults then Failure(QueryError)
    else
      match ScanRows(Delivered(query.arrange(rows), query.cutAfter), scan)
      case None => Failure(ScanError)
      case Some(es) => Success(es)
  }

  /** A store of one row whose iteration breaks before the first row: the
      code as written reports an empty, successful result, so the export that
      follows writes a gallery without that user. */
  lemma TruncatedFetchLooksComplete(r: Row, scan: string -> Option<seq<real>>)
    requires scan(r.biometricId).Some?
    ensures FetchAsWritten([r], {}, QueryRun(rs => rs, Some(0)), scan) == Success([])
    ensures ScanRows([r], scan).Some? && ScanRows([r], scan).value != []
  {
    assert [r][..0] == [];
    assert [r][..|[r]| - 1] == [];
  }

  class Db {
    const formatFloat: real -> string
    const scanArray: string -> Option<seq<real>>
    const fs: FileSystem
    var rows: seq<Row>
    var nextId: int

    /** Ids are assigned in increasing order, and `nextId` is fresh. */
    ghost predicate Valid()
      reads this, fs
    {
      && fs.Valid()
      && IdsIncreasing(rows)
      && (forall i | 0 <= i < |rows| :: rows[i].id < nextId)
    }

    /** A connection to a table that already holds `rows`. */
    constructor (rows: seq<Row>, nextId: int, formatFloat: real -> string,
                 scanArray: string -> Option<seq<real>>, fs: FileSystem)
      requires fs.Valid() && IdsIncreasing(rows)
      requires forall i | 0 <= i < |rows| :: rows[i].id < nextId
      ensures Valid()
      ensures this.rows == rows && this.nextId == nextId && this.fs == fs
      ensures this.formatFloat == formatFloat && this.scanArray == scanArray
    {
      this.rows, this.nextId := rows, nextId;
      this.formatFloat, this.scanArray, this.fs := formatFloat, scanArray, fs;
    }

    /**
     * Lines 56-75: one INSERT whose parameters are the array literal of the
     * vector and the email, unchanged; a prepare or exec error is returned
     * and nothing is inserted.
     */
    method CreateUser(biometricId: seq<real>, email: string, faults: set<DbFault>) returns (err: Option<DbError>)
      requires Valid()
      modifies this
      ensures Valid()
      ensures err.None? <==> PrepareFails !in faults && ExecFails !in faults
      ensures err.Some? ==> err.value == (if PrepareFails in faults then PrepareError else ExecError)
      ensures err.None? ==> rows == old(rows) + [Row(old(nextId), Literal(Fields(biometricId, formatFloat)), email)]
      ensures err.Some? ==> rows == old(rows) && nextId == old(nextId)
    {
      var biometricArray := FormatArrayLiteral(biometricId, formatFloat);
      if PrepareFails in faults {
        return Some(PrepareError);
      }
      if ExecFails in faults {
        return Some(ExecError);
      }
      rows := rows + [Row(nextId, biometricArray, email)];
      nextId := nextId + 1;
      err := None;
    }

    /**
     * Lines 79-96, with the iteration error checked (see FetchAsWritten):
     * one entry per delivered row, in delivery order; any error discards
     * the partial result.
     */
    method GetAllEmbeddings(faults: set<DbFault>, query: QueryRun) returns (embeddings: seq<UserEmbedding>, err: Option<DbError>)
      ensures err.None? <==>
        && QueryFails !in faults
        && !Interrupted(query.arrange(rows), query.cutAfter)
        && ScanRows(query.arrange(rows), scanArray).Some?
      ensures err.None? ==> embeddings == ScanRows(query.arrange(rows), scanArray).value
      ensures err.Some? ==> embeddings == []
      ensures err == Some(QueryError) <==> QueryFails in faults
      ensures err == Some(ScanError) <==>
        QueryFails !in faults && ScanRows(Delivered(query.arrange(rows), query.cutAfter), scanArray).None?
      ensures err == Some(IterationError) <==>
        && QueryFails !in faults
        && ScanRows(Delivered(query.arrange(rows), query.cutAfter), scanArray).Some?
        && Interrupted(query.arrange(rows), query.cutAfter)
    {
      if QueryFails in faults {
        return [], Some(QueryError);
      }
      var result := query.arrange(rows);
      var delivered := Delivered(result, query.cutAfter);
      embeddings := [];
      var i := 0;
      while i < |delivered|
        invariant 0 <= i <= |delivered|
        invariant ScanRows(delivered[..i], scanArray) == Some(embeddings)
      {
        match scanArray(delivered[i].biometricId) {
          case None =>
            ScanRowsSpec(result, scanArray);
            ScanRowsSpec(delivered, scanArray);
            assert result[i] == delivered[i];
            return [], Some(ScanError);
          case Some(v) =>
            assert delivered[..i + 1][..i] == delivered[..i];
            embeddings := embeddings + [UserEmbedding(delivered[i].id, v, "")];
        }
        i := i + 1;
      }
      assert delivered[..i] == delivered;
      if Interrupted(result, query.cutAfter) {
        return [], Some(IterationError);
      }
      assert delivered[..i] == result;
      err := None;
    }

    /**
     * Lines 99-113: the row with that id, with its embedding and email; no
     * such row is NotFound, every other error a RetrievalError.
     */
    function GetUserByID(id: int, queryFails: bool): (r: Result<UserEmbedding, LookupError>)
      reads this
      ensures r == Failure(NotFound(id)) <==> !queryFails && forall i | 0 <= i < |rows| :: rows[i].id != id
      ensures r.Failure? ==> r.error == NotFound(id) || r.error == RetrievalError
      ensures r.Success? <==>
        && !queryFails
        && IndexOfId(rows, id).Some?
        && scanArray(rows[IndexOfId(rows, id).value].biometricId).Some?
      ensures r.Success? ==> exists i | 0 <= i < |rows| ::
        && rows[i].id == id
        && scanArray(rows[i].biometricId) == Some(r.value.embedding)
        && r.value == UserEmbedding(id, r.value.embedding, rows[i].email)
    {
      if queryFails then Failure(RetrievalError)
      else
        match IndexOfId(rows, id)
        case None => Failure(NotFound(id))
        case Some(k) =>
          match scanArray(rows[k].biometricId)
          case None => Failure(RetrievalError)
          case Some(v) => Success(UserEmbedding(rows[k].id, v, rows[k].email))
    }

    /** GetAllEmbeddings succeeds: the query runs, the stream ends cleanly
        and every row scans. */
    predicate FetchSucceeds(env: StoreEnv)
      reads this
    {
      && QueryFails !in env.faults
      && !Interrupted(env.query.arrange(rows), env.query.cutAfter)
      && ScanRows(env.query.arrange(rows), scanArray).Some?
    }

    /** Every step of ExportEmbeddings succeeds. */
    ghost predicate ExportSucceeds(env: StoreEnv)
      reads this
    {
      && FetchSucceeds(env)
      && MarshalFails !in env.faults && GetwdFails !in env.faults
      && CreateTempFails !in env.faults && WriteTempFails !in env.faults
      && env.converter == Saved
    }

    /**
     * Lines 117-154: a full rebuild. The scan result is handed to the
     * converter, which replaces the gallery; a failed scan stops before
     * any temporary file exists; the temporary JSON file is removed on
     * every later exit; a converter failure carries its output.
     */
    method ExportEmbeddings(env: StoreEnv) returns (err: Option<ExportError>)
      requires Valid()
      modifies fs
      ensures Valid()
      ensures fs.tempImages == old(fs.tempImages) && fs.tempEmbeddings == old(fs.tempEmbeddings)
      ensures err.None? <==> ExportSucceeds(env)
      ensures err.None? ==> fs.gallery == Snapshot(ScanRows(env.query.arrange(rows), scanArray).value)
      ensures err.Some? && !err.value.Saving? ==> fs.gallery == old(fs.gallery)
      ensures err.Some? && (err.value.Fetching? || err.value.Marshalling? || err.value.WorkingDir? || err.value.CreatingTemp?)
        ==> fs.nextName == old(fs.nextName)
      ensures !FetchSucceeds(env) <==> err.Some? && err.value.Fetching?
      ensures FetchSucceeds(env) && MarshalFails in env.faults ==> err == Some(Marshalling)
      ensures FetchSucceeds(env) && MarshalFails !in env.faults && GetwdFails in env.faults ==>
        err == Some(WorkingDir)
      ensures
        && FetchSucceeds(env) && MarshalFails !in env.faults && GetwdFails !in env.faults
        && CreateTempFails in env.faults
        ==> err == Some(CreatingTemp)
      ensures
        && FetchSucceeds(env) && MarshalFails !in env.faults && GetwdFails !in env.faults
        && CreateTempFails !in env.faults && WriteTempFails in env.faults
        ==> err == Some(WritingTemp)
      ensures
        && FetchSucceeds(env) && MarshalFails !in env.faults && GetwdFails !in env.faults
        && CreateTempFails !in env.faults && WriteTempFails !in env.faults && !env.converter.Saved?
        ==> err == Some(Saving(env.converter.Output()))
      ensures err.Some? && err.value.Saving? ==>
        && !env.converter.Saved?
        && err.value.output == env.converter.Output()
        && fs.gallery == (if env.converter.FailedDuringWrite? then Corrupt else old(fs.gallery))
    {
      var embeddings, fetchErr := GetAllEmbeddings(env.faults, env.query);
      if fetchErr.Some? {
        return Some(Fetching(fetchErr.value));
      }
      if MarshalFails in env.faults {
        return Some(Marshalling);
      }
      if GetwdFails in env.faults {
        return Some(WorkingDir);
      }
      var tmpFile := fs.CreateTemp(TempEmbeddings, CreateTempFails in env.faults);
      if tmpFile.None? {
        return Some(CreatingTemp);
      }
      if WriteTempFails in env.faults {
        err := Some(WritingTemp);
      } else {
        match env.converter {
          case Saved =>
            fs.gallery := Snapshot(embeddings);
            err := None;
          case FailedBeforeWrite(output) =>
            err := Some(Saving(output));
          case FailedDuringWrite(output) =>
            fs.gallery := Corrupt;
            err := Some(Saving(output));
        }
      }
      fs.Remove(TempEmbeddings, tmpFile.value);
    }
  }

  /** After a successful export the gallery holds exactly the projections
      of the stored rows, whatever order the query used. */
  lemma ExportedGalleryMatchesStore(rows: seq<Row>, arrange: seq<Row> -> seq<Row>, scan: string -> Option<seq<real>>)
    requires Permutes(arrange)
    requires ScanRows(arrange(rows), scan).Some?
    ensures GalleryConsistent(Snapshot(ScanRows(arrange(rows), scan).value), rows, scan)
    ensures forall i | 0 <= i < |rows| :: ScanRow(rows[i], scan).Some? && ScanRow(rows[i], scan).value in ScanRows(arrange(rows), scan).value
    ensures forall e | e in ScanRows(arrange(rows), scan).value :: e.email == ""
  {
    ScannedRowsMatchStore(arrange(rows), rows, scan);
  }

  /**
   * An id taken from a consistent gallery always resolves: GetUserByID can
   * then fail only on a query error, never with NotFound.
   */
  lemma GalleryIdResolves(db: Db, id: int)
    requires db.Valid() && GalleryConsistent(db.fs.gallery, db.rows, db.scanArray)
    requires id in GalleryIds(db.fs.gallery)
    ensures db.GetUserByID(id, false).Success?
    ensures db.GetUserByID(id, false).value.userId == id
  {
    var e :| e in db.fs.gallery.entries && e.userId == id;
    var i :| 0 <= i < |db.rows| && ScanRow(db.rows[i], db.scanArray) == Some(e);
    var k := IndexOfId(db.rows, id).value;
    assert k == i;
  }
}
