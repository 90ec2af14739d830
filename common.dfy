/** Shared vocabulary of the raw-batch pipeline: result types, the
    exceptions the Python code raises, and the two pipeline variants with
    the directory layout each one uses. */
module Common {

  datatype Option<+T> = None | Some(value: T)

  /** An exception raised by the pipeline, named after the Python class
      that carries it. */
  datatype Failure =
    | OsError(path: string)            // FileNotFoundError, shutil.Error, ...
    | KeyError(key: string)            // missing schema key
    | IndexError                       // list index out of range
    | StopIteration                    // next() on an empty file
    | ConnectionError(message: string)
    | DatabaseError(message: string)   // sqlite3.OperationalError and friends
    | UnboundLocalError(name: string)
    | NameError(name: string)
    | ModelNotFound(message: string)   // bare Exception raised by the model lookup

  datatype Result<+T> = Ok(value: T) | Err(error: Failure)

  /** The outcome of an operation that returns nothing but may raise. */
  datatype Outcome = Pass | Fail(error: Failure)

  /** The two pipelines: they share code shape but not directories and
      differ in a few behaviours (table reuse, archive error handling). */
  datatype Variant = Prediction | Training

  type Path = string

  /** Staging folder for files whose names pass validation. */
  function GoodDir(v: Variant): Path
  {
    match v
    case Prediction => "Prediction_Raw_Files_Validated/Good_Raw"
    case Training => "Training_Raw_files_validated/Good_Raw"
  }

  /** Staging folder for rejected files. */
  function BadDir(v: Variant): Path
  {
    match v
    case Prediction => "Prediction_Raw_Files_Validated/Bad_Raw"
    case Training => "Training_Raw_files_validated/Bad_Raw"
  }

  /** Root under which rejected files are archived, one folder per run. */
  function ArchiveRoot(v: Variant): Path
  {
    match v
    case Prediction => "PredictionArchivedBadData"
    case Training => "TrainingArchiveBadData"
  }

  /** Folder that receives the table export. */
  function ExportDir(v: Variant): Path
  {
    match v
    case Prediction => "Prediction_FileFromDB"
    case Training => "Training_FileFromDB"
  }

  const ExportFileName: string := "InputFile.csv"

  /** The wall-clock reading taken by the archiver: `date` is `str(now.date())`,
      `time` is `now.strftime("%H%M%S")`. */
  datatype Timestamp = Timestamp(date: string, time: string)

  /** `<root>/BadData_<date>_<time>`, the archive folder of one run. */
  function ArchiveDir(v: Variant, stamp: Timestamp): (p: Path)
    ensures |p| > |ArchiveRoot(v)| && p[..|ArchiveRoot(v)|] == ArchiveRoot(v)
    ensures p[|ArchiveRoot(v)|] == '/'
  {
    ArchiveRoot(v) + "/BadData_" + stamp.date + "_" + stamp.time
  }

  /** The staging folders and the archive folders never coincide, whatever
      the timestamp. */
  lemma StagingAndArchiveDistinct(v: Variant, stamp: Timestamp)
    ensures GoodDir(v) != BadDir(v)
    ensures ArchiveDir(v, stamp) != BadDir(v) && ArchiveDir(v, stamp) != GoodDir(v)
    ensures ArchiveRoot(v) != BadDir(v) && ArchiveRoot(v) != GoodDir(v)
    ensures ArchiveDir(v, stamp) != ArchiveRoot(v)
  {
    var a := ArchiveDir(v, stamp);
    var g, b := GoodDir(v), BadDir(v);
    assert g[|g| - 8] != b[|b| - 8];
    match v
    case Prediction =>
      assert a[10] != b[10] && a[10] != g[10];
    case Training =>
      assert a[8] != b[8] && a[8] != g[8];
  }
}
