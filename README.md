# Phishing-classifier raw-batch pipeline, modelled in Dafny

This project models the raw-batch validation and ingestion pipeline of a
phishing-classifier repository. That pipeline runs in two variants,
prediction and training, which share their code shape. One model covers both,
with a `Variant` flag. The model also covers the lookup and storage of trained
model files.

The steps modelled:

- **Schema values** (`Schema`): `valuesFromSchema` reads five keys of the schema
  document in a fixed order. A missing key raises `KeyError`.
- **File-name classification** (`NamePattern`, `FileNames`):
  - The pattern `['phising']+['\_'']+[\d_]+[\d]+\.csv` is applied with
    `re.match`. A matcher is proved equal to the pattern read as four runs.
  - The verdict splits the name on the regex `.csv`, then on `_`, and compares
    the lengths of pieces 1 and 2 with the configured stamp lengths. `and`
    short-circuits, and a missing piece raises `IndexError`.
- **Staging folders and the batch copy** (`Files`, `Staging`):
  - `Good_Raw` and `Bad_Raw` are deleted and created.
  - Each listed batch file is copied to the staging folder its name selects,
    in listing order, until the first name whose classification raises.
- **Archive of rejected files** (`Staging`): every file of `Bad_Raw` moves to
  `<root>/BadData_<date>_<time>`, then `Bad_Raw` is removed.
  - Prediction creates the archive folder first and re-raises errors.
  - Training does nothing without `Bad_Raw` and swallows errors.
  - A name already in the archive folder stops the moves.
- **The table** (`Tables`):
  - `dataBaseConnection`: training wraps a `ConnectionError`.
  - `createTableDb`: its ALTER/CREATE column loop is modelled with SQLite's
    case-insensitive identifiers. Prediction drops the table first; training
    keeps an existing table.
  - A failed connection surfaces as the `UnboundLocalError` of `conn.close()`.
- **Loading** (`Loader`): `insertIntoTableGoodData` inserts every line after the
  header of every `Good_Raw` file, committing each row at once.
  - The first failure ends the whole load. The failing file moves to `Bad_Raw`,
    and the error is swallowed.
  - An empty file fails at `next(f)`, and an empty line at `line[0]`.
- **Export** (`Csv`, `Exporter`): `selectingDatafromtableintocsv` writes the
  table as `InputFile.csv`. It uses `QUOTE_ALL` fields, doubled quotes and
  CRLF record endings. The file is proved to read back, line by line, as the
  header and then the rows.
- **Model files** (`ModelFiles`):
  - `find_correct_model_file` is a scan over the listing of `models/` that
    writes the instance fields `file` and `model_name` as it goes.
  - `save_model` and `load_model` are modelled on the folder tree.

The file system is a class `Files.FileSystem` whose field `dirs` maps each
folder path to its files. Each file maps to its text. Methods that change the
file system or the database (`Tables.Database`) are proved against
specification functions of the old state. Each such method returns the
`os.listdir` order it used, so the specification can refer to it.

## Model

| member | source | states |
|---|---|---|
| Common.ArchiveDir | Prediction_Raw_Data_Validation/predictionDataValidation.py:104-108 | the archive folder of a run is `<root>/BadData_<date>_<time>`, a folder under the archive root |
| Common.StagingAndArchiveDistinct | Prediction_Raw_Data_Validation/predictionDataValidation.py:108-111 | the archive folder, the archive root, `Good_Raw` and `Bad_Raw` are four different folders for every timestamp, so the moves never target their own source |
| Schema.ValuesFromSchema | Prediction_Raw_Data_Validation/predictionDataValidation.py:21-48 | `valuesFromSchema`: the date length, time length, column list and column count of a parsed schema, or `KeyError` for the first absent key; its properties are the three lemmas below |
| Schema.FirstMissing | Prediction_Raw_Data_Validation/predictionDataValidation.py:30-34 | the lookup that raises is the first key in lookup order that is absent; every key before it is present; no result means every key is present |
| Schema.ValuesFromSchemaSucceeds | Prediction_Raw_Data_Validation/predictionDataValidation.py:27-40 | the schema read succeeds exactly when all five keys are present, and then returns the date length, time length, column object and column count stored under their keys |
| Schema.ValuesFromSchemaRaises | Prediction_Raw_Data_Validation/predictionDataValidation.py:30-45 | a failed read raises `KeyError` naming the first missing key in lookup order |
| Schema.SampleFileNameRequired | Prediction_Raw_Data_Validation/predictionDataValidation.py:30 | `SampleFileName` is looked up although never used, so a schema without it is refused |
| NamePattern.MatchesCorrect | Prediction_Raw_Data_Validation/predictionDataValidation.py:55 | the backtracking matcher accepts exactly the names formed by a name-letter run, a separator run, a digit-or-underscore run, a digit run and `.csv`, anchored at the start only |
| NamePattern.CsvSplitPoint | Prediction_Raw_Data_Validation/predictionDataValidation.py:138 | `re.split('.csv', s)[0]` ends at the leftmost match of the regex `.csv`, whose `.` is any character but a newline |
| NamePattern.StemOfMatch | Prediction_Raw_Data_Validation/predictionDataValidation.py:137-138 | for a matching name, the split on `.csv` cuts exactly where the pattern's `.csv` begins |
| FileNames.NameVerdict | Prediction_Raw_Data_Validation/predictionDataValidation.py:137-147 | the per-name decision of the copy loop: `Bad` when the pattern does not match, else the stamp-length test on pieces 1 and 2 of the text before `.csv`, `IndexError` when a piece is missing; characterised by the lemmas below |
| FileNames.GoodIff | Prediction_Raw_Data_Validation/predictionDataValidation.py:137-142 | a file is copied to `Good_Raw` exactly when its name matches and the text before `.csv` has piece 1 of the date length and piece 2 of the time length |
| FileNames.RaisesIff | Prediction_Raw_Data_Validation/predictionDataValidation.py:139-140 | classification raises, and then always with `IndexError`, exactly when a matching name lacks piece 1, or lacks piece 2 after piece 1 fits |
| FileNames.UnmatchedIsBad | Prediction_Raw_Data_Validation/predictionDataValidation.py:146-148 | a name the pattern rejects goes to `Bad_Raw` whatever the stamp lengths |
| FileNames.VerdictOfPieces | Prediction_Raw_Data_Validation/predictionDataValidation.py:138-140 | for a matching name, the pieces the verdict reads are those of the text before the pattern's `.csv` |
| FileNames.ExampleWellFormed | Prediction_Raw_Data_Validation/predictionDataValidation.py:140-145 | `phising_20230101_120000.csv` is Good with lengths 8 and 6, and Bad with date length 6 |
| FileNames.ExampleNoStamps | Prediction_Raw_Data_Validation/predictionDataValidation.py:146-148 | `random.csv` is Bad for any lengths |
| FileNames.ExampleMissingTime | Prediction_Raw_Data_Validation/predictionDataValidation.py:139-140 | `phising_20230101.csv` raises `IndexError` when the date fits, and is Bad when it does not (short-circuit) |
| FileNames.ExampleApostrophe | Prediction_Raw_Data_Validation/predictionDataValidation.py:137-140 | `p'12.csv` matches through the apostrophe separator, has no `_` piece, and raises `IndexError` |
| Files.CopyFile | Prediction_Raw_Data_Validation/predictionDataValidation.py:141 | `shutil.copy` into a folder: the destination gains the file under the same name with the same content, replacing a same-named file; nothing else changes |
| Files.MoveFile | DataTypeValidation_Insertion_Prediction/DataTypeValidationPrediction.py:124 | `shutil.move` of one file into a folder: the file leaves the source and appears in the destination with its content |
| Files.Moved | Prediction_Raw_Data_Validation/predictionDataValidation.py:112-113 | the tree after a prefix of the listing has been moved: the moved files gone from the source and added to the destination; its properties are `MovedStep`, `MovedWhole` and `MovedConserves` |
| Files.ListDir | Prediction_Raw_Data_Validation/predictionDataValidation.py:136 | the listing holds every file of the folder exactly once, in an order left open |
| Files.EnsureDir | Prediction_Raw_Data_Validation/predictionDataValidation.py:65-66 | after the conditional `makedirs` the folder exists, keeping its files if it existed; no other folder changes |
| Files.MovedWhole | Prediction_Raw_Data_Validation/predictionDataValidation.py:112-113 | moving every listed file empties the source into the destination; other folders are unchanged |
| Files.MovedConserves | Prediction_Raw_Data_Validation/predictionDataValidation.py:112-113 | at any point of the moves, each source file is, with its content, still in the source if not yet moved, else in the destination; a moved file has left the source; an unmoved file is in the destination only if the destination held that name before; nothing else appears |
| Staging.CreatedGoodBadKeeps | Prediction_Raw_Data_Validation/predictionDataValidation.py:63-66 | afterwards both staging folders exist; existing folders keep their files; nothing else appears; a second call changes nothing |
| Staging.CreateDirectoryForGoodBadRawData | Training_Raw_data_validation/rawValidation.py:76-82 | the new tree is the old one with each missing staging folder created |
| Staging.CreatedGoodBad | Training_Raw_data_validation/rawValidation.py:76-82 | each staging folder made only when missing; stated by `CreatedGoodBadKeeps` |
| Staging.DeleteExistingGoodDataTrainingFolder | Prediction_Raw_Data_Validation/predictionDataValidation.py:77-79 | the new tree is the old one without `Good_Raw` |
| Staging.DeleteExistingBadDataTrainingFolder | Prediction_Raw_Data_Validation/predictionDataValidation.py:91-93 | the new tree is the old one without `Bad_Raw` |
| Staging.RemoveDirEffect | Prediction_Raw_Data_Validation/predictionDataValidation.py:78-79 | the deleted folder is gone with its files; every other folder is unchanged; deleting an absent folder changes nothing |
| Files.RemoveDir | Prediction_Raw_Data_Validation/predictionDataValidation.py:78-79 | `rmtree` of a folder, nothing when it is absent; stated by `RemoveDirEffect` |
| Staging.ResetStagingEmpties | Prediction_Raw_Data_Validation/predictionDataValidation.py:131-133 | after delete, delete, create, both staging folders exist and are empty whatever they held; no other folder is touched |
| Staging.ResetStaging | Prediction_Raw_Data_Validation/predictionDataValidation.py:131-133 | delete `Bad_Raw`, delete `Good_Raw`, create both; stated by `ResetStagingEmpties` |
| Staging.FirstRaising | Prediction_Raw_Data_Validation/predictionDataValidation.py:136-140 | the position of the first listed name whose classification raises (for the copy loop, the classification is the file-name verdict); every earlier name classifies |
| Staging.FirstRaisingIs | Prediction_Raw_Data_Validation/predictionDataValidation.py:136-140 | a position before which every name classifies and at which the name raises (or the end of the listing) is the first raising position: that position is unique |
| Staging.CopySpecAt | Prediction_Raw_Data_Validation/predictionDataValidation.py:136-151 | wherever the copy loop stops, having copied every name before it and found a raising name or the end there, the copy specification is the tree with those files copied and the outcome that name's error, or success at the end |
| Staging.CopyListed | Prediction_Raw_Data_Validation/predictionDataValidation.py:136-148 | the copy loop leaves the tree the copy specification gives for the listing, and fails with the error of the first raising name |
| Staging.CopySpec | Prediction_Raw_Data_Validation/predictionDataValidation.py:136-148 | the listed batch files copied to the staging folder of their verdict up to the first name whose classification raises, which ends the loop with that error; stated by `ValidationPartitions` and `ValidationAborts` |
| Staging.ValidationFileNameRaw | Prediction_Raw_Data_Validation/predictionDataValidation.py:122-151 | the returned listing is a listing of the batch folder, and the new tree and outcome are the validation specification of the old tree and that listing |
| Staging.ValidationSpec | Prediction_Raw_Data_Validation/predictionDataValidation.py:122-151 | reset of the staging folders, `OSError` for a missing batch folder, then the copy loop with the schema's stamp lengths; stated by `ValidationPartitions`, `ValidationAborts` and `ValidationMissingBatch` |
| Staging.ValidationPartitions | Prediction_Raw_Data_Validation/predictionDataValidation.py:136-148 | when nothing raises, every batch file is copied, with its content, to exactly the staging folder its verdict names; the staging folders hold nothing else; every other folder, the batch included, is unchanged |
| Staging.ValidationAborts | Prediction_Raw_Data_Validation/predictionDataValidation.py:139-151 | when a name raises, the error is `IndexError`, and the staged files are exactly those listed before the raising name |
| Staging.ValidationMissingBatch | Prediction_Raw_Data_Validation/predictionDataValidation.py:131-136 | a missing batch folder raises `OSError` after the staging folders were reset |
| Staging.MoveListed | Prediction_Raw_Data_Validation/predictionDataValidation.py:111-116 | the move loop and removal of `Bad_Raw` give the tree and outcome of the move specification for the listing it returns |
| Staging.MoveAndRemove | Prediction_Raw_Data_Validation/predictionDataValidation.py:111-116 | the moves into the archive folder up to the first name it already holds, which raises; without a clash `Bad_Raw` is then removed; stated by `ArchiveMovesAll` and `ArchiveClash` |
| Staging.MoveBadFilesToArchiveBad | Prediction_Raw_Data_Validation/predictionDataValidation.py:99-120 | the new tree and outcome are the archive specification of the old tree, the variant, the timestamp and the returned listing of `Bad_Raw` |
| Staging.ArchiveSpec | Prediction_Raw_Data_Validation/predictionDataValidation.py:99-120 | prediction creates the archive folder first, raises `OSError` without `Bad_Raw` and re-raises a clash; training (Training_Raw_data_validation/rawValidation.py:134-149) does nothing without `Bad_Raw` and swallows errors; stated by `ArchiveMovesAll`, `PredictionArchiveWithoutBad`, `TrainingArchiveQuiet` and `ArchiveClash` |
| Staging.ArchiveMovesAll | Prediction_Raw_Data_Validation/predictionDataValidation.py:108-116 | without name clashes every rejected file ends up in the archive folder with its content; `Bad_Raw` is gone; other folders are unchanged |
| Staging.PredictionArchiveWithoutBad | Prediction_Raw_Data_Validation/predictionDataValidation.py:108-113 | prediction without `Bad_Raw` still creates the archive folder, then raises |
| Staging.PredictionSecondArchiveFails | Prediction_Raw_Data_Validation/predictionDataValidation.py:111-116 | after a successful prediction archive `Bad_Raw` is gone, so the next archive run raises, whatever its timestamp |
| Staging.TrainingArchiveQuiet | Training_Raw_data_validation/rawValidation.py:134-149 | training archiving never raises, and without `Bad_Raw` it changes nothing |
| Staging.ArchiveClash | Prediction_Raw_Data_Validation/predictionDataValidation.py:112-120 | a clash stops the moves; prediction raises the clash and training swallows it; the clashing file and those after it stay in `Bad_Raw` with their content |
| Tables.DataBaseConnection | DataTypeValidation_Insertion_Training/DataTypeValidation.py:37-47 | the connection fails exactly when connecting fails; training re-raises a `ConnectionError` with the message prefixed by `Error while connecting to database: `; anything else propagates as it was |
| Tables.AddColumn | DataTypeValidation_Insertion_Prediction/DataTypeValidationPrediction.py:62-69 | one ALTER-or-CREATE step fails exactly when the table exists and already has a column of that name ignoring ASCII case; otherwise the column is appended |
| Tables.CreateTableDb | DataTypeValidation_Insertion_Prediction/DataTypeValidationPrediction.py:47-89 | the new table and outcome are the create specification of the old table, the variant, the connection and the columns |
| Tables.CreateTableSpec | DataTypeValidation_Insertion_Prediction/DataTypeValidationPrediction.py:47-89 | a failed connection raises `UnboundLocalError` from `conn.close()`; prediction drops and rebuilds the table, training keeps an existing one; stated by `PredictionRebuilds`, `TrainingKeeps`, `TrainingBuildsWhenAbsent` and `CreateTableNoConnection` |
| Tables.BuildColumnsSucceeds | DataTypeValidation_Insertion_Prediction/DataTypeValidationPrediction.py:62-69 | the column loop succeeds exactly when no two names clash, and then the table has every column in order, with its type |
| Tables.BuildColumns | DataTypeValidation_Insertion_Prediction/DataTypeValidationPrediction.py:62-69 | the column loop, each statement committed as it runs, stopping at the first that raises; stated by `BuildColumnsSucceeds` and `BuildColumnsClash` |
| Tables.BuildColumnsClash | DataTypeValidation_Insertion_Prediction/DataTypeValidationPrediction.py:62-69 | on a clash the loop fails with the CREATE's `table Good_Raw_Data already exists`, keeping the columns before the clashing one |
| Tables.PredictionRebuilds | DataTypeValidation_Insertion_Prediction/DataTypeValidationPrediction.py:58-69 | prediction always ends with an empty table; with clash-free names it has exactly the schema's columns, and it succeeds exactly then |
| Tables.TrainingKeeps | DataTypeValidation_Insertion_Training/DataTypeValidation.py:60-69 | training keeps an existing table, rows included, so a second call changes nothing |
| Tables.TrainingBuildsWhenAbsent | DataTypeValidation_Insertion_Training/DataTypeValidation.py:70-75 | training without a table builds it as prediction does |
| Tables.CreateTableNoConnection | DataTypeValidation_Insertion_Prediction/DataTypeValidationPrediction.py:58-89 | a failed connection changes nothing and raises `UnboundLocalError` for `conn` |
| Loader.LoadLines | DataTypeValidation_Insertion_Prediction/DataTypeValidationPrediction.py:113-117 | the per-line insert loop of one file, each row committed at once, stopping at the first line that raises; its contents are stated by `LoadLinesRows` |
| Loader.LoadFile | DataTypeValidation_Insertion_Prediction/DataTypeValidationPrediction.py:110-117 | one file: `next(f)` raises on an empty file, otherwise the lines after the header are inserted |
| Loader.LoadFiles | DataTypeValidation_Insertion_Prediction/DataTypeValidationPrediction.py:109-119 | the file loop: the listed files of `Good_Raw` loaded in listing order, stopping at the first whose load raises and naming it; what it commits and where it stops are stated by `LoadFilesRows`, `LoadedRowsPrefix` and `FailingFileFirst` |
| Loader.InsertRow | DataTypeValidation_Insertion_Prediction/DataTypeValidationPrediction.py:113-115 | an insert adds a row only for a non-empty line, into an existing table, with a value list of the table's width |
| Loader.Accepted | DataTypeValidation_Insertion_Prediction/DataTypeValidationPrediction.py:114 | an INSERT of a line succeeds exactly when the line is non-empty, parses, and fills every column; the row is the parsed value, whatever rows the table already holds |
| Loader.FirstRejected | DataTypeValidation_Insertion_Prediction/DataTypeValidationPrediction.py:113-118 | the position of the first line the table rejects; every earlier line is accepted |
| Loader.LoadLinesRows | DataTypeValidation_Insertion_Prediction/DataTypeValidationPrediction.py:113-118 | loading lines into a table appends, in order, the parsed values of every line before the first rejected one and nothing else; success exactly when no line is rejected |
| Loader.LoadFileRows | DataTypeValidation_Insertion_Prediction/DataTypeValidationPrediction.py:110-118 | loading one file appends the rows its data lines commit; success exactly when the file has a header and no data line is rejected |
| Loader.FirstFailing | DataTypeValidation_Insertion_Prediction/DataTypeValidationPrediction.py:109-118 | the position of the first file that does not load in full; every earlier file does |
| Loader.LoadFilesRows | DataTypeValidation_Insertion_Prediction/DataTypeValidationPrediction.py:109-125 | after a whole load the rows are the old rows followed by the committed rows of `LoadedRows` (a failure takes no committed row back), and the load reports the failing file of `FailingFile` |
| Loader.LoadedRowsPrefix | DataTypeValidation_Insertion_Prediction/DataTypeValidationPrediction.py:109-118 | the committed rows are those of the listed files up to and including the first that does not load in full, in listing order, each file contributing its data lines before its first rejected one; later files contribute nothing |
| Loader.FailingFileFirst | DataTypeValidation_Insertion_Prediction/DataTypeValidationPrediction.py:109-121 | the file a load stops at is exactly the first listed file that does not load in full, and there is none when every file loads |
| Loader.InsertLines | DataTypeValidation_Insertion_Prediction/DataTypeValidationPrediction.py:112-119 | the line loop leaves the table and success flag of the line-load specification |
| Loader.InsertFiles | DataTypeValidation_Insertion_Prediction/DataTypeValidationPrediction.py:108-119 | the file loop leaves the table and failing file of the file-load specification |
| Loader.InsertIntoTableGoodData | DataTypeValidation_Insertion_Prediction/DataTypeValidationPrediction.py:91-129 | the returned listing is a listing of `Good_Raw`, and the table, tree and outcome are the insert specification of the old state and that listing |
| Loader.InsertSpec | DataTypeValidation_Insertion_Prediction/DataTypeValidationPrediction.py:91-129 | `insertIntoTableGoodData` as a whole: a failed connection or a missing `Good_Raw` raises before the `try`; otherwise the files load, the failing file, if any, moves to `Bad_Raw` and its error is swallowed, and a name clash there raises; stated by `InsertMovesOnlyFailing` and `LoadFilesRows` |
| Loader.LoadLinesKeeps | DataTypeValidation_Insertion_Prediction/DataTypeValidationPrediction.py:113-117 | inserting keeps the columns and the committed rows as a prefix, adds at most one row per line, and keeps every row the table's width |
| Loader.LoadFilesKeeps | DataTypeValidation_Insertion_Prediction/DataTypeValidationPrediction.py:108-122 | a whole load, failed or not, keeps the columns and every row present before it, and every row fills every column |
| Loader.LoadFilesFailed | DataTypeValidation_Insertion_Prediction/DataTypeValidationPrediction.py:108-124 | a failed load names a listed file; every file before it loaded in full, and it is the file whose load failed |
| Loader.LoadFilesStops | DataTypeValidation_Insertion_Prediction/DataTypeValidationPrediction.py:108-121 | after a failing file, the files listed later are never read |
| Loader.EmptyAndHeaderOnly | DataTypeValidation_Insertion_Prediction/DataTypeValidationPrediction.py:110-113 | an empty file fails at the header skip; a file holding only a header, with or without a line ending, adds nothing and succeeds |
| Loader.NoTableNoRows | DataTypeValidation_Insertion_Prediction/DataTypeValidationPrediction.py:115 | without the table the first data line fails |
| Loader.InsertMovesOnlyFailing | DataTypeValidation_Insertion_Prediction/DataTypeValidationPrediction.py:121-125 | on success no folder changes; after a failure only the failing file moves to `Bad_Raw` with its content and the error is swallowed; a name clash in `Bad_Raw` raises instead |
| Csv.FormatRecord | DataTypeValidation_Insertion_Prediction/DataTypeValidationPrediction.py:162-167 | one record as `csv.writer` with `QUOTE_ALL` writes it: each field quoted with inner quotes doubled, fields joined by commas; read back by `RecordRoundTrip` |
| Csv.Document | DataTypeValidation_Insertion_Prediction/DataTypeValidationPrediction.py:162-167 | the exported file: the header record, then one record per row, each ended by CRLF; read back by `DocumentReadsBack` |
| Csv.RecordRoundTrip | DataTypeValidation_Insertion_Prediction/DataTypeValidationPrediction.py:162-163 | a record written with all fields quoted and quotes doubled reads back as its fields |
| Csv.DocumentReadsBack | DataTypeValidation_Insertion_Prediction/DataTypeValidationPrediction.py:162-167 | the written file has one line per record, header first, and each line reads back as the header or its row |
| Exporter.ColumnNames | DataTypeValidation_Insertion_Prediction/DataTypeValidationPrediction.py:155 | the header holds the table's column names, in table order |
| Exporter.SelectingDatafromtableintocsv | DataTypeValidation_Insertion_Prediction/DataTypeValidationPrediction.py:131-177 | the new tree and outcome are the export specification of the table, the old tree, the variant and the connection |
| Exporter.ExportSpec | DataTypeValidation_Insertion_Prediction/DataTypeValidationPrediction.py:131-177 | `UnboundLocalError` after a failed connection, the SELECT's error without the table, otherwise the export folder made when absent and the file written over any earlier one; stated by `ExportReadsBack`, `ExportKeepsOthers`, `ExportFailure` and `ExportTwice` |
| Exporter.ExportReadsBack | DataTypeValidation_Insertion_Prediction/DataTypeValidationPrediction.py:146-167 | the export succeeds exactly when the connection opens and the table exists, and then the file reads back as the column names followed by every row in order |
| Exporter.ExportKeepsOthers | DataTypeValidation_Insertion_Prediction/DataTypeValidationPrediction.py:158-163 | every other folder, and every other file of the export folder, keeps its content |
| Exporter.ExportFailure | DataTypeValidation_Insertion_Prediction/DataTypeValidationPrediction.py:146-176 | a failed export changes nothing: a failed connection raises `UnboundLocalError` from the `finally` clause, and a missing table raises `no such table` |
| Exporter.ExportTwice | DataTypeValidation_Insertion_Training/DataTypeValidation.py:157-161 | exporting again overwrites the earlier file, so two exports equal one |
| ModelFiles.Stem | file_operations/file_methods.py:85 | the model name is the entry up to its first dot, or all of it, and holds no dot |
| ModelFiles.StemExample | file_operations/file_methods.py:85 | `RandomForest2.sav` names `RandomForest2` |
| ModelFiles.FirstContaining | file_operations/file_methods.py:83-84 | the position of the first entry containing the key; no earlier entry contains it |
| ModelFiles.FileOperation.FindCorrectModelFile | file_operations/file_methods.py:66-91 | the result is the lookup specification; on success `model_name` is the result and `file` is the matching entry; on failure `model_name` is unchanged and `file` is the last entry scanned |
| ModelFiles.ModelFileFor | file_operations/file_methods.py:80-91 | the lookup over the listing of `models/`: the stem of the first entry containing `str(cluster_number)`, the not-found exception with the source's message when none does, `OSError` when the folder is missing; stated by `ModelFileFirstMatch` and `SaveThenFind` |
| ModelFiles.ModelFileFirstMatch | file_operations/file_methods.py:82-88 | the lookup succeeds exactly when an entry contains the decimal cluster number, returning the first such entry cut at its first dot; otherwise it raises `No model file found for cluster number <n>` |
| ModelFiles.SubstringMatchExample | file_operations/file_methods.py:84 | cluster 1 is served by `XGBoost10` when that entry is listed before `SVM1` |
| ModelFiles.SaveModel | file_operations/file_methods.py:15-41 | the new tree and result are the save specification of the old tree |
| ModelFiles.SaveSpec | file_operations/file_methods.py:29-38 | the save: an existing model path reaches the unimported `shutil` and raises `NameError` with nothing changed; otherwise `models/<name>/<name>.sav` holds the model and the result is `'success'`; stated by `SaveThenLoad`, `SaveListsName` and `SaveTwiceFails` |
| ModelFiles.LoadModel | file_operations/file_methods.py:43-64 | the result is the pickle file of the model's folder, or the error of the missing file |
| ModelFiles.LoadSpec | file_operations/file_methods.py:58 | the load: the content of `models/<name>/<name>.sav`, or the error of `open` when it is missing; stated by `SaveThenLoad` |
| ModelFiles.SaveThenLoad | file_operations/file_methods.py:31-61 | a new model saved and then loaded comes back unchanged, and no other folder changes |
| ModelFiles.SaveListsName | file_operations/file_methods.py:31-36 | after a save of a new name, what `models/` lists is what it listed before plus that name |
| ModelFiles.SaveThenFind | file_operations/file_methods.py:31-88 | a model saved under a dot-free name containing the cluster number, where no stored model matches that number, is what the lookup picks for the cluster in any listing order of `models/`, and loading that name gives the saved model |
| ModelFiles.SaveTwiceFails | file_operations/file_methods.py:32-33 | saving a model name that exists raises `NameError` and changes nothing, so a second save always fails |
| ModelFiles.SaveReplacingThenLoad | file_operations/file_methods.py:31-38 | with `shutil` available, saving always succeeds unless a plain file is in the way, and the latest model saved is the one loaded |
| ModelFiles.SaveReplacing | file_operations/file_methods.py:31-38 | the save as intended, with `shutil` imported: an existing model folder is replaced, a plain file of that name makes `rmtree` raise; stated by `SaveReplacingThenLoad` |
| Text.TextLines | DataTypeValidation_Insertion_Prediction/DataTypeValidationPrediction.py:111-113 | the lines `next(f)` and the line reader see: text split at `\n`, `\r` or `\r\n`, without the breaks, no empty line after a final break; `TextLinesOfCrlf` reads CRLF-ended records back |
| Text.DigitsRoundTrip | file_operations/file_methods.py:84 | the decimal digits `str` writes for a non-negative cluster number read back as that number |
| Text.DecimalStringInjective | file_operations/file_methods.py:84 | `str` of two cluster numbers is the same string only when the numbers are equal, so distinct clusters search for distinct keys |
| Text.Split | Prediction_Raw_Data_Validation/predictionDataValidation.py:139 | `re.split('_', …)` with a one-character literal pattern: at least one piece, and no piece holds the separator |
| Text.Contains | file_operations/file_methods.py:84 | `in` on strings: the key occurs at some position of the entry; stated through `FirstContaining` |
| Text.DecimalString | file_operations/file_methods.py:84 | `str(cluster_number)`, with a minus sign for a negative number; stated by `DecimalStringInjective` |

## Findings

| source | as written | input that shows it | evidently intended | confidence | as-written member | corrected member |
|---|---|---|---|---|---|---|
| file_operations/file_methods.py:33 | `shutil.rmtree` is called, but the file never imports `shutil`, so re-saving raises `NameError` | `save_model(m, "KMeans")` when `models/KMeans` exists | remove the old folder and save the new model | high, not executed | ModelFiles.SaveTwiceFails | ModelFiles.SaveReplacingThenLoad |

## Left out

- Logging is taken as writing nothing and never failing. In the source, several log calls would fail:
  - Prediction's `valuesFromSchema` and the staging methods pass a path string where the logger expects an open file.
  - Training's `Raw_Data_validation` calls `self._log_message`, which it never defines, so each such call raises `AttributeError`. The model runs these methods as if the call logged nothing:
    - `valuesFromSchema` (Training_Raw_data_validation/rawValidation.py:46) raises after reading the values, and its handlers (:49, :53) raise again.
    - The archive method calls it (:145) after the moves but before `shutil.rmtree(source)` (:146), so `Bad_Raw` is never removed. Its handler (:148-149) calls it again, so `AttributeError` propagates. A name clash during the moves also ends in that `AttributeError` rather than being swallowed. `Staging.TrainingArchiveQuiet` and `Staging.ArchiveClash` describe the archive as if the call logged nothing.
    - The two delete methods call it (:101, :117) right after removing an existing folder, so they raise `AttributeError` once the folder is gone.
    - The create method calls it (:85) only in its `OSError` handler, which the model never reaches.
- Staging.TrainingArchiveQuiet: states that training archiving never raises and removes `Bad_Raw`, the behaviour if `_log_message` logged nothing. As written, Training_Raw_data_validation/rawValidation.py:145 raises `AttributeError` before the `rmtree` at :146, so `Bad_Raw` stays and the error propagates from the handler at :148-149.
- Staging.ArchiveClash: its training half, "training swallows the clash", holds under the same reading only; as written the handler's own `_log_message` call raises `AttributeError`.
- `re.match`'s `\d` matches every Unicode decimal digit. The model takes ASCII digits only.
- The schema document is taken already parsed. JSON parsing, a missing or unreadable schema file, and the types of the values are not modelled.
- `str(int)` of a negative cluster number is modelled; non-integer cluster values are not.
- SQL is not parsed:
  - Whether an INSERT succeeds is the caller-supplied `parse` plus the table's width.
  - Column types and type affinity are not modelled, so rows are stored and exported as text.
  - Transactions are not modelled beyond "each row is committed at once", so rollback has nothing to undo.
  - Prediction's CREATE leaves the first column name unquoted. The model treats it like the quoted name.
- `csv.reader` with `delimiter="\n"` strips quotes from a data line before it is used. The line is treated as opaque text given to `parse`.
- Loader.LoadFile: one INSERT per physical line after the header. `csv.reader` (DataTypeValidation_Insertion_Prediction/DataTypeValidationPrediction.py:112) keeps reading across line breaks while a quoted field is open, so the data lines `"a` and `b"` give one INSERT in the source and two in the model. Records spanning lines are not modelled.
- Staging.ValidationFileNameRaw: has no `regex` argument. It always applies the pattern `manualRegexCreation` returns (Prediction_Raw_Data_Validation/predictionDataValidation.py:55), which is what `NamePattern` decides. A caller passing another pattern is not modelled, because a general regular-expression matcher is outside this model.
- The backslash `escapechar` of the export writer is not modelled; its effect depends on the Python version. Only quote doubling is modelled.
- Files live in a flat map from folder path to files:
  - Subfolders and nested `rmtree` are not modelled.
  - Intermediate folders created by `makedirs` are not tracked, except training's archive root.
  - Paths are not normalised, so a trailing slash or `""` as a model name is not resolved the way `os.path` would.
- Loader.InsertIntoTableGoodData: requires `Bad_Raw` to exist. Without it, `shutil.move` would rename the failing file to a plain file named `Bad_Raw`, which the flat tree cannot express.
- OS-level failures of `makedirs`, `rmtree`, `copy`, `open` and file writes are not modelled (permissions, disk full, a file where a folder is expected). Training's create and delete methods re-raise such failures as a bare `OSError`; that path is not modelled.
- `pickle` serialisation is not modelled. A model is the text stored in its `.sav` file.
- The prediction export never closes its writer handle. The model takes the file as fully written.
- Closing the connection and the log file in the `finally` blocks (DataTypeValidation_Insertion_Prediction/DataTypeValidationPrediction.py:127-129 and :175-177) is not modelled, because closing changes neither the table nor the folders. What is modelled is the `UnboundLocalError` that `conn.close()` raises in the export after a failed connection.
- ModelFiles.ModelFileFor: takes the `os.listdir('models/')` result as a parameter, and so does `FindCorrectModelFile`. The link to the folders that `SaveModel` updates is stated only by `IsModelListing`, in `SaveThenFind`.
- Training's file-name classifier, and its `validationFileNameRaw`, are not part of this model: the training source has no `validationFileNameRaw`.
- The callers (`main.py`, `trainingModel.py`), and the preprocessing, clustering and tuning code, are not part of this model.
- The clock is a `Timestamp` parameter. The `os.listdir` order is chosen by `Files.ListDir` and returned by the methods.
- Whether `sqlite3.connect` succeeds is an `Outcome` parameter.
- The database is a single optional table; other tables in the file are ignored.
- Prediction's unconditional `rmtree` of `Bad_Raw` after the moves is modelled; its `isdir` guard always holds there.
