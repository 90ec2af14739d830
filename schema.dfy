/** `valuesFromSchema`, identical in both pipelines: read five keys of the
    schema document in a fixed order and return four of them. The document
    is taken already parsed; the values are returned as they are, without
    any check of their types or of `NumberofColumns` against `ColName`. */
module Schema {
  import opened Common

  /** A JSON value as it can appear in the schema document. */
  datatype SchemaValue =
    | Number(n: int)
    | Text(s: string)
    | Columns(entries: seq<(string, string)>)   // an object of column name -> SQL type

  type SchemaDoc = map<string, SchemaValue>

  /** The tuple `(LengthOfDateStampInFile, LengthOfTimeStampInFile,
      column_names, NumberofColumns)`. */
  datatype SchemaValues = SchemaValues(
    dateStampLength: SchemaValue,
    timeStampLength: SchemaValue,
    columnNames: SchemaValue,
    columnCount: SchemaValue)

  /** The keys in the order the source looks them up; `SampleFileName` is
      read (and must exist) although its value is never used. */
  const RequiredKeys: seq<string> :=
    ["SampleFileName", "LengthOfDateStampInFile", "LengthOfTimeStampInFile", "ColName", "NumberofColumns"]

  /** The first of `keys` absent from `doc`: the key whose lookup raises. */
  function FirstMissing(doc: SchemaDoc, keys: seq<string>): (r: Option<string>)
    ensures r.None? ==> forall i :: 0 <= i < |keys| ==> keys[i] in doc
    ensures r.Some? ==> exists i :: 0 <= i < |keys| && keys[i] == r.value && r.value !in doc
                                    && forall m :: 0 <= m < i ==> keys[m] in doc
  {
    if keys == [] then None
    else if keys[0] !in doc then Some(keys[0])
    else
      var r := FirstMissing(doc, keys[1..]);
      assert r.Some? ==> exists i :: 0 <= i < |keys[1..]| && keys[1..][i] == r.value && r.value !in doc
                                    && forall m :: 0 <= m < i ==> keys[1..][m] in doc;
      assert r.Some? ==> exists i :: 1 <= i < |keys| && keys[i] == r.value && r.value !in doc
                                    && forall m :: 0 <= m < i ==> keys[m] in doc;
      r
  }

  function ValuesFromSchema(doc: SchemaDoc): Result<SchemaValues>
  {
    match FirstMissing(doc, RequiredKeys)
    case Some(key) => Err(KeyError(key))
    case None =>
      assert RequiredKeys[1] in doc && RequiredKeys[2] in doc && RequiredKeys[3] in doc && RequiredKeys[4] in doc;
      Ok(SchemaValues(
        doc["LengthOfDateStampInFile"],
        doc["LengthOfTimeStampInFile"],
        doc["ColName"],
        doc["NumberofColumns"]))
  }

  /** The lookup succeeds exactly when all five keys are present, and then
      returns the four values stored under their keys. */
  lemma ValuesFromSchemaSucceeds(doc: SchemaDoc)
    ensures ValuesFromSchema(doc).Ok? <==> forall key :: key in RequiredKeys ==> key in doc
    ensures ValuesFromSchema(doc).Ok? ==>
      ValuesFromSchema(doc).value == SchemaValues(
        doc["LengthOfDateStampInFile"], doc["LengthOfTimeStampInFile"], doc["ColName"], doc["NumberofColumns"])
  {
    if FirstMissing(doc, RequiredKeys).Some? {
      var i :| 0 <= i < |RequiredKeys| && RequiredKeys[i] == FirstMissing(doc, RequiredKeys).value
               && RequiredKeys[i] !in doc;
      assert RequiredKeys[i] in RequiredKeys;
    }
  }

  /** Otherwise it raises `KeyError` for the first missing key in lookup
      order, every key before it being present. */
  lemma ValuesFromSchemaRaises(doc: SchemaDoc)
    ensures ValuesFromSchema(doc).Err? ==>
      exists i :: 0 <= i < |RequiredKeys| && ValuesFromSchema(doc).error == KeyError(RequiredKeys[i])
               && RequiredKeys[i] !in doc && forall m :: 0 <= m < i ==> RequiredKeys[m] in doc
  {
  }

  /** A document without the unused `SampleFileName` is still refused. */
  lemma SampleFileNameRequired(doc: SchemaDoc)
    requires "SampleFileName" !in doc
    ensures ValuesFromSchema(doc) == Err(KeyError("SampleFileName"))
  {
  }
}
