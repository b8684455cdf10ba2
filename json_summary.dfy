/** The summary of the JSON pipeline. The file is given as the value `json.load` decodes
    from it. */
module JsonSummary {
  import opened Outcomes
  import opened Decimal

  /** A decoded JSON value; an object is a Python `dict`, so a key occurs at most once. */
  datatype Json =
    | Null
    | Bool(b: bool)
    | Number(literal: string)
    | Str(s: string)
    | Array(items: seq<Json>)
    | Object(fields: map<string, Json>)

  const PeopleKey: string := "people"
  const RecordsLabel: string := "Number of records: "

  /** `len(v)`: lists, objects and strings have a length; anything else raises `TypeError`. */
  function Length(v: Json): (r: Result<nat, Escaped>)
    ensures r.Ok? <==> v.Array? || v.Object? || v.Str?
    ensures r.Err? ==> r.error == TypeError
  {
    match v
    case Array(items) => Ok(|items|)
    case Object(fields) => Ok(|fields|)
    case Str(s) => Ok(|s|)
    case _ => Err(TypeError)
  }

  /** `len(data.get('people', []))`. A top level that is not an object has no `.get` and
      raises `AttributeError`; neither is caught by `process_json_file`. */
  function RecordCount(data: Json): (r: Result<nat, Escaped>)
    ensures !data.Object? ==> r == Err(AttributeError)
    ensures data.Object? && PeopleKey !in data.fields ==> r == Ok(0)
    ensures data.Object? && PeopleKey in data.fields ==> r == Length(data.fields[PeopleKey])
  {
    match data
    case Object(fields) => if PeopleKey in fields then Length(fields[PeopleKey]) else Ok(0)
    case _ => Err(AttributeError)
  }

  /** What `process_json_file` writes. */
  function Summarize(data: Json): (r: Result<string, Escaped>)
  {
    match RecordCount(data)
    case Ok(n) => Ok(RecordsLabel + NatToString(n) + "\n")
    case Err(e) => Err(e)
  }

  /** Reads a summary back as its record count. */
  function ReadSummary(s: string): Option<nat>
  {
    var n := |RecordsLabel|;
    if |s| < n || s[..n] != RecordsLabel then None
    else
      match ReadCount(s[n..])
      case Some((count, k)) => if n + k == |s| then Some(count) else None
      case None => None
  }

  /** The summary fails exactly when the top level is not an object or its `people`
      value has no length; otherwise it reads back as that length, or 0 when the key
      is absent. */
  lemma SummarizeMeaning(data: Json)
    ensures Summarize(data).Err? <==>
      !data.Object? || (PeopleKey in data.fields && Length(data.fields[PeopleKey]).Err?)
    ensures Summarize(data).Ok? ==> ReadSummary(Summarize(data).value) == Some(RecordCount(data).value)
    ensures Summarize(data).Ok? && PeopleKey !in data.fields ==> ReadSummary(Summarize(data).value) == Some(0)
  {
    if Summarize(data).Ok? {
      var n := RecordCount(data).value;
      var s := Summarize(data).value;
      assert s[..|RecordsLabel|] == RecordsLabel;
      assert s[|RecordsLabel|..] == NatToString(n) + "\n" + "";
      ReadCountOf(n, "");
    }
  }

  /** `{"people": [{"name": "x"}, {"name": "y"}]}` has two records. */
  lemma ExampleTwoPeople(data: Json)
    requires data == Object(map[PeopleKey := Array([Object(map["name" := Str("x")]), Object(map["name" := Str("y")])])])
    ensures Summarize(data) == Ok("Number of records: 2\n")
  {
    assert RecordCount(data) == Ok(2);
    assert NatToString(2) == "2";
    assert RecordsLabel + "2" + "\n" == "Number of records: 2\n";
  }

  /** `{}` has no records, and is not an error. */
  lemma ExampleEmptyObject(data: Json)
    requires data == Object(map[])
    ensures Summarize(data) == Ok("Number of records: 0\n")
  {
    assert RecordCount(data) == Ok(0);
    assert NatToString(0) == "0";
    assert RecordsLabel + "0" + "\n" == "Number of records: 0\n";
  }

  /** A top-level list raises `AttributeError`. */
  lemma ExampleTopLevelList(data: Json)
    requires data == Array([])
    ensures Summarize(data) == Err(AttributeError)
  {
  }
}
