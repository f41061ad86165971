/** CSV writing and reading: `objectsToCSV` quotes string fields and writes one line per
    object under a header line; `parseCSV` splits lines and commas, skips blank lines and
    trims every header and field. The export projections fix the columns written. */
module CsvUtils {
  import opened Common
  import opened Strings
  import opened Types
  import opened JsObject

  /** A field value as the writer distinguishes them: a string, or an integer-valued number. */
  datatype Value = Text(s: string) | Number(n: int)

  /** `s.replace(/"/g, '""')`: every double quote doubled, nothing else touched. */
  function EscapeQuotes(s: string): (r: string)
    ensures forall c :: c != '"' ==> (c in r <==> c in s)
    ensures '"' !in s ==> r == s
  {
    if s == [] then []
    else
      var rest := EscapeQuotes(s[1..]);
      assert forall c :: c in s <==> c == s[0] || c in s[1..];
      (if s[0] == '"' then "\"\"" else [s[0]]) + rest
  }

  /** The reading of a quoted field's inside: a doubled quote stands for one. */
  function UnescapeQuotes(s: string): string
    decreases |s|
  {
    if s == [] then []
    else if |s| >= 2 && s[0] == '"' && s[1] == '"' then "\"" + UnescapeQuotes(s[2..])
    else [s[0]] + UnescapeQuotes(s[1..])
  }

  /** Doubling the quotes loses nothing: undoubling gives the string back. */
  lemma {:induction false} EscapeRoundTrip(s: string)
    ensures UnescapeQuotes(EscapeQuotes(s)) == s
  {
    if s != [] {
      EscapeRoundTrip(s[1..]);
      var rest := EscapeQuotes(s[1..]);
      if s[0] == '"' {
        assert EscapeQuotes(s) == "\"\"" + rest;
        assert ("\"\"" + rest)[2..] == rest;
      } else {
        assert EscapeQuotes(s) == [s[0]] + rest;
        assert ([s[0]] + rest)[1..] == rest;
      }
    }
  }

  /** One cell: a string is wrapped in quotes with its quotes doubled, a number is written
      bare, and a missing key (`undefined`) becomes the empty string when the row is joined. */
  function Cell(v: Option<Value>): string {
    match v
    case Some(Text(s)) => "\"" + EscapeQuotes(s) + "\""
    case Some(Number(n)) => IntToDecimal(n)
    case None => ""
  }

  /** A string cell reads back as its string; a number cell is bare and parses back to the
      number; a missing value leaves the cell empty. */
  lemma CellReadsBack(v: Option<Value>)
    ensures v.Some? && v.value.Text? ==>
      var c := Cell(v);
      |c| >= 2 && c[0] == '"' && c[|c| - 1] == '"' && UnescapeQuotes(c[1..|c| - 1]) == v.value.s
    ensures v.Some? && v.value.Number? ==> Cell(v) != [] && Cell(v)[0] != '"' && ParseInt(Cell(v)) == Some(v.value.n)
    ensures v.None? ==> Cell(v) == ""
  {
    if v.Some? && v.value.Text? {
      var c := Cell(v);
      assert c[1..|c| - 1] == EscapeQuotes(v.value.s);
      EscapeRoundTrip(v.value.s);
    }
    if v.Some? && v.value.Number? {
      ParseIntRoundTrip(v.value.n);
    }
  }

  /** `headers.map(h => cell(item[h])).join(',')`. */
  function DataLine(headers: seq<string>, item: Obj<Value>): string {
    Join(seq(|headers|, j requires 0 <= j < |headers| => Cell(Lookup(item, headers[j]))), ",")
  }

  /** The data lines of a list of objects, one per object, in order. */
  function DataLines(headers: seq<string>, items: seq<Obj<Value>>): (lines: seq<string>)
    ensures |lines| == |items|
    ensures forall i :: 0 <= i < |items| ==> lines[i] == DataLine(headers, items[i])
  {
    seq(|items|, i requires 0 <= i < |items| => DataLine(headers, items[i]))
  }

  /** The lines written for a non-empty list: the first object's keys, then one data line
      per object over those keys. */
  function CsvLines(items: seq<Obj<Value>>): (lines: seq<string>)
    requires items != []
    ensures |lines| == |items| + 1
    ensures lines[0] == Join(Keys(items[0]), ",")
    ensures forall i :: 0 <= i < |items| ==> lines[i + 1] == DataLine(Keys(items[0]), items[i])
  {
    [Join(Keys(items[0]), ",")] + DataLines(Keys(items[0]), items)
  }

  /** The text `objectsToCSV` returns: empty for no objects, else the lines joined by newlines. */
  function CsvText(items: seq<Obj<Value>>): string {
    if items == [] then "" else Join(CsvLines(items), "\n")
  }

  /** `objectsToCSV(items)`: the header row, then a row per item pushed in a loop. */
  method ObjectsToCsv(items: seq<Obj<Value>>) returns (csv: string)
    ensures csv == CsvText(items)
    ensures items == [] ==> csv == ""
  {
    if |items| == 0 {
      return "";
    }
    var headers := Keys(items[0]);
    var csvRows := [Join(headers, ",")];
    var i := 0;
    while i < |items|
      invariant 0 <= i <= |items|
      invariant csvRows == [Join(headers, ",")] + DataLines(headers, items[..i])
    {
      var values := seq(|headers|, j requires 0 <= j < |headers| => Cell(Lookup(items[i], headers[j])));
      assert DataLines(headers, items[..i + 1]) == DataLines(headers, items[..i]) + [DataLine(headers, items[i])];
      csvRows := csvRows + [Join(values, ",")];
      i := i + 1;
    }
    assert items[..i] == items;
    csv := Join(csvRows, "\n");
  }

  /** Neither the key nor a string value of the field holds a newline. */
  predicate FieldSafe(f: Field<Value>) {
    '\n' !in f.key && (f.value.Text? ==> '\n' !in f.value.s)
  }

  /** No key and no string value of any object holds a newline. */
  predicate LineSafe(items: seq<Obj<Value>>) {
    forall i, j :: 0 <= i < |items| && 0 <= j < |items[i]| ==> FieldSafe(items[i][j])
  }

  /** A written cell holds no newline when its value holds none. */
  lemma CellAvoidsNewline(v: Option<Value>)
    requires v.Some? && v.value.Text? ==> '\n' !in v.value.s
    ensures '\n' !in Cell(v)
  {
    if v.Some? && v.value.Number? {
      var n := v.value.n;
      var d := NatToDecimal(if n < 0 then -n else n);
      assert '\n' !in d by {
        forall k | 0 <= k < |d| ensures d[k] != '\n' {
          assert IsDigit(d[k]);
        }
      }
    }
  }

  /** A data line holds no newline when the object's string values hold none. */
  lemma DataLineAvoidsNewline(headers: seq<string>, item: Obj<Value>)
    requires forall j :: 0 <= j < |item| ==> FieldSafe(item[j])
    ensures '\n' !in DataLine(headers, item)
  {
    var cells := seq(|headers|, j requires 0 <= j < |headers| => Cell(Lookup(item, headers[j])));
    forall j | 0 <= j < |headers| ensures '\n' !in cells[j] {
      var v := Lookup(item, headers[j]);
      if v.Some? {
        assert Field(headers[j], v.value) in item;
        var k :| 0 <= k < |item| && item[k] == Field(headers[j], v.value);
        assert FieldSafe(item[k]);
      }
      CellAvoidsNewline(v);
    }
    JoinAvoids(cells, ",", '\n');
  }

  /** The header line holds no newline when the keys hold none. */
  lemma HeaderLineAvoidsNewline(item: Obj<Value>)
    requires forall j :: 0 <= j < |item| ==> FieldSafe(item[j])
    ensures '\n' !in Join(Keys(item), ",")
  {
    var headers := Keys(item);
    forall j | 0 <= j < |headers| ensures '\n' !in headers[j] {
      assert FieldSafe(item[j]);
    }
    JoinAvoids(headers, ",", '\n');
  }

  /** Reading the written text back line by line: splitting on newlines gives exactly the
      header line and one line per object, in order, when no value holds a newline. */
  lemma CsvLinesReadBack(items: seq<Obj<Value>>)
    requires items != [] && LineSafe(items)
    ensures Split(CsvText(items), '\n') == CsvLines(items)
    ensures |Split(CsvText(items), '\n')| == |items| + 1
  {
    var lines := CsvLines(items);
    forall k | 0 <= k < |lines| ensures '\n' !in lines[k] {
      if k == 0 {
        HeaderLineAvoidsNewline(items[0]);
      } else {
        DataLineAvoidsNewline(Keys(items[0]), items[k - 1]);
      }
    }
    SplitJoin(lines, '\n');
  }

  /** The columns of the jobs export, in order. */
  const JobColumns: seq<string> := [
    "title", "department", "location", "type", "status", "description", "requirements",
    "responsibilities", "salary_min", "salary_max", "salary_currency"]

  /** No column is written twice. */
  lemma JobColumnsDistinct()
    ensures NoDuplicates(JobColumns)
  {
  }

  /** `x || ''` for a number: zero, like a missing value, becomes the empty string. */
  function NumberOrEmpty(n: int): Value {
    if n == 0 then Text("") else Number(n)
  }

  /** `Array.isArray(xs) ? xs.join('; ') : ''`. */
  function JoinedOrEmpty(xs: Option<seq<string>>): string {
    match xs
    case Some(items) => Join(items, "; ")
    case None => ""
  }

  /** The record the jobs export writes for one job. */
  function JobRow(job: Job): (row: Obj<Value>)
    ensures Keys(row) == JobColumns
  {
    [ Field("title", Text(job.title)),
      Field("department", Text(job.department)),
      Field("location", Text(job.location)),
      Field("type", Text(job.jobType)),
      Field("status", Text(job.status)),
      Field("description", Text(job.description.GetOr(""))),
      Field("requirements", Text(JoinedOrEmpty(job.requirements))),
      Field("responsibilities", Text(JoinedOrEmpty(job.responsibilities))),
      Field("salary_min", if job.salary.Some? then NumberOrEmpty(job.salary.value.min) else Text("")),
      Field("salary_max", if job.salary.Some? then NumberOrEmpty(job.salary.value.max) else Text("")),
      Field("salary_currency", Text(if job.salary.Some? then job.salary.value.currency else "")) ]
  }

  /** The salary cells of a job are empty exactly when it has no salary or the bound is zero;
      otherwise they hold the bound as a number. */
  lemma JobSalaryCells(job: Job)
    ensures Lookup(JobRow(job), "salary_min") == Some(Text("")) <==> job.salary.None? || job.salary.value.min == 0
    ensures job.salary.Some? && job.salary.value.min != 0 ==>
      Lookup(JobRow(job), "salary_min") == Some(Number(job.salary.value.min))
    ensures Lookup(JobRow(job), "salary_max") == Some(Text("")) <==> job.salary.None? || job.salary.value.max == 0
    ensures job.salary.None? ==> Lookup(JobRow(job), "salary_currency") == Some(Text(""))
  {
    var row := JobRow(job);
    JobColumnsDistinct();
    LookupAt(row, 8);
    LookupAt(row, 9);
    LookupAt(row, 10);
  }

  /** The candidates export writes the candidate's date under `applied_date`, and neither the
      id nor the initials. */
  lemma CandidateCells(c: Candidate)
    ensures Lookup(CandidateRow(c), "applied_date") == Some(Text(c.date))
    ensures Lookup(CandidateRow(c), "name") == Some(Text(c.data.name))
    ensures Lookup(CandidateRow(c), "id") == None && Lookup(CandidateRow(c), "initials") == None
  {
    CandidateDateCell(c);
    IdAndInitialsAreNotColumns();
    CandidateRowOmits(c, "id");
    CandidateRowOmits(c, "initials");
  }

  lemma CandidateDateCell(c: Candidate)
    ensures Lookup(CandidateRow(c), "applied_date") == Some(Text(c.date))
  {
    var row := CandidateRow(c);
    assert Keys(row)[..4] == ["name", "email", "position", "status"];
    LookupFirstAt(row, 4);
  }

  lemma IdAndInitialsAreNotColumns()
    ensures "id" !in CandidateColumns && "initials" !in CandidateColumns
  {
  }

  /** A key outside the candidate columns is not written. */
  lemma CandidateRowOmits(c: Candidate, key: string)
    requires key !in CandidateColumns
    ensures Lookup(CandidateRow(c), key) == None
  {
  }

  /** The columns of the candidates export, in order. */
  const CandidateColumns: seq<string> := ["name", "email", "position", "status", "applied_date"]

  /** The record the candidates export writes for one candidate; the date goes out as
      `applied_date`. */
  function CandidateRow(c: Candidate): (row: Obj<Value>)
    ensures Keys(row) == CandidateColumns
  {
    [ Field("name", Text(c.data.name)),
      Field("email", Text(c.data.email)),
      Field("position", Text(c.data.position)),
      Field("status", Text(c.data.status)),
      Field("applied_date", Text(c.date)) ]
  }

  /** Whatever the values hold, the first line read back from the written text is the
      header line, provided no key holds a newline; and the text is empty only for no
      objects. */
  lemma HeaderReadsBack(items: seq<Obj<Value>>)
    requires items != []
    requires forall k :: 0 <= k < |Keys(items[0])| ==> '\n' !in Keys(items[0])[k]
    ensures CsvText(items) != ""
    ensures Split(CsvText(items), '\n')[0] == Join(Keys(items[0]), ",")
  {
    var lines := CsvLines(items);
    var h := lines[0];
    JoinAvoids(Keys(items[0]), ",", '\n');
    var rest := Join(lines[1..], "\n");
    assert CsvText(items) == h + "\n" + rest;
    assert (h + "\n" + rest)[..|h|] == h;
    SplitAt(h + "\n" + rest, '\n', |h|);
  }

  /** The written text, read back by lines: empty only for no objects; otherwise the
      header line first (when no key holds a newline) and, when no value holds one either,
      one line per object after it. */
  lemma CsvTextReadsBack(items: seq<Obj<Value>>)
    ensures CsvText(items) == "" <==> items == []
    ensures items != [] && (forall k :: 0 <= k < |Keys(items[0])| ==> '\n' !in Keys(items[0])[k]) ==>
      Split(CsvText(items), '\n')[0] == Join(Keys(items[0]), ",")
    ensures items != [] && LineSafe(items) ==> Split(CsvText(items), '\n') == CsvLines(items)
  {
    if items != [] {
      if forall k :: 0 <= k < |Keys(items[0])| ==> '\n' !in Keys(items[0])[k] {
        HeaderReadsBack(items);
      } else {
        var lines := CsvLines(items);
        assert CsvText(items) == lines[0] + "\n" + Join(lines[1..], "\n");
      }
      if LineSafe(items) {
        CsvLinesReadBack(items);
      }
    }
  }

  /** No export column holds a newline. */
  lemma ColumnsHaveNoNewline()
    ensures forall k :: 0 <= k < |JobColumns| ==> '\n' !in JobColumns[k]
    ensures forall k :: 0 <= k < |CandidateColumns| ==> '\n' !in CandidateColumns[k]
  {
  }

  /** The records of the jobs export, one per job, in order. */
  function JobRows(jobs: seq<Job>): (rows: seq<Obj<Value>>)
    ensures |rows| == |jobs|
    ensures forall i :: 0 <= i < |jobs| ==> rows[i] == JobRow(jobs[i])
  {
    seq(|jobs|, i requires 0 <= i < |jobs| => JobRow(jobs[i]))
  }

  /** The text the jobs export writes: nothing for no jobs; otherwise a text whose first
      line is the eleven columns, and, when no job text holds a newline, exactly one
      further line per job, in order, holding that job's cells. */
  function JobsCsv(jobs: seq<Job>): (text: string)
    ensures text == "" <==> jobs == []
    ensures jobs != [] ==> Split(text, '\n')[0] == Join(JobColumns, ",")
    ensures jobs != [] && LineSafe(JobRows(jobs)) ==>
      |Split(text, '\n')| == |jobs| + 1 &&
      forall i :: 0 <= i < |jobs| ==> Split(text, '\n')[i + 1] == DataLine(JobColumns, JobRow(jobs[i]))
  {
    var rows := JobRows(jobs);
    ColumnsHaveNoNewline();
    assert rows != [] ==> Keys(rows[0]) == JobColumns;
    CsvTextReadsBack(rows);
    CsvText(rows)
  }

  /** The records of the candidates export, one per candidate, in order. */
  function CandidateRows(candidates: seq<Candidate>): (rows: seq<Obj<Value>>)
    ensures |rows| == |candidates|
    ensures forall i :: 0 <= i < |candidates| ==> rows[i] == CandidateRow(candidates[i])
  {
    seq(|candidates|, i requires 0 <= i < |candidates| => CandidateRow(candidates[i]))
  }

  /** The text the candidates export writes: nothing for no candidates; otherwise a text
      whose first line is the five columns, and, when no candidate text holds a newline,
      exactly one further line per candidate, in order, holding that candidate's cells. */
  function CandidatesCsv(candidates: seq<Candidate>): (text: string)
    ensures text == "" <==> candidates == []
    ensures candidates != [] ==> Split(text, '\n')[0] == Join(CandidateColumns, ",")
    ensures candidates != [] && LineSafe(CandidateRows(candidates)) ==>
      |Split(text, '\n')| == |candidates| + 1 &&
      forall i :: 0 <= i < |candidates| ==>
        Split(text, '\n')[i + 1] == DataLine(CandidateColumns, CandidateRow(candidates[i]))
  {
    var rows := CandidateRows(candidates);
    ColumnsHaveNoNewline();
    assert rows != [] ==> Keys(rows[0]) == CandidateColumns;
    CsvTextReadsBack(rows);
    CsvText(rows)
  }

  /** The sample candidate records offered as an import template. */
  const SampleCandidates: seq<Obj<Value>> := [
    [ Field("name", Text("John Doe")), Field("email", Text("john.doe@example.com")),
      Field("position", Text("Frontend Developer")), Field("status", Text("new")) ],
    [ Field("name", Text("Jane Smith")), Field("email", Text("jane.smith@example.com")),
      Field("position", Text("UX Designer")), Field("status", Text("reviewing")) ]
  ]

  /** One sample job record: the six columns of the job template. */
  function SampleJob(title: string, department: string, location: string, jobType: string,
                     status: string, description: string): Obj<Value> {
    [ Field("title", Text(title)), Field("department", Text(department)),
      Field("location", Text(location)), Field("type", Text(jobType)),
      Field("status", Text(status)), Field("description", Text(description)) ]
  }

  /** The sample job records offered as an import template. */
  const SampleJobs: seq<Obj<Value>> := [
    SampleJob("Frontend Developer", "Engineering", "Remote", "full-time", "active",
      "We're looking for a talented frontend developer..."),
    SampleJob("UX Designer", "Design", "New York", "full-time", "active",
      "Join our design team to create beautiful user experiences...")
  ]

  /** `sampleCandidatesCSV()`. */
  function SampleCandidatesCsv(): string {
    CsvText(SampleCandidates)
  }

  /** `sampleJobsCSV()`. */
  function SampleJobsCsv(): string {
    CsvText(SampleJobs)
  }

  /** The candidate template holds two records with the same keys, so (by `CsvLines`) it
      writes a header line naming those keys and one line per record. */
  lemma CandidateTemplateRecords()
    ensures |SampleCandidates| == 2 && Keys(SampleCandidates[1]) == Keys(SampleCandidates[0])
    ensures Keys(SampleCandidates[0]) == ["name", "email", "position", "status"]
  {
  }

  /** The job template likewise holds two records with the same six keys. */
  lemma JobTemplateRecords()
    ensures |SampleJobs| == 2 && Keys(SampleJobs[1]) == Keys(SampleJobs[0])
    ensures Keys(SampleJobs[0]) == ["title", "department", "location", "type", "status", "description"]
  {
    SampleJobKeys("Frontend Developer", "Engineering", "Remote", "full-time", "active",
      "We're looking for a talented frontend developer...");
    SampleJobKeys("UX Designer", "Design", "New York", "full-time", "active",
      "Join our design team to create beautiful user experiences...");
  }

  lemma SampleJobKeys(title: string, department: string, location: string, jobType: string,
                      status: string, description: string)
    ensures Keys(SampleJob(title, department, location, jobType, status, description)) ==
      ["title", "department", "location", "type", "status", "description"]
  {
  }

  /** `line.split(',').map(s => s.trim())`. */
  function TrimmedFields(line: string): (fields: seq<string>)
    ensures |fields| == |Split(line, ',')|
    ensures forall i :: 0 <= i < |fields| ==> fields[i] == Trim(Split(line, ',')[i])
  {
    var parts := Split(line, ',');
    seq(|parts|, i requires 0 <= i < |parts| => Trim(parts[i]))
  }

  /** The value `parseCSV` stores under header i: the trimmed field i, or `undefined` when
      the line has fewer fields. */
  function ParsedCells(headers: seq<string>, values: seq<string>): (cells: seq<Option<string>>)
    ensures |cells| == |headers|
    ensures forall i :: 0 <= i < |headers| ==> cells[i] == if i < |values| then Some(values[i]) else None
  {
    seq(|headers|, i requires 0 <= i < |headers| => if i < |values| then Some(values[i]) else None)
  }

  /** The object built from one data line. */
  function ParsedObject(headers: seq<string>, line: string): Obj<Option<string>> {
    Fill(headers, ParsedCells(headers, TrimmedFields(line)))
  }

  predicate NotBlank(line: string) {
    !IsBlank(line)
  }

  /** The object-building step for one header line, as a function of the data line. */
  function ObjectOf(headers: seq<string>): string -> Obj<Option<string>> {
    line => ParsedObject(headers, line)
  }

  /** The objects built from the data lines, blank lines skipped. */
  function ParsedRows(headers: seq<string>, lines: seq<string>): seq<Obj<Option<string>>> {
    FilterMap(lines, NotBlank, ObjectOf(headers))
  }

  /** One more data line adds its object at the end, unless the line is blank. */
  lemma ParsedRowsStep(headers: seq<string>, lines: seq<string>, i: int)
    requires 0 <= i < |lines|
    ensures ParsedRows(headers, lines[..i + 1]) ==
      ParsedRows(headers, lines[..i]) + (if NotBlank(lines[i]) then [ParsedObject(headers, lines[i])] else [])
  {
    FilterMapStep(lines, NotBlank, ObjectOf(headers), i);
  }

  /** There is one object per non-blank data line, built from that line, in order. */
  lemma ParsedRowsAreNonBlankLines(headers: seq<string>, lines: seq<string>)
    ensures |ParsedRows(headers, lines)| == |Filter(lines, NotBlank)|
    ensures forall i :: 0 <= i < |ParsedRows(headers, lines)| ==>
      ParsedRows(headers, lines)[i] == ParsedObject(headers, Filter(lines, NotBlank)[i])
  {
    FilterMapOfFilter(lines, NotBlank, ObjectOf(headers));
  }

  /** What `parseCSV` returns: nothing for fewer than two lines, else one object per
      non-blank line after the header line. */
  function ParseCsvSpec(csv: string): seq<Obj<Option<string>>> {
    var lines := Split(csv, '\n');
    if |lines| < 2 then [] else ParsedRows(TrimmedFields(lines[0]), lines[1..])
  }

  /** `headers.forEach((header, index) => { obj[header] = values[index]; })`. */
  method BuildObject(headers: seq<string>, values: seq<string>) returns (obj: Obj<Option<string>>)
    ensures obj == Fill(headers, ParsedCells(headers, values))
  {
    var cells := ParsedCells(headers, values);
    obj := [];
    var k := 0;
    while k < |headers|
      invariant 0 <= k <= |headers|
      invariant obj == Fill(headers[..k], cells[..k])
    {
      var next := headers[..k + 1];
      assert next[..k] == headers[..k] && cells[..k + 1][..k] == cells[..k];
      assert Fill(next, cells[..k + 1]) == Assign(Fill(headers[..k], cells[..k]), headers[k], cells[k]);
      var cell: Option<string> := if k < |values| then Some(values[k]) else None;
      assert cell == cells[k];
      obj := Assign(obj, headers[k], cell);
      assert obj == Fill(next, cells[..k + 1]);
      k := k + 1;
    }
    assert headers[..k] == headers && cells[..k] == cells;
  }

  /** `parseCSV(csv)`: a loop over the lines after the header, skipping blank ones. */
  method ParseCsv(csv: string) returns (result: seq<Obj<Option<string>>>)
    ensures result == ParseCsvSpec(csv)
  {
    var lines := Split(csv, '\n');
    if |lines| < 2 {
      return [];
    }
    var headers := TrimmedFields(lines[0]);
    var rest := lines[1..];
    result := [];
    var i := 0;
    while i < |rest|
      invariant 0 <= i <= |rest|
      invariant result == ParsedRows(headers, rest[..i])
    {
      ParsedRowsStep(headers, rest, i);
      if NotBlank(rest[i]) {
        var obj := BuildObject(headers, TrimmedFields(rest[i]));
        assert obj == ParsedObject(headers, rest[i]);
        result := result + [obj];
      }
      i := i + 1;
    }
    assert rest[..i] == rest;
  }

  /** Text without a newline has only a header line, and parses to nothing. */
  lemma SingleLineParsesToNothing(csv: string)
    requires '\n' !in csv
    ensures ParseCsvSpec(csv) == []
  {
  }

  /** The number of parsed objects is the number of non-blank lines after the header line. */
  lemma ParsedCount(csv: string)
    requires |Split(csv, '\n')| >= 2
    ensures |ParseCsvSpec(csv)| == |Filter(Split(csv, '\n')[1..], NotBlank)|
  {
    var lines := Split(csv, '\n');
    ParsedRowsAreNonBlankLines(TrimmedFields(lines[0]), lines[1..]);
  }

  /** In a parsed object, the trimmed header i holds the trimmed field i (`undefined` past the
      last field); a header that repeats holds the field of its last position; a `__proto__`
      header stores nothing. */
  lemma ParsedField(headers: seq<string>, line: string, j: int)
    requires 0 <= j < |headers|
    requires forall k :: j < k < |headers| ==> headers[k] != headers[j]
    ensures Lookup(ParsedObject(headers, line), headers[j]) ==
      if headers[j] == ProtoKey then None
      else Some(if j < |TrimmedFields(line)| then Some(TrimmedFields(line)[j]) else None)
  {
    FillLookup(headers, ParsedCells(headers, TrimmedFields(line)), j);
  }

  /** The keys of a parsed object: each header once except `__proto__`, array-index headers
      first in ascending order, then the other headers in first-appearance order. */
  lemma ParsedKeys(headers: seq<string>, line: string)
    ensures WellFormed(ParsedObject(headers, line))
    ensures forall k :: k in Keys(ParsedObject(headers, line)) <==> k in headers && k != ProtoKey
    ensures Filter(Keys(ParsedObject(headers, line)), IsOrdinaryKey) == Filter(Dedup(headers), IsOrdinaryKey)
  {
    FillKeys(headers, ParsedCells(headers, TrimmedFields(line)));
  }
}
