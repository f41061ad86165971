/** The shared bulk import dialog: it accepts a CSV file, turns its text into one record
    per non-blank line and hands the records to the page's import callback. */
module BulkImportDialog {
  import opened Common
  import opened Strings
  import opened JsObject
  import opened CsvUtils

  /** What the dialog looks at in a chosen file. */
  datatype FileInfo = FileInfo(name: string, mimeType: string)

  /** The file check: a CSV media type or a name ending in `.csv`. */
  predicate Accepts(f: FileInfo) {
    f.mimeType == "text/csv" || EndsWith(f.name, ".csv")
  }

  /** `headers.map(h => h.trim())`: the keys the entries are written under. */
  function TrimAll(parts: seq<string>): (r: seq<string>)
    ensures |r| == |parts|
    ensures forall i :: 0 <= i < |parts| ==> r[i] == Trim(parts[i])
  {
    seq(|parts|, i requires 0 <= i < |parts| => Trim(parts[i]))
  }

  /** `values[index]?.trim() || ''` for each header index. */
  function EntryCells(headers: seq<string>, values: seq<string>): (cells: seq<string>)
    ensures |cells| == |headers|
    ensures forall i :: 0 <= i < |headers| ==> cells[i] == if i < |values| then Trim(values[i]) else ""
  {
    seq(|headers|, i requires 0 <= i < |headers| => if i < |values| then Trim(values[i]) else "")
  }

  /** The entry built from one data line under the raw header fields. */
  function ImportEntry(headers: seq<string>, line: string): Obj<string> {
    Fill(TrimAll(headers), EntryCells(headers, Split(line, ',')))
  }

  /** The entry-building step for one header line, as a function of the data line. */
  function EntryOf(headers: seq<string>): string -> Obj<string> {
    line => ImportEntry(headers, line)
  }

  /** The entries built from the data lines, blank lines skipped. */
  function ImportRows(headers: seq<string>, lines: seq<string>): seq<Obj<string>> {
    FilterMap(lines, NotBlank, EntryOf(headers))
  }

  /** The records a file's text turns into. The first line is always the header line; each
      non-blank line after it gives one entry, in order, and a text of one line gives none. */
  function ImportEntries(text: string): (entries: seq<Obj<string>>)
    ensures |entries| == |Filter(Split(text, '\n')[1..], NotBlank)|
    ensures forall i :: 0 <= i < |entries| ==>
      entries[i] == ImportEntry(Split(Split(text, '\n')[0], ','), Filter(Split(text, '\n')[1..], NotBlank)[i])
    ensures '\n' !in text ==> entries == []
  {
    var lines := Split(text, '\n');
    ImportRowsCount(Split(lines[0], ','), lines[1..]);
    ImportRows(Split(lines[0], ','), lines[1..])
  }

  /** The entry once the header loop has run over the first k headers. */
  function EntryPrefix(headers: seq<string>, values: seq<string>, k: nat): Obj<string>
    requires k <= |headers|
  {
    Fill(TrimAll(headers)[..k], EntryCells(headers, values)[..k])
  }

  /** One step of the header loop: trimmed header k takes its trimmed field or `''`. */
  lemma EntryStep(headers: seq<string>, values: seq<string>, k: nat)
    requires k < |headers|
    ensures EntryPrefix(headers, values, k + 1) ==
      Assign(EntryPrefix(headers, values, k), Trim(headers[k]), if k < |values| then Trim(values[k]) else "")
  {
    FillStep(TrimAll(headers), EntryCells(headers, values), k);
  }

  /** The header loop of one line: each trimmed header gets its trimmed field or `''`. */
  method BuildEntry(headers: seq<string>, values: seq<string>) returns (entry: Obj<string>)
    ensures entry == Fill(TrimAll(headers), EntryCells(headers, values))
  {
    entry := [];
    var k := 0;
    while k < |headers|
      invariant 0 <= k <= |headers|
      invariant entry == EntryPrefix(headers, values, k)
    {
      var key := Trim(headers[k]);
      var cell := if k < |values| then Trim(values[k]) else "";
      EntryStep(headers, values, k);
      entry := Assign(entry, key, cell);
      k := k + 1;
    }
    assert TrimAll(headers)[..k] == TrimAll(headers);
    assert EntryCells(headers, values)[..k] == EntryCells(headers, values);
  }

  /** One more data line adds its entry at the end, unless the line is blank. */
  lemma ImportRowsStep(headers: seq<string>, lines: seq<string>, i: int)
    requires 0 <= i < |lines|
    ensures ImportRows(headers, lines[..i + 1]) ==
      ImportRows(headers, lines[..i]) + (if NotBlank(lines[i]) then [ImportEntry(headers, lines[i])] else [])
  {
    FilterMapStep(lines, NotBlank, EntryOf(headers), i);
  }

  /** The conversion loop of `handleImport`. */
  method BuildEntries(text: string) returns (jsonData: seq<Obj<string>>)
    ensures jsonData == ImportEntries(text)
  {
    var lines := Split(text, '\n');
    var headers := Split(lines[0], ',');
    var rest := lines[1..];
    jsonData := [];
    var i := 0;
    while i < |rest|
      invariant 0 <= i <= |rest|
      invariant jsonData == ImportRows(headers, rest[..i])
    {
      ImportRowsStep(headers, rest, i);
      if NotBlank(rest[i]) {
        var entry := BuildEntry(headers, Split(rest[i], ','));
        assert entry == ImportEntry(headers, rest[i]);
        jsonData := jsonData + [entry];
      }
      i := i + 1;
    }
    assert rest[..i] == rest;
  }

  /** There is one entry per non-blank line after the header line, in order. */
  lemma ImportRowsCount(headers: seq<string>, lines: seq<string>)
    ensures |ImportRows(headers, lines)| == |Filter(lines, NotBlank)|
    ensures forall i :: 0 <= i < |ImportRows(headers, lines)| ==>
      ImportRows(headers, lines)[i] == ImportEntry(headers, Filter(lines, NotBlank)[i])
  {
    FilterMapOfFilter(lines, NotBlank, EntryOf(headers));
  }

  /** In an entry, trimmed header j holds trimmed field j, and `''` where the line has
      fewer fields, never `undefined`; a repeated header holds its last position's field; a
      `__proto__` header stores nothing. */
  lemma EntryField(headers: seq<string>, line: string, j: int)
    requires 0 <= j < |headers|
    requires forall k :: j < k < |headers| ==> Trim(headers[k]) != Trim(headers[j])
    ensures Lookup(ImportEntry(headers, line), Trim(headers[j])) ==
      if Trim(headers[j]) == ProtoKey then None
      else Some(if j < |Split(line, ',')| then Trim(Split(line, ',')[j]) else "")
  {
    FillLookup(TrimAll(headers), EntryCells(headers, Split(line, ',')), j);
  }

  /** `undefined` read as `''`, field by field. */
  function Defaulted(obj: Obj<Option<string>>): (r: Obj<string>)
    ensures Keys(r) == Keys(obj)
  {
    seq(|obj|, i requires 0 <= i < |obj| => Field(obj[i].key, obj[i].value.GetOr("")))
  }

  lemma {:induction false} DefaultedAssign(obj: Obj<Option<string>>, key: string, v: Option<string>)
    ensures Defaulted(Assign(obj, key, v)) == Assign(Defaulted(obj), key, v.GetOr(""))
  {
    if key != ProtoKey {
      var d := Defaulted(obj);
      var f, g := Field(key, v), Field(key, v.GetOr(""));
      var p := KeyPosition(obj, key, 0);
      KeyPositionByKeys(obj, d, key, 0);
      if p < |obj| {
        DefaultedOverwrite(obj, p, f);
      } else if IsIndexKey(key) {
        DefaultedInsert(obj, IndexSlot(Keys(obj), key, 0), f);
      } else {
        DefaultedInsert(obj, |obj|, f);
        assert obj[..|obj|] + [f] + obj[|obj|..] == obj + [f];
        assert d[..|d|] + [g] + d[|d|..] == d + [g];
      }
    }
  }

  lemma {:induction false} DefaultedOverwrite(obj: Obj<Option<string>>, p: nat, f: Field<Option<string>>)
    requires p < |obj|
    ensures Defaulted(obj[p := f]) == Defaulted(obj)[p := Field(f.key, f.value.GetOr(""))]
  {
  }

  lemma {:induction false} DefaultedInsert(obj: Obj<Option<string>>, q: nat, f: Field<Option<string>>)
    requires q <= |obj|
    ensures Defaulted(obj[..q] + [f] + obj[q..]) ==
      Defaulted(obj)[..q] + [Field(f.key, f.value.GetOr(""))] + Defaulted(obj)[q..]
  {
    var g := Field(f.key, f.value.GetOr(""));
    InsertedAt(obj, f, q);
    InsertedAt(Defaulted(obj), g, q);
  }

  lemma {:induction false} DefaultedFill(keys: seq<string>, cells: seq<Option<string>>)
    requires |cells| == |keys|
    ensures Defaulted(Fill(keys, cells)) ==
      Fill(keys, seq(|cells|, i requires 0 <= i < |cells| => cells[i].GetOr("")))
  {
    if keys != [] {
      var n := |keys| - 1;
      DefaultedFill(keys[..n], cells[..n]);
      DefaultedAssign(Fill(keys[..n], cells[..n]), keys[n], cells[n]);
      var d := seq(|cells|, i requires 0 <= i < |cells| => cells[i].GetOr(""));
      assert d[..n] == seq(n, i requires 0 <= i < n => cells[..n][i].GetOr(""));
    }
  }

  /** The dialog's own loop reads a line exactly as `parseCSV` does, except that a missing
      field becomes `''` instead of `undefined`. */
  lemma EntryIsDefaultedParse(headers: seq<string>, line: string)
    ensures ImportEntry(headers, line) == Defaulted(ParsedObject(TrimAll(headers), line))
  {
    var keys := TrimAll(headers);
    var cells := ParsedCells(keys, TrimmedFields(line));
    DefaultedFill(keys, cells);
    assert seq(|cells|, i requires 0 <= i < |cells| => cells[i].GetOr("")) ==
      EntryCells(headers, Split(line, ','));
  }

  /** The entries are `parseCSV`'s objects with missing fields read as `''`, for every text:
      text without a data line gives no entries either way. */
  lemma EntriesAreDefaultedParse(headers: seq<string>, lines: seq<string>)
    ensures |ImportRows(headers, lines)| == |ParsedRows(TrimAll(headers), lines)|
    ensures forall i :: 0 <= i < |ImportRows(headers, lines)| ==>
      ImportRows(headers, lines)[i] == Defaulted(ParsedRows(TrimAll(headers), lines)[i])
  {
    ImportRowsCount(headers, lines);
    ParsedRowsAreNonBlankLines(TrimAll(headers), lines);
    forall i | 0 <= i < |ImportRows(headers, lines)|
      ensures ImportRows(headers, lines)[i] == Defaulted(ParsedRows(TrimAll(headers), lines)[i])
    {
      EntryIsDefaultedParse(headers, Filter(lines, NotBlank)[i]);
    }
  }

  class BulkImportDialog {
    var file: Option<FileInfo>
    var isUploading: bool
    var open: bool

    constructor(open: bool)
      ensures file == None && !isUploading && this.open == open
    {
      file := None;
      isUploading := false;
      this.open := open;
    }

    /** `handleFiles(f)`: a CSV file is kept; anything else is refused and the file kept
        so far stays. */
    method HandleFiles(f: FileInfo)
      modifies this
      ensures Accepts(f) ==> file == Some(f)
      ensures !Accepts(f) ==> file == old(file)
      ensures isUploading == old(isUploading) && open == old(open)
    {
      if Accepts(f) {
        file := Some(f);
      }
    }

    /** `handleImport()`, given the file's text and whether the import callback fails.
        Without a file nothing is sent. Otherwise the records built from the text are sent;
        on success the file is cleared and the dialog closes, on failure both stay. */
    method HandleImport(text: string, importFails: bool) returns (sent: Option<seq<Obj<string>>>)
      modifies this
      ensures old(file).None? ==>
        sent.None? && file == old(file) && open == old(open) && isUploading == old(isUploading)
      ensures old(file).Some? ==> sent == Some(ImportEntries(text)) && !isUploading
      ensures old(file).Some? && importFails ==> file == old(file) && open == old(open)
      ensures old(file).Some? && !importFails ==> file.None? && !open
    {
      if file.None? {
        return None;
      }
      isUploading := true;
      var jsonData := BuildEntries(text);
      sent := Some(jsonData);
      if !importFails {
        file := None;
        open := false;
      }
      isUploading := false;
    }
  }
}
