/**
 * Normalisation of a caller-supplied price history: `normalize_history_payload`.
 * The payload is a list of JSON objects; it becomes a table whose columns are
 * the keys in order of first appearance, the headers are renamed through the
 * alias table, Date and Close are required, the Date column is converted to
 * timestamps and the rows are sorted by date.
 */
module Payload {
  import opened Wrappers
  import opened Text

  /**
   * A table cell: missing (None, NaN or NaT), a number, text, or a timestamp
   * as an instant counted in the parser's smallest unit, so the time of day is kept.
   */
  datatype Cell = Missing | Num(x: real) | Str(s: string) | Stamp(instant: int)

  /** One key of a JSON object with its value. */
  datatype Field = Field(key: string, value: Cell)

  /** A JSON object, its keys in the order the caller wrote them. */
  type Record = seq<Field>

  type Row = seq<Cell>

  /** A data frame: column headers and one row of cells per record. */
  datatype Frame = Frame(columns: seq<string>, rows: seq<Row>)

  datatype PayloadError = EmptyPayload | MissingRequiredFields | InvalidDateValue

  predicate Distinct(xs: seq<string>) {
    forall i, j :: 0 <= i < j < |xs| ==> xs[i] != xs[j]
  }

  predicate WellFormed(f: Frame) {
    forall i :: 0 <= i < |f.rows| ==> |f.rows[i]| == |f.columns|
  }

  /** pandas' `DataFrame.empty`: no rows or no columns. */
  predicate IsEmpty(f: Frame) {
    |f.rows| == 0 || |f.columns| == 0
  }

  function KeysOf(rec: Record): seq<string> {
    seq(|rec|, i requires 0 <= i < |rec| => rec[i].key)
  }

  /** Some object of the payload has this key. */
  predicate HasKey(data: seq<Record>, k: string) {
    exists i :: 0 <= i < |data| && k in KeysOf(data[i])
  }

  /** No object of the payload has any key (this includes the empty payload). */
  predicate NoFields(data: seq<Record>) {
    forall i :: 0 <= i < |data| ==> data[i] == []
  }

  /** The value an object holds under a key; Missing when it has no such key. */
  function Lookup(rec: Record, key: string): (c: Cell)
    ensures key !in KeysOf(rec) ==> c == Missing
    ensures key in KeysOf(rec) ==> exists i :: 0 <= i < |rec| && rec[i].key == key && rec[i].value == c
  {
    assert rec != [] ==> KeysOf(rec) == [rec[0].key] + KeysOf(rec[1..]);
    if rec == [] then Missing
    else if rec[0].key == key then rec[0].value
    else Lookup(rec[1..], key)
  }

  /** Appends the keys not yet seen, in order. */
  function AddKeys(cols: seq<string>, keys: seq<string>): (r: seq<string>)
    ensures |cols| <= |r| && r[..|cols|] == cols
    ensures forall k :: k in r <==> k in cols || k in keys
    ensures Distinct(cols) ==> Distinct(r)
    decreases |keys|
  {
    if keys == [] then cols
    else
      var next := if keys[0] in cols then cols else cols + [keys[0]];
      var r := AddKeys(next, keys[1..]);
      assert keys == [keys[0]] + keys[1..];
      assert r[..|cols|] == r[..|next|][..|cols|];
      r
  }

  function ColumnsFrom(cols: seq<string>, data: seq<Record>): (r: seq<string>)
    ensures |cols| <= |r| && r[..|cols|] == cols
    ensures forall k :: k in r <==> k in cols || HasKey(data, k)
    ensures Distinct(cols) ==> Distinct(r)
    decreases |data|
  {
    if data == [] then cols
    else
      var next := AddKeys(cols, KeysOf(data[0]));
      var r := ColumnsFrom(next, data[1..]);
      assert r[..|cols|] == cols by {
        assert r[..|next|] == next;
      }
      forall k
        ensures HasKey(data, k) <==> k in KeysOf(data[0]) || HasKey(data[1..], k)
      {
        if HasKey(data, k) {
          var i :| 0 <= i < |data| && k in KeysOf(data[i]);
          if i > 0 {
            assert data[1..][i - 1] == data[i];
          }
        }
        if HasKey(data[1..], k) {
          var i :| 0 <= i < |data[1..]| && k in KeysOf(data[1..][i]);
          assert data[i + 1] == data[1..][i];
        }
      }
      r
  }

  /** `pd.DataFrame(data)`: columns are the keys in order of first appearance; an absent key gives a missing cell. */
  function ToFrame(data: seq<Record>): (f: Frame)
    ensures Distinct(f.columns)
    ensures forall k :: k in f.columns <==> HasKey(data, k)
    ensures |f.rows| == |data| && WellFormed(f)
    ensures forall i, j :: 0 <= i < |data| && 0 <= j < |f.columns| ==> f.rows[i][j] == Lookup(data[i], f.columns[j])
  {
    var cols := ColumnsFrom([], data);
    Frame(cols, seq(|data|, i requires 0 <= i < |data| =>
                      seq(|cols|, j requires 0 <= j < |cols| => Lookup(data[i], cols[j]))))
  }

  /** The frame is empty exactly when no object of the payload has a key. */
  lemma EmptyFrameExactly(data: seq<Record>)
    ensures IsEmpty(ToFrame(data)) <==> NoFields(data)
  {
    var f := ToFrame(data);
    if !NoFields(data) {
      var i :| 0 <= i < |data| && data[i] != [];
      assert KeysOf(data[i])[0] == data[i][0].key;
      assert data[i][0].key in f.columns;
    }
    if f.columns != [] {
      assert f.columns[0] in f.columns;
    }
  }

  // ---------------------------------------------------------------- headers

  /** The alias table: a normalised header to its canonical column. */
  function Alias(name: string): Option<string> {
    if name == "date" then Some("Date")
    else if name == "open" then Some("Open")
    else if name == "high" || name == "high_price" then Some("High")
    else if name == "low" || name == "low_price" then Some("Low")
    else if name == "close" then Some("Close")
    else if name == "volume" || name == "vol" then Some("Volume")
    else None
  }

  /** `header.strip().lower()` */
  function HeaderKey(header: string): string {
    Lower(Strip(header))
  }

  /** The name a header has after the rename: its canonical column, or itself when it matches no alias. */
  function CanonicalColumn(header: string): (r: string)
    ensures IsCanonical(r) || r == header
    ensures Alias(HeaderKey(header)).Some? ==> IsCanonical(r)
  {
    match Alias(HeaderKey(header))
    case Some(canonical) => canonical
    case None => header
  }

  predicate IsCanonical(name: string) {
    name == "Date" || name == "Open" || name == "High" || name == "Low" || name == "Close" || name == "Volume"
  }

  predicate IsWord(s: string) {
    forall i :: 0 <= i < |s| ==> 'A' <= s[i] <= 'Z' || 'a' <= s[i] <= 'z'
  }

  /** A header made of ASCII letters only is just lower-cased. */
  lemma HeaderKeyOfWord(w: string)
    requires w != [] && IsWord(w)
    ensures HeaderKey(w) == Lower(w)
  {
    if IsSpace(w[0]) { SpaceIsNotLetter(w[0]); }
    if IsSpace(w[|w| - 1]) { SpaceIsNotLetter(w[|w| - 1]); }
    StripFixedPoint(w);
  }

  lemma DateMatchesItself()
    ensures Alias(HeaderKey("Date")) == Some("Date")
  {
    HeaderKeyOfWord("Date");
  }

  lemma OpenMatchesItself()
    ensures Alias(HeaderKey("Open")) == Some("Open")
  {
    HeaderKeyOfWord("Open");
  }

  lemma HighMatchesItself()
    ensures Alias(HeaderKey("High")) == Some("High")
  {
    HeaderKeyOfWord("High");
  }

  lemma LowMatchesItself()
    ensures Alias(HeaderKey("Low")) == Some("Low")
  {
    HeaderKeyOfWord("Low");
  }

  lemma CloseMatchesItself()
    ensures Alias(HeaderKey("Close")) == Some("Close")
  {
    HeaderKeyOfWord("Close");
  }

  lemma VolumeMatchesItself()
    ensures Alias(HeaderKey("Volume")) == Some("Volume")
  {
    HeaderKeyOfWord("Volume");
  }

  /** Each canonical name matches its own alias, so renaming leaves it in place. */
  lemma CanonicalMatchesItself(name: string)
    requires IsCanonical(name)
    ensures Alias(HeaderKey(name)) == Some(name)
  {
    if name == "Date" {
      DateMatchesItself();
    } else if name == "Open" {
      OpenMatchesItself();
    } else if name == "High" {
      HighMatchesItself();
    } else if name == "Low" {
      LowMatchesItself();
    } else if name == "Close" {
      CloseMatchesItself();
    } else {
      VolumeMatchesItself();
    }
  }

  /** A header becomes a canonical column exactly when its normalised form is an alias of that column. */
  lemma CanonicalColumnExactly(header: string, name: string)
    requires IsCanonical(name)
    ensures CanonicalColumn(header) == name <==> Alias(HeaderKey(header)) == Some(name)
  {
    if Alias(HeaderKey(header)).None? && header == name {
      CanonicalMatchesItself(name);
    }
  }

  /** Renaming twice is renaming once. */
  lemma CanonicalColumnIdempotent(header: string)
    ensures CanonicalColumn(CanonicalColumn(header)) == CanonicalColumn(header)
  {
    if Alias(HeaderKey(header)).Some? {
      CanonicalMatchesItself(CanonicalColumn(header));
    }
  }

  /** "Close", "close " and "CLOSE" all name the Close column. */
  lemma CloseHeaderExact()
    ensures CanonicalColumn("Close") == "Close"
  {
    CloseMatchesItself();
  }

  lemma CloseHeaderPadded()
    ensures CanonicalColumn("close ") == "Close"
  {
    ClosePadded();
  }

  lemma CloseHeaderUpper()
    ensures CanonicalColumn("CLOSE") == "Close"
  {
    CloseUpper();
  }

  lemma CloseStripped()
    ensures Strip("close ") == "close"
  {
    assert "close " == "" + "close" + " ";
    if IsSpace('c') { SpaceIsNotLetter('c'); }
    if IsSpace('e') { SpaceIsNotLetter('e'); }
    StripPadded("", "close", " ");
  }

  lemma ClosePadded()
    ensures HeaderKey("close ") == "close"
  {
    CloseStripped();
  }

  lemma CloseUpper()
    ensures HeaderKey("CLOSE") == "close"
  {
    HeaderKeyOfWord("CLOSE");
  }

  /** What `column_map` holds after the first `i` headers: exactly those that are aliases, each with its canonical column. */
  predicate ColumnMapUpTo(columns: seq<string>, i: nat, columnMap: map<string, string>)
    requires i <= |columns|
  {
    && (forall c :: c in columnMap ==> c in columns[..i] && Some(columnMap[c]) == Alias(HeaderKey(c)))
    && (forall c :: c in columns[..i] && Alias(HeaderKey(c)).Some? ==> c in columnMap)
  }

  lemma ColumnMapStep(columns: seq<string>, i: nat, columnMap: map<string, string>)
    requires i < |columns| && ColumnMapUpTo(columns, i, columnMap)
    ensures ColumnMapUpTo(columns, i + 1,
              match Alias(HeaderKey(columns[i]))
              case Some(canonical) => columnMap[columns[i] := canonical]
              case None => columnMap)
  {
    var added := columns[i];
    var target := Alias(HeaderKey(added));
    var next := if target.Some? then columnMap[added := target.value] else columnMap;
    assert columns[..i + 1] == columns[..i] + [added];
    forall c | c in next
      ensures c in columns[..i + 1] && Some(next[c]) == Alias(HeaderKey(c))
    {
      if c != added {
        assert c in columnMap;
      }
    }
    forall c | c in columns[..i + 1] && Alias(HeaderKey(c)).Some?
      ensures c in next
    {
      if c != added {
        assert c in columns[..i];
      }
    }
  }

  /**
   * The loop that fills `column_map`, its if-chain being the alias table:
   * every header whose normalised form is an alias is mapped to its
   * canonical column, and no other header is.
   */
  method BuildColumnMap(columns: seq<string>) returns (columnMap: map<string, string>)
    ensures forall c :: c in columnMap <==> c in columns && Alias(HeaderKey(c)).Some?
    ensures forall c :: c in columnMap ==> Some(columnMap[c]) == Alias(HeaderKey(c))
  {
    columnMap := map[];
    for i := 0 to |columns|
      invariant ColumnMapUpTo(columns, i, columnMap)
    {
      ColumnMapStep(columns, i, columnMap);
      var original := columns[i];
      var normalized := HeaderKey(original);
      match Alias(normalized) {
        case Some(canonical) =>
          columnMap := columnMap[original := canonical];
        case None =>
      }
    }
    assert columns[..|columns|] == columns;
  }

  /** `DataFrame.rename(columns=...)`: a mapped header takes its new name, the others keep theirs. */
  function Rename(columns: seq<string>, columnMap: map<string, string>): (r: seq<string>)
    ensures |r| == |columns|
    ensures forall i :: 0 <= i < |columns| && columns[i] in columnMap ==> r[i] == columnMap[columns[i]]
    ensures forall i :: 0 <= i < |columns| && columns[i] !in columnMap ==> r[i] == columns[i]
    ensures forall i :: 0 <= i < |r| ==> r[i] in columns || r[i] in columnMap.Values
  {
    seq(|columns|, i requires 0 <= i < |columns| =>
      if columns[i] in columnMap then columnMap[columns[i]] else columns[i])
  }

  /** The headers of the payload's frame after the rename. */
  function RenamedColumns(data: seq<Record>): (r: seq<string>)
    ensures |r| == |ToFrame(data).columns|
  {
    var cols := ToFrame(data).columns;
    seq(|cols|, i requires 0 <= i < |cols| => CanonicalColumn(cols[i]))
  }

  /** Some key of the payload normalises to `key`. */
  predicate HasHeader(data: seq<Record>, key: string) {
    exists i, j :: 0 <= i < |data| && 0 <= j < |data[i]| && HeaderKey(data[i][j].key) == key
  }

  /** Some key of the payload has a normalised form that is an alias of `name`. */
  predicate HasAliasOf(data: seq<Record>, name: string) {
    exists i, j :: 0 <= i < |data| && 0 <= j < |data[i]| && Alias(HeaderKey(data[i][j].key)) == Some(name)
  }

  /** A canonical column is present after the rename exactly when some key of the payload is one of its aliases. */
  lemma RenamedHasColumn(data: seq<Record>, name: string)
    requires IsCanonical(name)
    ensures name in RenamedColumns(data) <==> HasAliasOf(data, name)
  {
    var f := ToFrame(data);
    var renamed := RenamedColumns(data);
    if name in renamed {
      var j :| 0 <= j < |renamed| && renamed[j] == name;
      CanonicalColumnExactly(f.columns[j], name);
      assert HasKey(data, f.columns[j]);
      var i :| 0 <= i < |data| && f.columns[j] in KeysOf(data[i]);
      var m :| 0 <= m < |data[i]| && KeysOf(data[i])[m] == f.columns[j];
      assert Alias(HeaderKey(data[i][m].key)) == Some(name);
    }
    if HasAliasOf(data, name) {
      var i, m :| 0 <= i < |data| && 0 <= m < |data[i]| && Alias(HeaderKey(data[i][m].key)) == Some(name);
      var k := data[i][m].key;
      assert KeysOf(data[i])[m] == k;
      assert k in f.columns;
      var j :| 0 <= j < |f.columns| && f.columns[j] == k;
      CanonicalColumnExactly(k, name);
      assert renamed[j] == name;
    }
  }

  lemma AliasOfDate(x: string)
    ensures Alias(x) == Some("Date") <==> x == "date"
  {
  }

  lemma AliasOfClose(x: string)
    ensures Alias(x) == Some("Close") <==> x == "close"
  {
  }

  /** After the rename there is a Date column exactly when some key of the payload normalises to "date". */
  lemma RenamedHasDate(data: seq<Record>)
    ensures "Date" in RenamedColumns(data) <==> HasHeader(data, "date")
  {
    RenamedHasColumn(data, "Date");
    forall x { AliasOfDate(x); }
  }

  /** After the rename there is a Close column exactly when some key of the payload normalises to "close". */
  lemma RenamedHasClose(data: seq<Record>)
    ensures "Close" in RenamedColumns(data) <==> HasHeader(data, "close")
  {
    RenamedHasColumn(data, "Close");
    forall x { AliasOfClose(x); }
  }

  /** The Date column is unambiguous: at most one header of the payload normalises to "date". */
  predicate SingleDateHeader(data: seq<Record>) {
    var cols := ToFrame(data).columns;
    forall i, j :: 0 <= i < j < |cols| ==> HeaderKey(cols[i]) != "date" || HeaderKey(cols[j]) != "date"
  }

  function IndexOf(xs: seq<string>, x: string): (r: nat)
    requires x in xs
    ensures r < |xs| && xs[r] == x
    ensures forall j :: 0 <= j < r ==> xs[j] != x
  {
    if xs[0] == x then 0 else 1 + IndexOf(xs[1..], x)
  }

  // ---------------------------------------------------------------- dates

  /** What `pd.to_datetime` makes of one present cell: an instant, NaT (blank or "NaT" text), or an error. */
  datatype Parsed = At(instant: int) | NotATime | Unparseable

  /**
   * A stand-in for `pd.to_datetime` on a whole column: the outcome for the
   * cell at a position, given every cell of the column. A cell's outcome may
   * depend on the others, as when pandas infers one format from the first
   * value that is not null and rejects cells written another way.
   */
  type DateParser = (seq<Cell>, nat) -> Parsed

  function DateOf(row: Row, idx: nat): Cell {
    if idx < |row| then row[idx] else Missing
  }

  /** The cells of column `idx`, one per row. */
  function DateColumn(rows: seq<Row>, idx: nat): (column: seq<Cell>)
    ensures |column| == |rows|
    ensures forall k :: 0 <= k < |rows| ==> column[k] == DateOf(rows[k], idx)
  {
    seq(|rows|, k requires 0 <= k < |rows| => DateOf(rows[k], idx))
  }

  /** A missing cell becomes NaT; any other cell must not make the parser raise. */
  predicate DateParses(parse: DateParser, column: seq<Cell>, k: nat)
    requires k < |column|
  {
    column[k].Missing? || !parse(column, k).Unparseable?
  }

  /** The converted cell at position k: a timestamp exactly when a present cell parses to an instant, NaT otherwise. */
  function ToTimestamp(parse: DateParser, column: seq<Cell>, k: nat): (r: Cell)
    requires k < |column|
    ensures r.Missing? || r.Stamp?
    ensures r.Stamp? <==> !column[k].Missing? && parse(column, k).At?
    ensures r.Stamp? ==> r.instant == parse(column, k).instant
  {
    if column[k].Missing? then Missing
    else match parse(column, k)
      case At(t) => Stamp(t)
      case NotATime => Missing
      case Unparseable => Missing
  }

  /** The row at position k with its date cell converted. */
  function WithTimestamp(parse: DateParser, column: seq<Cell>, k: nat, row: Row, idx: nat): (r: Row)
    requires k < |column|
    ensures |r| == |row|
  {
    if idx < |row| then row[idx := ToTimestamp(parse, column, k)] else row
  }

  /** The sort order of `sort_values`: timestamps ascending, NaT after every timestamp. */
  predicate DateLe(a: Cell, b: Cell) {
    if a.Stamp? && b.Stamp? then a.instant <= b.instant
    else a.Stamp? || !b.Stamp?
  }

  lemma DateLeTotal(a: Cell, b: Cell)
    ensures DateLe(a, b) || DateLe(b, a)
  {
  }

  predicate SortedByDate(rows: seq<Row>, idx: nat) {
    forall i, j :: 0 <= i < j < |rows| ==> DateLe(DateOf(rows[i], idx), DateOf(rows[j], idx))
  }

  /** In date order, a row whose date is NaT comes after every row with a timestamp. */
  lemma NaTSortsLast(rows: seq<Row>, idx: nat, i: int, j: int)
    requires SortedByDate(rows, idx)
    requires 0 <= i < |rows| && 0 <= j < |rows|
    requires DateOf(rows[i], idx).Missing? && DateOf(rows[j], idx).Stamp?
    ensures j < i
  {
  }

  function InsertByDate(row: Row, sorted: seq<Row>, idx: nat): (r: seq<Row>)
    requires SortedByDate(sorted, idx)
    ensures SortedByDate(r, idx)
    ensures multiset(r) == multiset(sorted) + multiset{row}
    ensures |r| == |sorted| + 1
  {
    if sorted == [] || DateLe(DateOf(row, idx), DateOf(sorted[0], idx)) then
      [row] + sorted
    else
      var rest := InsertByDate(row, sorted[1..], idx);
      assert sorted == [sorted[0]] + sorted[1..];
      forall k | 0 <= k < |rest|
        ensures DateLe(DateOf(sorted[0], idx), DateOf(rest[k], idx))
      {
        assert rest[k] in multiset(rest);
        if rest[k] != row {
          assert rest[k] in multiset(sorted[1..]);
          var m :| 0 <= m < |sorted[1..]| && sorted[1..][m] == rest[k];
          assert sorted[m + 1] == rest[k];
        }
      }
      [sorted[0]] + rest
  }

  /** `sort_values("Date")`: sorted by date and a permutation of the rows (no promise about ties). */
  function SortByDate(rows: seq<Row>, idx: nat): (r: seq<Row>)
    ensures SortedByDate(r, idx)
    ensures multiset(r) == multiset(rows)
    ensures |r| == |rows|
  {
    if rows == [] then []
    else
      assert rows == [rows[0]] + rows[1..];
      InsertByDate(rows[0], SortByDate(rows[1..], idx), idx)
  }

  // ---------------------------------------------------------------- the whole operation

  /** Renaming through the map the loop builds gives every header its canonical column. */
  lemma RenameByColumnMap(columns: seq<string>, columnMap: map<string, string>)
    requires forall c :: c in columnMap <==> c in columns && Alias(HeaderKey(c)).Some?
    requires forall c :: c in columnMap ==> Some(columnMap[c]) == Alias(HeaderKey(c))
    ensures Rename(columns, columnMap) == seq(|columns|, i requires 0 <= i < |columns| => CanonicalColumn(columns[i]))
  {
    forall j | 0 <= j < |columns|
      ensures Rename(columns, columnMap)[j] == CanonicalColumn(columns[j])
    {
      assert columns[j] in columns;
    }
  }

  /** With a single date header, the renamed Date column is the only one of that name. */
  lemma DateColumnUnique(data: seq<Record>)
    requires SingleDateHeader(data) && "Date" in RenamedColumns(data)
    ensures var idx := IndexOf(RenamedColumns(data), "Date");
            forall j :: 0 <= j < |RenamedColumns(data)| && j != idx ==> RenamedColumns(data)[j] != "Date"
  {
    var cols := ToFrame(data).columns;
    var idx := IndexOf(RenamedColumns(data), "Date");
    forall j | 0 <= j < |cols| && j != idx
      ensures RenamedColumns(data)[j] != "Date"
    {
      CanonicalColumnExactly(cols[j], "Date");
      CanonicalColumnExactly(cols[idx], "Date");
      AliasOfDate(HeaderKey(cols[j]));
      AliasOfDate(HeaderKey(cols[idx]));
    }
  }

  /** The rows with their date cells converted, in payload order. */
  function ConvertedRows(data: seq<Record>, parse: DateParser, idx: nat): (r: seq<Row>)
    ensures |r| == |data|
    ensures forall i :: 0 <= i < |r| ==> |r[i]| == |ToFrame(data).columns|
    ensures forall i, j :: 0 <= i < |r| && 0 <= j < |r[i]| && j != idx ==> r[i][j] == ToFrame(data).rows[i][j]
    ensures forall i :: 0 <= i < |r| && idx < |r[i]| ==>
              r[i][idx] == ToTimestamp(parse, DateColumn(ToFrame(data).rows, idx), i)
  {
    var rows := ToFrame(data).rows;
    var column := DateColumn(rows, idx);
    seq(|rows|, i requires 0 <= i < |rows| => WithTimestamp(parse, column, i, rows[i], idx))
  }

  /** Some date cell of the payload's column neither is missing nor parses, so the whole conversion raises. */
  predicate HasBadDate(data: seq<Record>, parse: DateParser, idx: nat) {
    var column := DateColumn(ToFrame(data).rows, idx);
    exists i :: 0 <= i < |column| && !DateParses(parse, column, i)
  }

  /**
   * `normalize_history_payload`. The four outcomes and when each happens:
   * no key at all (an empty frame); no Date or no Close column after the
   * rename; a date cell that does not parse; otherwise the renamed frame
   * with converted dates, sorted by date.
   */
  method NormalizeHistoryPayload(data: seq<Record>, parse: DateParser) returns (r: Result<Frame, PayloadError>)
    requires SingleDateHeader(data)
    ensures r == Err(EmptyPayload) <==> NoFields(data)
    ensures r == Err(MissingRequiredFields) <==>
              !NoFields(data) && !(HasHeader(data, "date") && HasHeader(data, "close"))
    ensures r == Err(InvalidDateValue) <==>
              && !NoFields(data) && HasHeader(data, "date") && HasHeader(data, "close")
              && "Date" in RenamedColumns(data)
              && HasBadDate(data, parse, IndexOf(RenamedColumns(data), "Date"))
    ensures r.Ok? ==> "Date" in RenamedColumns(data) && "Close" in RenamedColumns(data)
    ensures r.Ok? ==> r.value.columns == RenamedColumns(data) && WellFormed(r.value)
    ensures r.Ok? && "Date" in RenamedColumns(data) ==>
              var idx := IndexOf(RenamedColumns(data), "Date");
              && (forall j :: 0 <= j < |r.value.columns| && j != idx ==> r.value.columns[j] != "Date")
              && multiset(r.value.rows) == multiset(ConvertedRows(data, parse, idx))
              && SortedByDate(r.value.rows, idx)
  {
    var df := ToFrame(data);
    EmptyFrameExactly(data);
    if IsEmpty(df) {
      return Err(EmptyPayload);
    }

    var columnMap := BuildColumnMap(df.columns);
    RenameByColumnMap(df.columns, columnMap);
    df := df.(columns := Rename(df.columns, columnMap));
    RenamedHasDate(data);
    RenamedHasClose(data);
    if "Date" !in df.columns || "Close" !in df.columns {
      return Err(MissingRequiredFields);
    }

    var idx := IndexOf(df.columns, "Date");
    DateColumnUnique(data);
    var column := DateColumn(df.rows, idx);
    if exists i :: 0 <= i < |column| && !DateParses(parse, column, i) {
      return Err(InvalidDateValue);
    }
    var converted := ConvertedRows(data, parse, idx);
    var sorted := SortByDate(converted, idx);
    forall i | 0 <= i < |sorted|
      ensures |sorted[i]| == |df.columns|
    {
      assert sorted[i] in multiset(converted);
    }
    df := df.(rows := sorted);
    return Ok(df);
  }
}
