/** The parser for tab-separated client output of src/query.rs. Text is a sequence of bytes, each seen as
    the character of that code, so that lengths are byte counts. */
module TableCodec {
  datatype Value = Null | Text(s: string)

  datatype Table = Table(columns: seq<string>, rows: seq<seq<Value>>, truncated: bool)

  // ----- splitting -----

  function Split(s: string, sep: char): (parts: seq<string>)
    ensures |parts| >= 1
    ensures forall p :: p in parts ==> sep !in p
    decreases |s|
  {
    if s == "" then [""]
    else
      var rest := Split(s[1..], sep);
      if s[0] == sep then [""] + rest else [[s[0]] + rest[0]] + rest[1..]
  }

  function Join(parts: seq<string>, sep: char): string
    requires |parts| >= 1
  {
    if |parts| == 1 then parts[0] else parts[0] + [sep] + Join(parts[1..], sep)
  }

  lemma {:induction false} SplitPrefix(p: string, rest: string, sep: char)
    requires sep !in p
    ensures Split(p + [sep] + rest, sep) == [p] + Split(rest, sep)
    decreases |p|
  {
    var t := p + [sep] + rest;
    if p == "" {
      assert t[1..] == rest;
    } else {
      assert t[1..] == p[1..] + [sep] + rest;
      SplitPrefix(p[1..], rest, sep);
      assert [t[0]] + p[1..] == p;
    }
  }

  lemma {:induction false} SplitWhole(p: string, sep: char)
    requires sep !in p
    ensures Split(p, sep) == [p]
    decreases |p|
  {
    if p != "" {
      SplitWhole(p[1..], sep);
      assert [p[0]] + p[1..] == p;
    }
  }

  /** Splitting inverts joining parts that do not hold the separator. */
  lemma {:induction false} SplitJoin(parts: seq<string>, sep: char)
    requires |parts| >= 1 && forall p :: p in parts ==> sep !in p
    ensures Split(Join(parts, sep), sep) == parts
    decreases |parts|
  {
    if |parts| == 1 {
      SplitWhole(parts[0], sep);
    } else {
      SplitPrefix(parts[0], Join(parts[1..], sep), sep);
      SplitJoin(parts[1..], sep);
    }
  }

  function TrimCR(s: string): (r: string)
    ensures r <= s && (r == "" || r[|r| - 1] != '\r')
    ensures forall i :: |r| <= i < |s| ==> s[i] == '\r'
  {
    if s != "" && s[|s| - 1] == '\r' then TrimCR(s[..|s| - 1]) else s
  }

  // ----- escapes -----

  /** What a backslash followed by `c` stands for. */
  function Decoded(c: char): string {
    if c == 't' then "\t"
    else if c == 'n' then "\n"
    else if c == 'r' then "\r"
    else if c == '0' then "\0"
    else if c == '\\' || c == '\'' || c == '"' then [c]
    else ['\\', c]
  }

  function Unescape(f: string): string {
    if f == "" then ""
    else if f[0] == '\\' && |f| >= 2 then Decoded(f[1]) + Unescape(f[2..])
    else [f[0]] + Unescape(f[1..])
  }

  lemma {:induction false} UnescapeFrom(f: string, i: nat)
    requires i < |f|
    ensures f[i] == '\\' && i + 1 < |f| ==> Unescape(f[i..]) == Decoded(f[i + 1]) + Unescape(f[i + 2..])
    ensures !(f[i] == '\\' && i + 1 < |f|) ==> Unescape(f[i..]) == [f[i]] + Unescape(f[i + 1..])
  {
    var tail := f[i..];
    assert tail[1..] == f[i + 1..];
    if i + 1 < |f| {
      assert tail[1] == f[i + 1] && tail[2..] == f[i + 2..];
    }
  }

  /** The match on the character behind a backslash. */
  method PushDecoded(was: string, c: char) returns (out: string)
    ensures out == was + Decoded(c)
  {
    match c {
      case 't' => out := was + "\t";
      case 'n' => out := was + "\n";
      case 'r' => out := was + "\r";
      case '0' => out := was + "\0";
      case '\\' => out := was + "\\";
      case '\'' => out := was + "'";
      case '"' => out := was + "\"";
      case _ => out := was + "\\" + [c];
    }
  }

  method UnescapeField(f: string) returns (out: string)
    ensures out == Unescape(f)
  {
    hide Unescape, Decoded;
    out := "";
    var i := 0;
    assert f[0..] == f;
    while i < |f|
      invariant 0 <= i <= |f|
      invariant out + Unescape(f[i..]) == Unescape(f)
    {
      UnescapeFrom(f, i);
      if f[i] == '\\' && i + 1 < |f| {
        out := PushDecoded(out, f[i + 1]);
        i := i + 2;
      } else {
        out := out + [f[i]];
        i := i + 1;
      }
    }
    assert Unescape(f[i..]) == "" by {
      EndOfField(f[i..]);
    }
  }

  /** The characters that a backslash changes the meaning of, or that it protects. */
  const ESCAPABLE: set<char> := {'t', 'n', 'r', '0', '\\', '\'', '"'}

  /** How many backslashes of a field stand for something. */
  function Escapes(f: string): nat {
    if |f| < 2 then 0
    else if f[0] == '\\' then Escapes(f[2..]) + if f[1] in ESCAPABLE then 1 else 0
    else Escapes(f[1..])
  }

  /** Every backslash that stands for something goes, nothing else does, and a field without one stays
      as it is; a backslash before any other character, or at the end, is kept. */
  lemma {:induction false} UnescapeDrops(f: string)
    ensures |Unescape(f)| + Escapes(f) == |f|
    ensures Unescape(f) == f <==> Escapes(f) == 0
  {
    if f != "" {
      if f[0] == '\\' && |f| >= 2 {
        UnescapeDrops(f[2..]);
        assert f == ['\\', f[1]] + f[2..];
      } else {
        UnescapeDrops(f[1..]);
        assert f == [f[0]] + f[1..];
      }
    }
  }

  /** A protected character stands for itself, wherever it is. */
  lemma {:induction false} ProtectedStays(a: string, c: char, rest: string)
    requires c in {'\\', '\'', '"'} && '\\' !in a
    ensures Unescape(a + ['\\', c] + rest) == a + [c] + Unescape(rest)
  {
    hide Unescape;
    var f := a + ['\\', c] + rest;
    UnescapeFrom(f, 0);
    assert f[0..] == f;
    if a == "" {
      assert f[0] == '\\' && f[1] == c && f[2..] == rest;
    } else {
      var tail := a[1..];
      assert f[1..] == tail + ['\\', c] + rest && f[0] == a[0];
      ProtectedStays(tail, c, rest);
      assert [a[0]] + tail == a;
    }
  }

  lemma {:induction false} EndOfField(f: string)
    requires f == ""
    ensures Unescape(f) == ""
  {
  }

  function EscapeChar(c: char): (e: string)
    ensures |e| >= 1 && '\t' !in e && '\n' !in e && '\r' !in e
  {
    if c == '\t' then "\\t"
    else if c == '\n' then "\\n"
    else if c == '\r' then "\\r"
    else if c == '\0' then "\\0"
    else if c == '\\' then "\\\\"
    else [c]
  }

  /** The rendering of one text that `Unescape` inverts. */
  function Escape(s: string): (e: string)
    ensures '\t' !in e && '\n' !in e && '\r' !in e && (e == "" <==> s == "")
  {
    if s == "" then "" else EscapeChar(s[0]) + Escape(s[1..])
  }

  /** An escaped character is read back as one unit, whatever follows it. */
  lemma {:induction false} UnitComesBack(c: char, rest: string)
    ensures Unescape(EscapeChar(c) + rest) == [c] + Unescape(rest)
  {
    var e := EscapeChar(c);
    assert (e + rest)[|e|..] == rest;
    assert (e + rest)[0] == e[0];
    if |e| == 2 {
      assert (e + rest)[1] == e[1];
    }
  }

  lemma {:induction false} UnescapeEscape(s: string)
    ensures Unescape(Escape(s)) == s
  {
    hide Unescape, EscapeChar;
    if s == "" {
      EndOfField(s);
    } else {
      UnescapeEscape(s[1..]);
      UnitComesBack(s[0], Escape(s[1..]));
      assert [s[0]] + s[1..] == s;
    }
  }

  lemma {:induction false} EscapeIsNullOnlyFor(s: string)
    ensures Escape(s) == "NULL" <==> s == "NULL"
  {
    UnescapeEscape(s);
    PlainEscape("NULL");
    PlainUnescape("NULL");
  }

  lemma {:induction false} PlainEscape(s: string)
    requires forall c :: c in s ==> EscapeChar(c) == [c]
    ensures Escape(s) == s
  {
    if s != "" {
      PlainEscape(s[1..]);
      assert s == [s[0]] + s[1..];
    }
  }

  lemma {:induction false} PlainUnescape(s: string)
    requires forall c :: c in s ==> EscapeChar(c) == [c]
    ensures Unescape(s) == s
  {
    PlainEscape(s);
    UnescapeEscape(s);
  }

  // ----- parsing -----

  function ParseField(f: string): Value {
    if f == "NULL" then Null else Text(Unescape(f))
  }

  function ParseFields(fields: seq<string>): (row: seq<Value>)
    ensures |row| == |fields| && forall i :: 0 <= i < |row| ==> row[i] == ParseField(fields[i])
  {
    seq(|fields|, i requires 0 <= i < |fields| => ParseField(fields[i]))
  }

  function ParseRow(line: string): seq<Value> {
    ParseFields(Split(TrimCR(line), '\t'))
  }

  function CellBytes(v: Value): nat {
    match v
    case Null => 0
    case Text(s) => |s| + 1
  }

  function RowBytes(row: seq<Value>): nat {
    if row == [] then 0 else RowBytes(row[..|row| - 1]) + CellBytes(row[|row| - 1])
  }

  /** The cells that are not NULL. */
  function Texts(row: seq<Value>): seq<string> {
    if row == [] then []
    else
      Texts(row[..|row| - 1]) + match row[|row| - 1] case Null => [] case Text(s) => [s]
  }

  lemma {:induction false} JoinMore(parts: seq<string>, p: string, sep: char)
    requires |parts| >= 1
    ensures Join(parts + [p], sep) == Join(parts, sep) + [sep] + p
  {
    if |parts| > 1 {
      JoinMore(parts[1..], p, sep);
      assert (parts + [p])[1..] == parts[1..] + [p];
    } else {
      assert (parts + [p])[1..] == [p];
    }
  }

  /** A row counts as many bytes as the line of its decoded cells, with separators and the line's end;
      NULL cells count nothing. */
  lemma {:induction false} RowBytesAreLineLength(row: seq<Value>)
    ensures RowBytes(row) == if Texts(row) == [] then 0 else |Join(Texts(row), '\t')| + 1
  {
    if row != [] {
      var front := row[..|row| - 1];
      RowBytesAreLineLength(front);
      match row[|row| - 1]
      case Null => assert Texts(row) == Texts(front);
      case Text(s) =>
        if Texts(front) != [] {
          JoinMore(Texts(front), s, '\t');
        }
    }
  }

  function Bytes(rows: seq<seq<Value>>): nat {
    if rows == [] then 0 else Bytes(rows[..|rows| - 1]) + RowBytes(rows[|rows| - 1])
  }

  /** All rows of the text, without any limit: empty lines are skipped. */
  function AllRows(lines: seq<string>): seq<seq<Value>> {
    if lines == [] then []
    else
      var last := lines[|lines| - 1];
      AllRows(lines[..|lines| - 1]) + if last == "" then [] else [ParseRow(last)]
  }

  function ParseColumns(names: seq<string>): seq<string> {
    if names == [] then []
    else
      var last := names[|names| - 1];
      ParseColumns(names[..|names| - 1]) + if last == "" then [] else [Unescape(TrimCR(last))]
  }

  /** `k` rows are the longest prefix of `all` within both limits. */
  ghost predicate LongestWithin(all: seq<seq<Value>>, k: nat, capRows: nat, capBytes: nat) {
    && k <= |all|
    && k <= capRows && Bytes(all[..k]) <= capBytes
    && forall m: nat :: k < m <= |all| ==> m > capRows || Bytes(all[..m]) > capBytes
  }

  lemma {:induction false} BytesMonotone(all: seq<seq<Value>>, k: nat, m: nat)
    requires k <= m <= |all|
    ensures Bytes(all[..k]) <= Bytes(all[..m])
    decreases m - k
  {
    if k < m {
      BytesMonotone(all, k, m - 1);
      assert all[..m][..m - 1] == all[..m - 1];
    }
  }

  lemma {:induction false} BytesStep(all: seq<seq<Value>>, k: nat)
    requires k < |all|
    ensures Bytes(all[..k + 1]) == Bytes(all[..k]) + RowBytes(all[k])
  {
    assert all[..k + 1][..k] == all[..k];
  }

  lemma {:induction false} RowsStep(lines: seq<string>, i: nat)
    requires i < |lines|
    ensures AllRows(lines[..i + 1]) == AllRows(lines[..i]) + if lines[i] == "" then [] else [ParseRow(lines[i])]
  {
    assert lines[..i + 1][..i] == lines[..i];
  }

  /** The rows after a given line only extend the rows before it. */
  lemma {:induction false} AllRowsExtends(lines: seq<string>, i: nat)
    requires i <= |lines|
    ensures AllRows(lines[..i]) <= AllRows(lines)
    decreases |lines| - i
  {
    if i == |lines| {
      assert lines[..i] == lines;
    } else {
      AllRowsExtends(lines, i + 1);
      RowsStep(lines, i);
    }
  }

  /** A row that would pass a limit ends the prefix. */
  lemma {:induction false} StopsHere(all: seq<seq<Value>>, k: nat, capRows: nat, capBytes: nat)
    requires k < |all| && k <= capRows && Bytes(all[..k]) <= capBytes
    requires k >= capRows || Bytes(all[..k]) + RowBytes(all[k]) > capBytes
    ensures LongestWithin(all, k, capRows, capBytes)
  {
    BytesStep(all, k);
    forall m: nat | k < m <= |all| ensures m > capRows || Bytes(all[..m]) > capBytes {
      BytesMonotone(all, k + 1, m);
    }
  }

  method ParseLine(line: string, used: nat) returns (row: seq<Value>, usedNow: nat)
    ensures row == ParseRow(line)
    ensures usedNow == used + RowBytes(row)
  {
    hide Split, Unescape;
    var fields := Split(TrimCR(line), '\t');
    row, usedNow := [], used;
    for i := 0 to |fields|
      invariant row == ParseFields(fields)[..i]
      invariant usedNow == used + RowBytes(row)
    {
      var v := Null;
      if fields[i] != "NULL" {
        var s := UnescapeField(fields[i]);
        v := Text(s);
        usedNow := usedNow + |s| + 1;
      }
      assert (row + [v])[..|row|] == row;
      row := row + [v];
    }
  }

  method ParseHeader(header: string) returns (columns: seq<string>)
    ensures columns == ParseColumns(Split(header, '\t'))
  {
    var names := Split(header, '\t');
    columns := [];
    for i := 0 to |names|
      invariant columns == ParseColumns(names[..i])
    {
      assert names[..i + 1][..i] == names[..i];
      if names[i] != "" {
        var name := UnescapeField(TrimCR(names[i]));
        columns := columns + [name];
      }
    }
    assert names[..|names|] == names;
  }

  /** The rows are the longest prefix of all rows within both limits; `truncated` says that it is proper. */
  ghost predicate IsParse(text: string, capRows: nat, capBytes: nat, t: Table) {
    var lines := Split(text, '\n');
    var all := AllRows(lines[1..]);
    && t.columns == ParseColumns(Split(lines[0], '\t'))
    && t.rows <= all && LongestWithin(all, |t.rows|, capRows, capBytes)
    && (t.truncated <==> t.rows != all)
  }

  lemma {:induction false} ParseIsUnique(text: string, capRows: nat, capBytes: nat, t: Table, u: Table)
    requires IsParse(text, capRows, capBytes, t) && IsParse(text, capRows, capBytes, u)
    ensures t == u
  {
    var all := AllRows(Split(text, '\n')[1..]);
    assert t.rows == all[..|t.rows|] && u.rows == all[..|u.rows|];
  }

  method ParseTable(text: string, capRows: nat, capBytes: nat) returns (t: Table)
    ensures IsParse(text, capRows, capBytes, t)
  {
    var lines := Split(text, '\n');
    var columns := ParseHeader(lines[0]);
    var rows, truncated := ParseRows(lines[1..], capRows, capBytes);
    t := Table(columns, rows, truncated);
  }

  /** The loop over the lines behind the header. */
  method ParseRows(body: seq<string>, capRows: nat, capBytes: nat) returns (rows: seq<seq<Value>>, truncated: bool)
    ensures rows <= AllRows(body) && LongestWithin(AllRows(body), |rows|, capRows, capBytes)
    ensures truncated <==> rows != AllRows(body)
  {
    hide AllRows, ParseRow, Bytes, RowBytes, LongestWithin;
    var used := 0;
    rows, truncated := [], false;
    ghost var all := AllRows(body);
    NoRows();
    assert body[..0] == [];
    var i := 0;
    while i < |body|
      invariant 0 <= i <= |body|
      invariant rows == AllRows(body[..i]) && used == Bytes(rows) && !truncated
      invariant |rows| <= capRows && used <= capBytes
    {
      RowsStep(body, i);
      if body[i] == "" {
        i := i + 1;
        continue;
      }
      AllRowsExtends(body, i + 1);
      assert rows + [ParseRow(body[i])] <= all;
      assert all[..|rows|] == rows && all[|rows|] == ParseRow(body[i]);
      if |rows| >= capRows {
        StopsHere(all, |rows|, capRows, capBytes);
        truncated := true;
        return;
      }
      var row;
      row, used := ParseLine(body[i], used);
      if used > capBytes {
        StopsHere(all, |rows|, capRows, capBytes);
        truncated := true;
        return;
      }
      BytesStep(all, |rows|);
      assert all[..|rows| + 1] == rows + [row];
      rows := rows + [row];
      i := i + 1;
    }
    assert body[..i] == body;
    AllFits(rows, capRows, capBytes);
  }

  lemma {:induction false} NoRows()
    ensures AllRows([]) == [] && Bytes([]) == 0
  {
  }

  lemma {:induction false} AllFits(all: seq<seq<Value>>, capRows: nat, capBytes: nat)
    requires |all| <= capRows && Bytes(all) <= capBytes
    ensures LongestWithin(all, |all|, capRows, capBytes)
  {
    assert all[..|all|] == all;
  }

  // ----- round trip -----

  function RenderCell(v: Value): (r: string)
    ensures '\t' !in r && '\n' !in r && '\r' !in r
  {
    match v
    case Null => "NULL"
    case Text(s) => Escape(s)
  }

  function RenderCells(row: seq<Value>): (r: seq<string>)
    ensures |r| == |row| && forall i :: 0 <= i < |r| ==> r[i] == RenderCell(row[i])
  {
    seq(|row|, i requires 0 <= i < |row| => RenderCell(row[i]))
  }

  function RenderRow(row: seq<Value>): string {
    if row == [] then "" else Join(RenderCells(row), '\t')
  }

  function RenderRows(rows: seq<seq<Value>>): (r: seq<string>)
    ensures |r| == |rows| && forall i :: 0 <= i < |r| ==> r[i] == RenderRow(rows[i])
  {
    seq(|rows|, i requires 0 <= i < |rows| => RenderRow(rows[i]))
  }

  function EscapeAll(names: seq<string>): (r: seq<string>)
    ensures |r| == |names| && forall i :: 0 <= i < |r| ==> r[i] == Escape(names[i])
  {
    seq(|names|, i requires 0 <= i < |names| => Escape(names[i]))
  }

  function RenderHeader(columns: seq<string>): string {
    if columns == [] then "" else Join(EscapeAll(columns), '\t')
  }

  /** Every line is followed by a line feed, as the client writes it. */
  function Render(columns: seq<string>, rows: seq<seq<Value>>): string {
    Join([RenderHeader(columns)] + RenderRows(rows) + [""], '\n')
  }

  lemma {:induction false} JoinAvoids(parts: seq<string>, sep: char, c: char)
    requires |parts| >= 1 && c != sep && forall p :: p in parts ==> c !in p
    ensures c !in Join(parts, sep)
    decreases |parts|
  {
    if |parts| > 1 {
      JoinAvoids(parts[1..], sep, c);
    }
  }

  lemma {:induction false} RowAvoids(row: seq<Value>)
    ensures '\n' !in RenderRow(row) && '\r' !in RenderRow(row)
  {
    if row != [] {
      JoinAvoids(RenderCells(row), '\t', '\n');
      JoinAvoids(RenderCells(row), '\t', '\r');
    }
  }

  lemma {:induction false} HeaderAvoids(columns: seq<string>)
    ensures '\n' !in RenderHeader(columns)
  {
    if columns != [] {
      JoinAvoids(EscapeAll(columns), '\t', '\n');
    }
  }

  lemma {:induction false} LinesOfRender(columns: seq<string>, rows: seq<seq<Value>>)
    ensures Split(Render(columns, rows), '\n') == [RenderHeader(columns)] + RenderRows(rows) + [""]
  {
    HeaderAvoids(columns);
    forall i | 0 <= i < |rows| ensures '\n' !in RenderRows(rows)[i] {
      RowAvoids(rows[i]);
    }
    SplitJoin([RenderHeader(columns)] + RenderRows(rows) + [""], '\n');
  }

  /** The value that a rendered cell comes back as. */
  function Reread(v: Value): Value {
    if v == Text("NULL") then Null else v
  }

  lemma {:induction false} CellComesBack(v: Value)
    ensures ParseField(RenderCell(v)) == Reread(v)
  {
    match v
    case Null =>
    case Text(s) =>
      EscapeIsNullOnlyFor(s);
      UnescapeEscape(s);
  }

  ghost predicate NoNullText(row: seq<Value>) {
    Text("NULL") !in row
  }

  lemma {:induction false} RowComesBackIff(row: seq<Value>)
    requires RenderRow(row) != ""
    ensures ParseRow(RenderRow(row)) == row <==> NoNullText(row)
  {
    RowAvoids(row);
    SplitJoin(RenderCells(row), '\t');
    var back := ParseRow(RenderRow(row));
    forall i | 0 <= i < |row| ensures back[i] == Reread(row[i]) {
      CellComesBack(row[i]);
    }
  }

  lemma {:induction false} RowsKept(lines: seq<string>)
    ensures |AllRows(lines)| <= |lines|
    ensures |AllRows(lines)| == |lines| <==> "" !in lines
    ensures "" !in lines ==> forall i :: 0 <= i < |lines| ==> AllRows(lines)[i] == ParseRow(lines[i])
  {
    if lines != [] {
      RowsKept(lines[..|lines| - 1]);
      assert lines == lines[..|lines| - 1] + [lines[|lines| - 1]];
    }
  }

  lemma {:induction false} ColumnsKept(names: seq<string>)
    ensures |ParseColumns(names)| <= |names|
    ensures |ParseColumns(names)| == |names| <==> "" !in names
    ensures "" !in names ==> forall i :: 0 <= i < |names| ==> ParseColumns(names)[i] == Unescape(TrimCR(names[i]))
  {
    if names != [] {
      ColumnsKept(names[..|names| - 1]);
      assert names == names[..|names| - 1] + [names[|names| - 1]];
    }
  }

  lemma {:induction false} NameComesBack(name: string)
    ensures Unescape(TrimCR(Escape(name))) == name && (Escape(name) == "" <==> name == "")
  {
    UnescapeEscape(name);
  }

  lemma {:induction false} NoHeader()
    ensures ParseColumns(Split("", '\t')) == []
  {
    assert Split("", '\t') == [""];
    assert [""][..0] == [];
    assert ParseColumns([]) == [];
  }

  lemma {:induction false} HeaderComesBackIff(columns: seq<string>)
    ensures ParseColumns(Split(RenderHeader(columns), '\t')) == columns <==> "" !in columns
  {
    hide Split, Join, ParseColumns, Escape, Unescape, TrimCR;
    if columns == [] {
      NoHeader();
    } else {
      var names := EscapeAll(columns);
      forall i | 0 <= i < |columns|
        ensures '\t' !in names[i] && Unescape(TrimCR(names[i])) == columns[i] && (names[i] == "" <==> columns[i] == "")
      {
        NameComesBack(columns[i]);
      }
      SplitJoin(names, '\t');
      ColumnsKept(names);
      if "" in columns {
        var i :| 0 <= i < |columns| && columns[i] == "";
        assert names[i] == "";
      }
    }
  }

  ghost predicate RowSurvives(row: seq<Value>) {
    NoNullText(row) && RenderRow(row) != ""
  }

  /** The rows that render to an empty line: no cell at all, or one empty text. */
  lemma {:induction false} EmptyLineIff(row: seq<Value>)
    ensures RenderRow(row) == "" <==> row == [] || row == [Text("")]
  {
    if |row| == 1 {
      assert RenderCells(row)[0] == RenderCell(row[0]);
    } else if |row| > 1 {
      assert |Join(RenderCells(row), '\t')| >= 1;
    }
  }

  lemma {:induction false} RowsComeBackIff(rows: seq<seq<Value>>)
    ensures AllRows(RenderRows(rows)) == rows <==> forall r :: r in rows ==> RowSurvives(r)
  {
    var lines := RenderRows(rows);
    RowsKept(lines);
    if "" in lines {
      var i :| 0 <= i < |lines| && lines[i] == "";
      assert rows[i] in rows && !RowSurvives(rows[i]);
    } else {
      forall i | 0 <= i < |rows| ensures AllRows(lines)[i] == rows[i] <==> RowSurvives(rows[i]) {
        assert lines[i] in lines;
        RowComesBackIff(rows[i]);
      }
      if r :| r in rows && !RowSurvives(r) {
        var i :| 0 <= i < |rows| && rows[i] == r;
        assert AllRows(lines)[i] != rows[i];
      }
    }
  }

  /** The final empty line of the rendering adds no row. */
  lemma {:induction false} BodyOfRender(columns: seq<string>, rows: seq<seq<Value>>)
    ensures Split(Render(columns, rows), '\n')[0] == RenderHeader(columns)
    ensures AllRows(Split(Render(columns, rows), '\n')[1..]) == AllRows(RenderRows(rows))
  {
    hide Split, Join, RenderHeader, ParseRow, Render;
    LinesOfRender(columns, rows);
    var lines := RenderRows(rows);
    assert Split(Render(columns, rows), '\n')[1..] == lines + [""];
    assert (lines + [""])[..|lines|] == lines;
  }

  /** The limits bite exactly when the table exceeds them. */
  lemma {:induction false} WithinIff(all: seq<seq<Value>>, k: nat, capRows: nat, capBytes: nat)
    requires LongestWithin(all, k, capRows, capBytes)
    ensures k == |all| <==> |all| <= capRows && Bytes(all) <= capBytes
  {
    assert all[..|all|] == all;
  }

  /** Round trip: parsing the rendering gives back columns, cells and nulls if and only if no column name is
      empty, no text cell reads NULL, no row renders to an empty line and the table is within the limits. */
  lemma {:induction false} RoundTripIff(
      columns: seq<string>, rows: seq<seq<Value>>, capRows: nat, capBytes: nat, t: Table)
    requires IsParse(Render(columns, rows), capRows, capBytes, t)
    ensures t == Table(columns, rows, false) <==>
      "" !in columns && (forall r :: r in rows ==> RowSurvives(r)) && |rows| <= capRows && Bytes(rows) <= capBytes
  {
    hide Split, Join, ParseColumns, RowSurvives, AllRows, Render, RenderHeader, Bytes, LongestWithin;
    var all := AllRows(RenderRows(rows));
    BodyOfRender(columns, rows);
    HeaderComesBackIff(columns);
    RowsComeBackIff(rows);
    WithinIff(all, |t.rows|, capRows, capBytes);
    assert t.rows == all[..|t.rows|];
    assert all[..|all|] == all;
  }
}
