/**
 * The CSV export of the admin views (`ExportUtils.js`): `safeStringify`
 * and the text built by `exportToCsv`. DOMPurify's `sanitize` is a
 * parameter; building the Blob and saving the file are not modelled.
 */
module ExportUtils {
  import opened Common

  /** A JavaScript value read from an exported item. `Object` carries what
   *  `JSON.stringify` yields, or `None` when it throws. */
  datatype JsValue = Null | Undefined | Object(json: Option<string>) | Primitive(text: string)

  /** A column definition: its header title and the key read from each
   *  item. */
  datatype Column = Column(title: string, dataKey: string)

  type Item = map<string, JsValue>

  const OBJECT_FALLBACK := "[Object]"

  /** `safeStringify(value)`. */
  function SafeStringify(v: JsValue): (s: string)
    ensures v.Null? || v.Undefined? ==> s == ""
    ensures v.Object? && v.json.None? ==> s == OBJECT_FALLBACK
  {
    match v
    case Null => ""
    case Undefined => ""
    case Object(json) => if json.Some? then json.value else OBJECT_FALLBACK
    case Primitive(text) => text
  }

  /** `item[key]`: `undefined` when the key is absent. */
  function Lookup(item: Item, key: string): JsValue
  {
    if key in item then item[key] else Undefined
  }

  /** `replace(/"/g, '""')`: every quote doubled, as section 2, rule 7 of
   *  RFC 4180 asks inside a quoted field. */
  function Escape(s: string): string
  {
    ReplaceChar(s, '"', "\"\"")
  }

  function Quote(s: string): string
  {
    ['"'] + s + ['"']
  }

  /** A record of quoted, escaped fields joined with ','. */
  function Record(fields: seq<string>): string
  {
    Join(seq(|fields|, i requires 0 <= i < |fields| => Quote(Escape(fields[i]))), ',')
  }

  /** The sanitized text of each column of one item, in column order. */
  function Values(sanitize: string -> string, item: Item, columns: seq<Column>): (r: seq<string>)
    ensures |r| == |columns|
  {
    seq(|columns|, i requires 0 <= i < |columns| => sanitize(SafeStringify(Lookup(item, columns[i].dataKey))))
  }

  function Titles(sanitize: string -> string, columns: seq<Column>): (r: seq<string>)
    ensures |r| == |columns|
  {
    seq(|columns|, i requires 0 <= i < |columns| => sanitize(columns[i].title))
  }

  /** The header line as written: each title is quoted but its own quotes
   *  are left as they are. */
  function Header(sanitize: string -> string, columns: seq<Column>): string
  {
    Join(seq(|columns|, i requires 0 <= i < |columns| => Quote(sanitize(columns[i].title))), ',')
  }

  /** The `csvContent` of `exportToCsv`: the header and one line per item,
   *  joined with '\n'. */
  function CsvContent(sanitize: string -> string, data: seq<Item>, columns: seq<Column>): string
  {
    Join([Header(sanitize, columns)] + seq(|data|, j requires 0 <= j < |data| => Record(Values(sanitize, data[j], columns))), '\n')
  }

  /** The same text with the header's quotes doubled as well. */
  function CsvContentEscapedHeader(sanitize: string -> string, data: seq<Item>, columns: seq<Column>): string
  {
    Join([Record(Titles(sanitize, columns))] + seq(|data|, j requires 0 <= j < |data| => Record(Values(sanitize, data[j], columns))), '\n')
  }

  // ---------------------------------------------------------------------
  // Reading the text back, by the rules of section 2 of RFC 4180

  /** Reads a quoted field after its opening quote: `""` is one quote and a
   *  lone quote ends the field. Returns the field and what follows it. */
  function FieldBody(s: string): (r: Option<(string, string)>)
    ensures r.Some? ==> |r.value.1| < |s|
    decreases |s|
  {
    if s == [] then None
    else if s[0] == '"' then
      if |s| > 1 && s[1] == '"' then
        match FieldBody(s[2..])
        case None => None
        case Some((v, rest)) => Some((['"'] + v, rest))
      else Some(([], s[1..]))
    else
      match FieldBody(s[1..])
      case None => None
      case Some((v, rest)) => Some(([s[0]] + v, rest))
  }

  /** Records of quoted fields: ',' separates fields and '\n' records. */
  function ParseRecords(s: string): (r: Option<seq<seq<string>>>)
    ensures r.Some? ==> |r.value| >= 1 && |r.value[0]| >= 1
    decreases |s|
  {
    if s == [] || s[0] != '"' then None
    else
      match FieldBody(s[1..])
      case None => None
      case Some((v, rest)) =>
        if rest == [] then Some([[v]])
        else if rest[0] == ',' then
          match ParseRecords(rest[1..])
          case None => None
          case Some(recs) => Some([[v] + recs[0]] + recs[1..])
        else if rest[0] == '\n' then
          match ParseRecords(rest[1..])
          case None => None
          case Some(recs) => Some([[v]] + recs)
        else None
  }

  /** What a record followed by `rest` reads as, given how `rest` reads. */
  function Prepend(fields: seq<string>, rest: string): Option<seq<seq<string>>>
  {
    if rest == [] then Some([fields])
    else match ParseRecords(rest[1..])
      case None => None
      case Some(recs) => Some([fields] + recs)
  }

  lemma {:induction false} EscapeCons(x: string)
    requires x != []
    ensures Escape(x) == (if x[0] == '"' then "\"\"" else [x[0]]) + Escape(x[1..])
  {
  }

  /** One char of field content read before `t`. */
  function Cons(c: char, r: Option<(string, string)>): Option<(string, string)>
  {
    match r
    case None => None
    case Some((v, rest)) => Some(([c] + v, rest))
  }

  lemma FieldBodyDoubled(t: string)
    ensures FieldBody(['"', '"'] + t) == Cons('"', FieldBody(t))
  {
    assert (['"', '"'] + t)[2..] == t;
  }

  lemma FieldBodyPlain(c: char, t: string)
    requires c != '"'
    ensures FieldBody([c] + t) == Cons(c, FieldBody(t))
  {
    assert ([c] + t)[1..] == t;
  }

  /** An escaped field followed by a closing quote reads back as itself. */
  lemma {:induction false} FieldBodyEscape(x: string, rest: string)
    requires rest == [] || rest[0] != '"'
    ensures FieldBody(Escape(x) + ['"'] + rest) == Some((x, rest))
    decreases |x|
  {
    var s := Escape(x) + ['"'] + rest;
    if x == [] {
      assert s == ['"'] + rest;
      assert s[1..] == rest;
    } else {
      EscapeCons(x);
      FieldBodyEscape(x[1..], rest);
      var tail := Escape(x[1..]) + ['"'] + rest;
      if x[0] == '"' {
        assert s == ['"', '"'] + tail;
        FieldBodyDoubled(tail);
      } else {
        assert s == [x[0]] + tail;
        FieldBodyPlain(x[0], tail);
      }
      assert x == [x[0]] + x[1..];
    }
  }

  lemma {:induction false} RecordCons(fields: seq<string>)
    requires |fields| >= 1
    ensures Record(fields) ==
      Quote(Escape(fields[0])) + (if |fields| == 1 then [] else [','] + Record(fields[1..]))
  {
    var q := seq(|fields|, i requires 0 <= i < |fields| => Quote(Escape(fields[i])));
    if |fields| > 1 {
      assert q[1..] == seq(|fields[1..]|, i requires 0 <= i < |fields[1..]| => Quote(Escape(fields[1..][i])));
    }
  }

  /** A quoted, escaped field is read back with what follows it. */
  lemma ReadQuotedField(x: string, after: string)
    requires after == [] || after[0] != '"'
    ensures var s := Quote(Escape(x)) + after;
      s != [] && s[0] == '"' && FieldBody(s[1..]) == Some((x, after))
  {
    var s := Quote(Escape(x)) + after;
    assert s == ['"'] + (Escape(x) + ['"'] + after);
    FieldBodyEscape(x, after);
  }

  /** A record followed by the end of the text or by a '\n' reads back as
   *  its fields. */
  lemma {:induction false} RecordReadsBack(fields: seq<string>, rest: string)
    requires |fields| >= 1
    requires rest == [] || rest[0] == '\n'
    ensures ParseRecords(Record(fields) + rest) == Prepend(fields, rest)
    decreases |fields|
  {
    RecordCons(fields);
    if |fields| == 1 {
      assert Record(fields) + rest == Quote(Escape(fields[0])) + rest;
      ReadQuotedField(fields[0], rest);
      assert fields == [fields[0]];
    } else {
      var after := [','] + (Record(fields[1..]) + rest);
      assert Record(fields) + rest == Quote(Escape(fields[0])) + after;
      ReadQuotedField(fields[0], after);
      RecordReadsBack(fields[1..], rest);
      assert after[1..] == Record(fields[1..]) + rest;
      assert [fields[0]] + fields[1..] == fields;
      var s := Record(fields) + rest;
      assert ParseRecords(s) == match ParseRecords(after[1..])
        case None => None
        case Some(recs) => Some([[fields[0]] + recs[0]] + recs[1..]);
      if rest == [] {
        assert ParseRecords(after[1..]) == Some([fields[1..]]);
        assert [[fields[0]] + [fields[1..]][0]] + [fields[1..]][1..] == [fields];
      } else if ParseRecords(rest[1..]).Some? {
        var r := ParseRecords(rest[1..]).value;
        assert ParseRecords(after[1..]) == Some([fields[1..]] + r);
        assert ([fields[1..]] + r)[1..] == r && ([fields[1..]] + r)[0] == fields[1..];
      } else {
        assert ParseRecords(after[1..]) == None;
      }
    }
  }

  /** The lines of a document of records. */
  function Lines(records: seq<seq<string>>): (r: seq<string>)
    ensures |r| == |records|
  {
    seq(|records|, j requires 0 <= j < |records| => Record(records[j]))
  }

  /** A document of non-empty records joined with '\n' reads back as those
   *  records. */
  lemma {:induction false} DocumentReadsBack(records: seq<seq<string>>)
    requires |records| >= 1
    requires forall j :: 0 <= j < |records| ==> |records[j]| >= 1
    ensures ParseRecords(Join(Lines(records), '\n')) == Some(records)
    decreases |records|
  {
    var lines := Lines(records);
    if |records| == 1 {
      RecordReadsBack(records[0], []);
      assert Record(records[0]) + [] == Record(records[0]);
      assert Join(lines, '\n') == Record(records[0]);
      assert records == [records[0]];
    } else {
      assert lines[1..] == Lines(records[1..]);
      var rest := Join(lines[1..], '\n');
      DocumentReadsBack(records[1..]);
      RecordReadsBack(records[0], ['\n'] + rest);
      assert (['\n'] + rest)[1..] == rest;
      assert Join(lines, '\n') == Record(records[0]) + (['\n'] + rest);
      assert [records[0]] + records[1..] == records;
    }
  }

  /** When no sanitized title holds a quote, the exported text reads back
   *  as the titles followed by each item's values in column order: one
   *  header record and one record of `|columns|` fields per item. */
  lemma CsvContentReadsBack(sanitize: string -> string, data: seq<Item>, columns: seq<Column>)
    requires |columns| >= 1
    requires forall i :: 0 <= i < |columns| ==> '"' !in sanitize(columns[i].title)
    ensures ParseRecords(CsvContent(sanitize, data, columns)) ==
      Some([Titles(sanitize, columns)] + seq(|data|, j requires 0 <= j < |data| => Values(sanitize, data[j], columns)))
  {
    var titles := Titles(sanitize, columns);
    var records := [titles] + seq(|data|, j requires 0 <= j < |data| => Values(sanitize, data[j], columns));
    assert Header(sanitize, columns) == Record(titles) by {
      forall i | 0 <= i < |columns|
        ensures Quote(sanitize(columns[i].title)) == Quote(Escape(titles[i]))
      {
        assert titles[i] == sanitize(columns[i].title);
      }
      assert seq(|columns|, i requires 0 <= i < |columns| => Quote(sanitize(columns[i].title)))
          == seq(|titles|, i requires 0 <= i < |titles| => Quote(Escape(titles[i])));
    }
    assert [Header(sanitize, columns)] + seq(|data|, j requires 0 <= j < |data| => Record(Values(sanitize, data[j], columns)))
        == Lines(records);
    DocumentReadsBack(records);
  }

  /** The escaped-header text reads back as titles and values for every
   *  input. */
  lemma CsvContentEscapedHeaderReadsBack(sanitize: string -> string, data: seq<Item>, columns: seq<Column>)
    requires |columns| >= 1
    ensures ParseRecords(CsvContentEscapedHeader(sanitize, data, columns)) ==
      Some([Titles(sanitize, columns)] + seq(|data|, j requires 0 <= j < |data| => Values(sanitize, data[j], columns)))
  {
    var records := [Titles(sanitize, columns)] + seq(|data|, j requires 0 <= j < |data| => Values(sanitize, data[j], columns));
    assert [Record(Titles(sanitize, columns))] + seq(|data|, j requires 0 <= j < |data| => Record(Values(sanitize, data[j], columns)))
        == Lines(records);
    DocumentReadsBack(records);
  }

  /** A title holding a quote makes the header unreadable: the column
   *  titled `a"b` with no items exports as `"a"b"`. */
  lemma QuotedTitleBreaksHeader()
    ensures ParseRecords(CsvContent(s => s, [], [Column("a\"b", "k")])) == None
  {
    var cols := [Column("a\"b", "k")];
    var title := "a\"b";
    assert seq(|cols|, i requires 0 <= i < |cols| => Quote((s => s)(cols[i].title))) == [Quote(title)];
    var text := CsvContent(s => s, [], cols);
    assert text == Quote(title);
    assert text[1..] == ['a', '"', 'b', '"'];
    var tail := ['"', 'b', '"'];
    assert FieldBody(tail) == Some(([], tail[1..]));
    assert text[1..][1..] == tail;
    assert FieldBody(text[1..]) == Some((['a'] + [], tail[1..]));
  }

  /** A key missing from an item exports as the empty quoted field. */
  lemma MissingKeyEmptyCell(sanitize: string -> string, item: Item, key: string)
    requires key !in item && sanitize("") == ""
    ensures Quote(Escape(sanitize(SafeStringify(Lookup(item, key))))) == "\"\""
  {
  }
}
