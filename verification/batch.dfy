/** The batch run: the header gains an `access` column, and every data row is
    checked and written back with its label appended, one output row per input
    row, until a row makes the checker raise. */
module Batch {
  import opened Wrappers
  import opened Platforms
  import opened Classifier

  /** One field of a parsed row: the CSV parser reads an unquoted empty field
      as nil, and writing nil back gives an empty field again. */
  type Cell = Option<string>

  /** One table row: its fields in order, the last being the URL to check. */
  type Row = seq<Cell>

  /** The two page sources: the browser's rendered HTML for a URL, and the
      plain HTTP body fetched for the Duke content page. */
  datatype Web = Web(render: string -> string, raw: string -> string)

  /** Where and why a run stopped early. */
  datatype Halt = Halt(row: nat, crash: Crash)

  /** `n` nil cells (none when `n` is not positive). */
  function Nils(n: int): Row {
    seq(if n > 0 then n else 0, _ => None)
  }

  /** The fields of the table row a parsed data line becomes, when the table
      is read with a header row: a blank line is a row with no fields, and a
      line shorter than the header row is padded with nil fields. */
  function TableRow(header: Row, line: Row): (row: Row)
    ensures |line| == 0 ==> row == []
    ensures |line| > 0 ==>
              && |row| == (if |line| < |header| then |header| else |line|)
              && row[..|line|] == line
              && forall k :: |line| <= k < |row| ==> row[k].None?
  {
    if |line| == 0 then [] else line + Nils(|header| - |line|)
  }

  /** The headers of that table row: none for a blank line, otherwise the
      header row, padded with nil headers for fields beyond it. */
  function RowHeaders(header: Row, line: Row): (headers: Row)
    ensures |line| == 0 ==> headers == []
    ensures |line| > 0 ==>
              && |headers| == (if |line| < |header| then |header| else |line|)
              && headers[..|header|] == header
              && forall k :: |header| <= k < |headers| ==> headers[k].None?
  {
    if |line| == 0 then [] else header + Nils(|line| - |header|)
  }

  /** The headers the table reports: those of its first data row, or none at
      all when it has no data rows. */
  function TableHeaders(header: Row, lines: seq<Row>): Row {
    if |lines| == 0 then [] else RowHeaders(header, lines[0])
  }

  /** A non-blank data line shorter than the header row ends in a padded nil
      field, so it has no URL and the row raises. */
  lemma ShortLineHasNoUrl(header: Row, line: Row)
    requires 0 < |line| < |header|
    ensures !HasUrl(TableRow(header, line))
  {
  }

  /** The output header: the reported header with one trailing `access` column. */
  function AccessHeader(header: Row): (out: Row)
    ensures |out| == |header| + 1
    ensures out[..|header|] == header
    ensures out[|header|] == Some("access")
  {
    header + [Some("access")]
  }

  /** The leading fields and the URL popped from the end of the row. A row
      with no fields, or whose last field is nil, has no URL: the browser
      would be sent to nil. */
  function SplitRow(row: Row): (r: Result<(Row, string), Crash>)
    ensures r.Success? <==> |row| > 0 && row[|row| - 1].Some?
    ensures r.Success? ==> r.value.0 + [Some(r.value.1)] == row
  {
    if |row| == 0 then Failure(NoUrlField)
    else
      match row[|row| - 1]
      case None => Failure(NoUrlField)
      case Some(url) => Success((row[..|row| - 1], url))
  }

  /** The row has a last field that is not nil. */
  predicate HasUrl(row: Row) {
    |row| > 0 && row[|row| - 1].Some?
  }

  /** The output row for one input row: the leading fields, the URL, and the
      access cell, or the reason the checker raised on it. */
  function ProcessRow(code: string, row: Row, web: Web): (r: Result<Row, Crash>)
    ensures !HasUrl(row) ==> r == Failure(NoUrlField)
    ensures HasUrl(row) ==>
              var access := Access(code, web.render(row[|row| - 1].value), web.raw);
              && (r.Success? <==> access.Success?)
              && (access.Failure? ==> r == Failure(access.error))
              && (r.Success? ==> |r.value| == |row| + 1 && r.value[..|row|] == row
                                 && r.value[|row|] == access.value)
  {
    match SplitRow(row)
    case Failure(e) => Failure(e)
    case Success((rest, url)) =>
      match Access(code, web.render(url), web.raw)
      case Failure(e) => Failure(e)
      case Success(access) =>
        assert rest + [Some(url), access] == row + [access];
        Success(rest + [Some(url), access])
  }

  /** Apart from the Duke reader, a known or unknown platform code never
      makes a row with a URL fail. */
  lemma RowWithUrlSucceeds(code: string, row: Row, web: Web)
    requires HasUrl(row) && code != Code(Duphw)
    ensures ProcessRow(code, row, web).Success?
  {
    var page := web.render(row[|row| - 1].value);
    match ParsePlatform(code)
    case None =>
    case Some(p) => SinglePageDecides(p, page, web.raw, web.raw);
  }

  /** Runs the checker over a table given as its header row and its parsed
      data lines: `written` is what the run appends to the output file, header
      first, and `halt` says which row raised, if any. */
  method RunBatch(code: string, header: Row, lines: seq<Row>, web: Web)
    returns (written: seq<Row>, halt: Option<Halt>)
    ensures 1 <= |written| <= |lines| + 1 && written[0] == AccessHeader(TableHeaders(header, lines))
    ensures |lines| == 0 || |lines[0]| == 0 ==> written[0] == [Some("access")]
    ensures |lines| > 0 && 0 < |lines[0]| <= |header| ==> written[0] == AccessHeader(header)
    ensures forall k :: 0 <= k < |written| - 1 ==>
              ProcessRow(code, TableRow(header, lines[k]), web) == Success(written[k + 1])
    ensures halt.None? ==> |written| == |lines| + 1
    ensures halt.Some? ==>
              && halt.value.row < |lines|
              && |written| == halt.value.row + 1
              && ProcessRow(code, TableRow(header, lines[halt.value.row]), web) == Failure(halt.value.crash)
    ensures halt.None? <==> forall k :: 0 <= k < |lines| ==> ProcessRow(code, TableRow(header, lines[k]), web).Success?
  {
    written := [AccessHeader(TableHeaders(header, lines))];
    halt := None;
    var i := 0;
    while i < |lines|
      invariant 0 <= i <= |lines|
      invariant |written| == i + 1 && written[0] == AccessHeader(TableHeaders(header, lines))
      invariant forall k :: 0 <= k < i ==> ProcessRow(code, TableRow(header, lines[k]), web) == Success(written[k + 1])
    {
      match ProcessRow(code, TableRow(header, lines[i]), web) {
        case Failure(e) =>
          halt := Some(Halt(i, e));
          return;
        case Success(out) =>
          written := written + [out];
      }
      i := i + 1;
    }
  }
}
