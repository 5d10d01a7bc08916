/**
 * The three per-bank readers. Each walks the CSV rows after the first line,
 * arranges a row into the blob layout `[date, id, description, "", amount]`,
 * builds a record from it and keeps the records in row order. A `ValueError`
 * from the record constructor skips the row; any other exception escapes and
 * ends the read. The record constructor is a parameter `build`.
 */
module Institution {
  import opened Wrappers
  import opened PyErrors
  import opened Text
  import opened Dates
  import Entry
  import LegacyEntry

  type Blob = LegacyEntry.Blob

  /** What one row comes to: `None` when the reader's guard skips it. */
  type Outcome<E> = Option<Result<E, Error>>

  /** A CSV row handed over unchanged. */
  function AsBlob(row: seq<string>): (b: Blob)
    ensures |b| == |row| && forall k :: 0 <= k < |row| ==> b[k] == Some(row[k])
  {
    seq(|row|, k requires 0 <= k < |row| => Some(row[k]))
  }

  /** The outcome raises an exception the reader does not catch. */
  predicate Escapes<E>(o: Outcome<E>)
  {
    o.Some? && o.value.Err? && o.value.error != ValueError
  }

  /** The reading loop over the rows' outcomes, in order. */
  function Collect<E>(outcomes: seq<Outcome<E>>): Result<seq<E>, Error>
  {
    if |outcomes| == 0 then Ok([])
    else
      var prev := Collect(outcomes[..|outcomes| - 1]);
      var last := outcomes[|outcomes| - 1];
      if prev.Err? || last.None? then prev
      else
        match last.value
        case Ok(e) => Ok(prev.value + [e])
        case Err(x) => if x == ValueError then prev else Err(x)
  }

  /** The records the outcomes hold, front to back. */
  function Kept<E>(outcomes: seq<Outcome<E>>): seq<E>
  {
    if |outcomes| == 0 then []
    else (if outcomes[0].Some? && outcomes[0].value.Ok? then [outcomes[0].value.value] else []) + Kept(outcomes[1..])
  }

  lemma {:induction false} KeptSnoc<E>(o: seq<Outcome<E>>)
    requires |o| > 0
    ensures var last := o[|o| - 1];
      Kept(o) == Kept(o[..|o| - 1]) + (if last.Some? && last.value.Ok? then [last.value.value] else [])
  {
    if |o| > 1 {
      KeptSnoc(o[1..]);
      assert o[1..][..|o[1..]| - 1] == o[..|o| - 1][1..];
    } else {
      assert o[1..] == [];
    }
  }

  /**
   * A read succeeds exactly when no row raises an uncaught exception, and
   * then holds every record built, in row order; otherwise it raises the
   * exception of the first such row.
   */
  lemma {:induction false} CollectCharacterised<E>(o: seq<Outcome<E>>)
    ensures Collect(o).Ok? <==> forall i :: 0 <= i < |o| ==> !Escapes(o[i])
    ensures Collect(o).Ok? ==> Collect(o).value == Kept(o)
    ensures Collect(o).Err? ==>
      exists i :: 0 <= i < |o| && Escapes(o[i]) && o[i].value.error == Collect(o).error &&
        forall k :: 0 <= k < i ==> !Escapes(o[k])
  {
    if |o| > 0 {
      var init := o[..|o| - 1];
      CollectCharacterised(init);
      KeptSnoc(o);
      assert forall k :: 0 <= k < |init| ==> init[k] == o[k];
      if Collect(init).Err? {
        var i :| 0 <= i < |init| && Escapes(init[i]) && init[i].value.error == Collect(init).error &&
          forall k :: 0 <= k < i ==> !Escapes(init[k]);
        assert Escapes(o[i]);
      }
    }
  }

  /** Once the read has raised, later rows change nothing. */
  lemma {:induction false} CollectErrStays<E>(o: seq<Outcome<E>>, n: int)
    requires 0 <= n <= |o|
    requires Collect(o[..n]).Err?
    ensures Collect(o) == Collect(o[..n])
  {
    if n < |o| {
      var init := o[..|o| - 1];
      assert init[..n] == o[..n];
      CollectErrStays(init, n);
    } else {
      assert o[..n] == o;
    }
  }

  // ---------------------------------------------------------------------
  // The three readers, row by row

  /** Card rows: every non-empty row goes to the constructor as it is. */
  function CardOutcome<E>(row: seq<string>, build: Blob -> Result<E, Error>): Outcome<E>
  {
    if |row| > 0 then Some(build(AsBlob(row))) else None
  }

  /**
   * Checking rows: the guard reads `row[2]`, so a non-empty row of fewer than
   * three fields raises `IndexError`; a row with an empty third field is skipped.
   */
  function CheckOutcome<E>(row: seq<string>, build: Blob -> Result<E, Error>): Outcome<E>
  {
    if |row| == 0 then None
    else if |row| < 3 then Some(Err(IndexError))
    else if |row[2]| == 0 then None
    else Some(build([Some(row[0]), None, Some(row[1]), Some(""), Some(row[2])]))
  }

  /** Wells Fargo rows: reading `row[4]` raises `IndexError`, which the `except ValueError` does not catch. */
  function WellsOutcome<E>(row: seq<string>, build: Blob -> Result<E, Error>): Outcome<E>
  {
    if |row| == 0 then None
    else if |row| < 5 then Some(Err(IndexError))
    else Some(build([Some(row[0]), None, Some(row[4]), Some(""), Some(row[1])]))
  }

  function CardOutcomes<E>(rows: seq<seq<string>>, build: Blob -> Result<E, Error>): (o: seq<Outcome<E>>)
    ensures |o| == |rows| && forall k :: 0 <= k < |rows| ==> o[k] == CardOutcome(rows[k], build)
  {
    seq(|rows|, k requires 0 <= k < |rows| => CardOutcome(rows[k], build))
  }

  function CheckOutcomes<E>(rows: seq<seq<string>>, build: Blob -> Result<E, Error>): (o: seq<Outcome<E>>)
    ensures |o| == |rows| && forall k :: 0 <= k < |rows| ==> o[k] == CheckOutcome(rows[k], build)
  {
    seq(|rows|, k requires 0 <= k < |rows| => CheckOutcome(rows[k], build))
  }

  function WellsOutcomes<E>(rows: seq<seq<string>>, build: Blob -> Result<E, Error>): (o: seq<Outcome<E>>)
    ensures |o| == |rows| && forall k :: 0 <= k < |rows| ==> o[k] == WellsOutcome(rows[k], build)
  {
    seq(|rows|, k requires 0 <= k < |rows| => WellsOutcome(rows[k], build))
  }

  /** `s[1:-1]`: drops the first and the last character; empty when there are fewer than two. */
  function Inner(s: string): string
  {
    if |s| >= 2 then s[1..|s| - 1] else ""
  }

  lemma InnerOfQuoted(x: string)
    ensures Inner("\"" + x + "\"") == x
  {
  }

  /**
   * `__parse_first_row`: split on commas, unquote fields 0, 4 and 1 into the
   * blob layout; fewer than five fields raise `IndexError`. No exception is caught.
   */
  function ParseFirstRow<E>(rowData: string, build: Blob -> Result<E, Error>): Result<E, Error>
  {
    var fields := Split(rowData, ',');
    if |fields| < 5 then Err(IndexError)
    else build([Some(Inner(fields[0])), None, Some(Inner(fields[4])), Some(""), Some(Inner(fields[1]))])
  }

  /** The Wells Fargo read: the record of the first line, then those of the rows. */
  function WellsFargoRead<E>(firstLine: string, rows: seq<seq<string>>, build: Blob -> Result<E, Error>)
    : Result<seq<E>, Error>
  {
    match ParseFirstRow(firstLine, build)
    case Err(x) => Err(x)
    case Ok(first) =>
      match Collect(WellsOutcomes(rows, build))
      case Err(x) => Err(x)
      case Ok(rest) => Ok([first] + rest)
  }

  // ---------------------------------------------------------------------
  // The readers' loops

  lemma CollectStep<E>(o: seq<Outcome<E>>, i: int)
    requires 0 <= i < |o|
    ensures o[..i + 1][..i] == o[..i] && o[..i + 1][i] == o[i]
  {
  }

  /** `fetch_bofa_cc_data` */
  method FetchBofaCcData<E>(rows: seq<seq<string>>, build: Blob -> Result<E, Error>) returns (r: Result<seq<E>, Error>)
    ensures r == Collect(CardOutcomes(rows, build))
  {
    ghost var o := CardOutcomes(rows, build);
    var results := [];
    for i := 0 to |rows|
      invariant Collect(o[..i]) == Ok(results)
    {
      CollectStep(o, i);
      var row := rows[i];
      if |row| > 0 {
        var entry := build(AsBlob(row));
        match entry
        case Ok(e) =>
          results := results + [e];
        case Err(x) =>
          if x != ValueError {
            CollectErrStays(o, i + 1);
            return Err(x);
          }
      }
    }
    assert o[..|rows|] == o;
    return Ok(results);
  }

  /** `fetch_bofa_check_data` */
  method FetchBofaCheckData<E>(rows: seq<seq<string>>, build: Blob -> Result<E, Error>) returns (r: Result<seq<E>, Error>)
    ensures r == Collect(CheckOutcomes(rows, build))
  {
    ghost var o := CheckOutcomes(rows, build);
    var results := [];
    for i := 0 to |rows|
      invariant Collect(o[..i]) == Ok(results)
    {
      CollectStep(o, i);
      var row := rows[i];
      if |row| > 0 {
        if |row| < 3 {
          CollectErrStays(o, i + 1);
          return Err(IndexError);
        }
        if |row[2]| > 0 {
          var organizedRow := [Some(row[0]), None, Some(row[1]), Some(""), Some(row[2])];
          var entry := build(organizedRow);
          match entry
          case Ok(e) =>
            results := results + [e];
          case Err(x) =>
            if x != ValueError {
              CollectErrStays(o, i + 1);
              return Err(x);
            }
        }
      }
    }
    assert o[..|rows|] == o;
    return Ok(results);
  }

  /** `fetch_wellsfargo_check_data` */
  method FetchWellsFargoCheckData<E>(firstLine: string, rows: seq<seq<string>>, build: Blob -> Result<E, Error>)
    returns (r: Result<seq<E>, Error>)
    ensures r == WellsFargoRead(firstLine, rows, build)
  {
    var first := ParseFirstRow(firstLine, build);
    if first.Err? {
      return Err(first.error);
    }
    ghost var o := WellsOutcomes(rows, build);
    var results := [first.value];
    for i := 0 to |rows|
      invariant Collect(o[..i]).Ok? && results == [first.value] + Collect(o[..i]).value
    {
      CollectStep(o, i);
      var row := rows[i];
      if |row| > 0 {
        if |row| < 5 {
          CollectErrStays(o, i + 1);
          return Err(IndexError);
        }
        var organizedRow := [Some(row[0]), None, Some(row[4]), Some(""), Some(row[1])];
        var entry := build(organizedRow);
        match entry
        case Ok(e) =>
          results := results + [e];
        case Err(x) =>
          if x != ValueError {
            CollectErrStays(o, i + 1);
            return Err(x);
          }
      }
    }
    assert o[..|rows|] == o;
    return Ok(results);
  }

  // ---------------------------------------------------------------------
  // What the readers produce with the blob constructor

  /**
   * A card row of five or more fields whose first parses as a date gives a
   * record of that date, the fifth field sign-flipped as amount, the payee as
   * description and the reference number as id; a row whose date does not
   * parse is skipped.
   */
  lemma CardRowFields(row: seq<string>)
    requires |row| >= 5
    ensures ParseDate(row[0]).Some? ==>
      CardOutcome(row, LegacyEntry.Parse) == Some(Ok(LegacyEntry.Fields(ParseDate(row[0]).value, LegacyEntry.Inverted(row[4]), Some(row[2]), Some(row[1]))))
    ensures ParseDate(row[0]).None? ==> CardOutcome(row, LegacyEntry.Parse) == Some(Err(ValueError))
  {
  }

  /** A checking row: date, then the amount column sign-flipped, the description, and no id. */
  lemma CheckRowFields(row: seq<string>)
    requires |row| >= 3 && |row[2]| > 0
    ensures ParseDate(row[0]).Some? ==>
      CheckOutcome(row, LegacyEntry.Parse) == Some(Ok(LegacyEntry.Fields(ParseDate(row[0]).value, LegacyEntry.Inverted(row[2]), Some(row[1]), None)))
    ensures ParseDate(row[0]).None? ==> CheckOutcome(row, LegacyEntry.Parse) == Some(Err(ValueError))
  {
  }

  /** A Wells Fargo row: date, then the second column sign-flipped as amount, the fifth as description. */
  lemma WellsRowFields(row: seq<string>)
    requires |row| >= 5
    ensures ParseDate(row[0]).Some? ==>
      WellsOutcome(row, LegacyEntry.Parse) == Some(Ok(LegacyEntry.Fields(ParseDate(row[0]).value, LegacyEntry.Inverted(row[1]), Some(row[4]), None)))
    ensures ParseDate(row[0]).None? ==> WellsOutcome(row, LegacyEntry.Parse) == Some(Err(ValueError))
  {
  }

  function Quoted(x: string): string
  {
    "\"" + x + "\""
  }

  /**
   * A first line of five quoted, comma-free fields gives the record of its
   * unquoted date, its second field sign-flipped as amount and its fifth as
   * description.
   */
  lemma WellsFirstLineFields(fields: seq<string>)
    requires |fields| == 5 && forall k :: 0 <= k < 5 ==> ',' !in fields[k]
    requires ParseDate(fields[0]).Some?
    ensures ParseFirstRow(Join(seq(5, k requires 0 <= k < 5 => Quoted(fields[k])), ','), LegacyEntry.Parse) ==
      Ok(LegacyEntry.Fields(ParseDate(fields[0]).value, LegacyEntry.Inverted(fields[1]), Some(fields[4]), None))
  {
    var quoted := seq(5, k requires 0 <= k < 5 => Quoted(fields[k]));
    forall k | 0 <= k < 5
      ensures ',' !in quoted[k] && Inner(quoted[k]) == fields[k]
    {
      InnerOfQuoted(fields[k]);
    }
    SplitJoin(quoted, ',');
  }

  /** A checking row of one or two fields ends the read with `IndexError` when no earlier row raised. */
  lemma CheckShortRowRaises<E>(rows: seq<seq<string>>, build: Blob -> Result<E, Error>, i: int)
    requires 0 <= i < |rows| && 1 <= |rows[i]| < 3
    requires forall k :: 0 <= k < i ==> !Escapes(CheckOutcome(rows[k], build))
    ensures Collect(CheckOutcomes(rows, build)) == Err(IndexError)
  {
    var o := CheckOutcomes(rows, build);
    CollectCharacterised(o);
    assert Escapes(o[i]);
    var j :| 0 <= j < |o| && Escapes(o[j]) && o[j].value.error == Collect(o).error &&
      forall k :: 0 <= k < j ==> !Escapes(o[k]);
    assert j == i;
  }

  // ---------------------------------------------------------------------
  // The readers with the four-field record class

  /**
   * `DataEntry(row)` against the four-field record class, which needs date,
   * amount and description: one positional argument raises `TypeError`.
   */
  function PositionalDataEntry(blob: Blob): Result<Entry.DataEntry, Error>
  {
    Err(TypeError)
  }

  /**
   * With the record class the readers import, the card reader raises
   * `TypeError` as soon as it hands over a row, the checking reader raises at
   * the first row that is not skipped, and the Wells Fargo reader raises on
   * the first line: none of them returns a record.
   */
  lemma {:induction false} PositionalConstructorRaises(firstLine: string, rows: seq<seq<string>>, i: int)
    requires 0 <= i < |rows| && |rows[i]| > 0
    ensures Collect(CardOutcomes(rows, PositionalDataEntry)) == Err(TypeError)
    ensures |rows[i]| < 3 || |rows[i][2]| > 0 ==> Collect(CheckOutcomes(rows, PositionalDataEntry)).Err?
    ensures WellsFargoRead(firstLine, rows, PositionalDataEntry).Err?
  {
    var o := CardOutcomes(rows, PositionalDataEntry);
    CollectCharacterised(o);
    assert Escapes(o[i]);
    var c := CheckOutcomes(rows, PositionalDataEntry);
    CollectCharacterised(c);
    if |rows[i]| < 3 || |rows[i][2]| > 0 {
      assert Escapes(c[i]);
    }
  }
}
