/**
 * Choosing the reader for a bank file from its path and its first line. The
 * line is stripped, then three rules are tried in order; the first that
 * matches decides, and the reader keeps the stripped line.
 */
module InstitutionParser {
  import opened Wrappers
  import opened Text
  import BanksheetConverter

  datatype Bank = BankOfAmericaCreditCard | BankOfAmerica | WellsFargo

  /** `Posted Date,Reference Number,Payee,Address,Amount` */
  const CardFirstLine: string := "Posted Date" + "," + "Reference Number" + "," + "Payee" + "," + "Address" + "," + "Amount"
  const SummaryFirstLine: string := "Description,,Summary Amt."
  const CheckingPrefix: string := "input\\Checking"

  /**
   * `decide`: the reader and the stripped first line it is given, or `None`
   * (the function falls off its end) when no rule matches.
   */
  function Decide(filePath: string, firstLine: string): (r: Option<(Bank, string)>)
    ensures r.Some? ==> r.value.1 == Strip(firstLine)
  {
    var current := Strip(firstLine);
    if current == CardFirstLine then Some((BankOfAmericaCreditCard, current))
    else if current == SummaryFirstLine then Some((BankOfAmerica, current))
    else if StartsWith(filePath, CheckingPrefix) && |Split(current, ',')| == 5 then Some((WellsFargo, current))
    else None
  }

  /**
   * The three rules, in order: the exact card header, the exact summary line,
   * then a five-field line in a file under `input\Checking`; anything else is
   * no reader at all.
   */
  lemma DecideCases(filePath: string, firstLine: string)
    ensures var r := Decide(filePath, firstLine); var current := Strip(firstLine);
      (r.Some? && r.value.0 == BankOfAmericaCreditCard <==> current == CardFirstLine) &&
      (r.Some? && r.value.0 == BankOfAmerica <==> current == SummaryFirstLine) &&
      (r.Some? && r.value.0 == WellsFargo <==>
        current != CardFirstLine && current != SummaryFirstLine &&
        StartsWith(filePath, CheckingPrefix) && |Split(current, ',')| == 5) &&
      (r.None? <==>
        current != CardFirstLine && current != SummaryFirstLine &&
        !(StartsWith(filePath, CheckingPrefix) && |Split(current, ',')| == 5))
  {
  }

  /** Whitespace around the first line never changes the decision. */
  lemma DecideIgnoresSurroundingSpace(filePath: string, firstLine: string)
    ensures Decide(filePath, firstLine) == Decide(filePath, Strip(firstLine))
  {
    StripIdempotent(firstLine);
  }

  /** The card rule matches the card header of the field mapper, which has five fields. */
  lemma CardFirstLineFields()
    ensures CardFirstLine == Join(BanksheetConverter.CardHeader, ',')
    ensures Split(CardFirstLine, ',') == BanksheetConverter.CardHeader
  {
    var h := BanksheetConverter.CardHeader;
    CardFirstLineJoin();
    assert ',' !in h[0] && ',' !in h[1] && ',' !in h[2];
    assert ',' !in h[3] && ',' !in h[4];
    SplitJoin(h, ',');
  }

  lemma CardFirstLineJoin()
    ensures CardFirstLine == Join(BanksheetConverter.CardHeader, ',')
  {
    JoinFive("Posted Date", "Reference Number", "Payee", "Address", "Amount", ',');
  }

  lemma JoinFive(a: string, b: string, d: string, e: string, f: string, c: char)
    ensures Join([a, b, d, e, f], c) == a + [c] + b + [c] + d + [c] + e + [c] + f
  {
    JoinCons(a, [b, d, e, f], c);
    assert [b, d, e, f] == [b] + [d, e, f];
    JoinCons(b, [d, e, f], c);
    JoinThree(d, e, f, c);
    assert [d, e, f] == [d] + [e, f];
  }

  /** The summary line has three fields, so the Wells Fargo rule could never take it. */
  lemma SummaryFirstLineFields()
    ensures |Split(SummaryFirstLine, ',')| == 3
  {
    var parts := ["Description", "", "Summary Amt."];
    JoinThree("Description", "", "Summary Amt.", ',');
    assert "Description" + [','] + "" + [','] + "Summary Amt." == SummaryFirstLine;
    forall k | 0 <= k < |parts|
      ensures ',' !in parts[k]
    {
    }
    SplitJoin(parts, ',');
  }

  lemma JoinCons(a: string, rest: seq<string>, c: char)
    requires |rest| > 0
    ensures Join([a] + rest, c) == a + [c] + Join(rest, c)
  {
    assert ([a] + rest)[1..] == rest;
  }

  /**
   * Order matters: a card export saved under `input\Checking` also has five
   * fields, but the card rule comes first and wins.
   */
  lemma CardRuleBeforeWellsRule(filePath: string, firstLine: string)
    requires StartsWith(filePath, CheckingPrefix)
    requires Strip(firstLine) == CardFirstLine
    ensures |Split(Strip(firstLine), ',')| == 5
    ensures Decide(filePath, firstLine) == Some((BankOfAmericaCreditCard, CardFirstLine))
  {
    CardFirstLineFields();
  }

  /** The path matters only for the third rule. */
  lemma PathOnlyForWells(path1: string, path2: string, firstLine: string)
    requires Decide(path1, firstLine) != Decide(path2, firstLine)
    ensures Strip(firstLine) != CardFirstLine && Strip(firstLine) != SummaryFirstLine
    ensures |Split(Strip(firstLine), ',')| == 5
    ensures StartsWith(path1, CheckingPrefix) != StartsWith(path2, CheckingPrefix)
  {
  }

  /**
   * A stripped line of five comma-free fields, in a file under
   * `input\Checking`, that is not the card header, goes to the Wells Fargo reader.
   */
  lemma FiveFieldLineIsWells(filePath: string, firstLine: string, fields: seq<string>)
    requires StartsWith(filePath, CheckingPrefix)
    requires |fields| == 5 && forall k :: 0 <= k < 5 ==> ',' !in fields[k]
    requires Strip(firstLine) == Join(fields, ',')
    requires Join(fields, ',') != CardFirstLine
    ensures Decide(filePath, firstLine) == Some((WellsFargo, Join(fields, ',')))
  {
    SplitJoin(fields, ',');
    SummaryFirstLineFields();
    assert |Split(SummaryFirstLine, ',')| == 3;
  }
}
