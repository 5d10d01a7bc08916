/**
 * The canonical transaction record: a frozen, ordered dataclass whose
 * `__post_init__` turns the date text into a date (`%m/%d/%Y`) and the amount
 * text into a float. Converting text to a float and printing a float are
 * Python's own and are passed in as `toFloat` and `showFloat`; the float is
 * modelled as a `real`, an ordered value.
 */
module Entry {
  import opened Wrappers
  import opened PyErrors
  import opened Text
  import opened Dates

  datatype DataEntry = DataEntry(date: Date, amount: real, description: string, extraDesc: string)

  /** Every record the constructor can build carries a date `datetime` can hold. */
  predicate Built(e: DataEntry)
  {
    Valid(e.date)
  }

  /**
   * `DataEntry(date, amount, description, extra_desc)`: raises `ValueError`
   * when the date does not match `%m/%d/%Y` or the amount is not a float.
   */
  function Create(date: string, amount: string, description: string, toFloat: string -> Option<real>,
                  extraDesc: string := ""): (r: Result<DataEntry, Error>)
    ensures r.Ok? <==> ParseDate(date).Some? && toFloat(amount).Some?
    ensures r.Err? ==> r.error == ValueError
    ensures r.Ok? ==> Built(r.value) && ParseDate(date) == Some(r.value.date)
    ensures r.Ok? ==> r.value.amount == toFloat(amount).value
    ensures r.Ok? ==> r.value.description == description && r.value.extraDesc == extraDesc
  {
    match ParseDate(date)
    case None => Err(ValueError)
    case Some(d) =>
      match toFloat(amount)
      case None => Err(ValueError)
      case Some(a) => Ok(DataEntry(d, a, description, extraDesc))
  }

  /**
   * Writing a record's date with `%m/%d/%Y` and building a record from that
   * text, the amount text and the descriptions gives the same record back.
   */
  lemma CreateRoundTrip(e: DataEntry, amountText: string, toFloat: string -> Option<real>)
    requires Built(e)
    requires toFloat(amountText) == Some(e.amount)
    ensures Create(FormatDate(e.date), amountText, e.description, toFloat, e.extraDesc) == Ok(e)
  {
    ParseFormatRoundTrip(e.date);
  }

  /** A header row is not a record: its date column fails to parse. */
  lemma HeaderRowRejected(toFloat: string -> Option<real>)
    ensures Create("Posted Date", "Amount", "Payee", toFloat) == Err(ValueError)
  {
    PostedDateIsNotADate();
  }

  /** The order `@dataclass(order=True)` derives: tuples of the four fields, compared left to right. */
  predicate Less(a: DataEntry, b: DataEntry)
  {
    if a.date != b.date then Before(a.date, b.date)
    else if a.amount != b.amount then a.amount < b.amount
    else if a.description != b.description then StrLess(a.description, b.description)
    else StrLess(a.extraDesc, b.extraDesc)
  }

  /**
   * The derived order is a strict total order, and two records are equal
   * exactly when neither sorts before the other: equality is structural over
   * all four fields.
   */
  lemma LessIsStrictTotalOrder(a: DataEntry, b: DataEntry, c: DataEntry)
    ensures !Less(a, a)
    ensures Less(a, b) ==> !Less(b, a)
    ensures Less(a, b) && Less(b, c) ==> Less(a, c)
    ensures a == b <==> !Less(a, b) && !Less(b, a)
  {
    BeforeIsStrictTotal(a.date, b.date, c.date);
    StrLessIsStrictTotal(a.description, b.description, c.description);
    StrLessIsStrictTotal(a.extraDesc, b.extraDesc, c.extraDesc);
    StrLessIsStrictTotal(b.description, a.description, c.description);
    StrLessIsStrictTotal(b.extraDesc, a.extraDesc, c.extraDesc);
  }

  /** An earlier date sorts first whatever the other fields hold. */
  lemma DateDecidesFirst(a: DataEntry, b: DataEntry)
    requires Before(a.date, b.date)
    ensures Less(a, b) && !Less(b, a) && a != b
  {
    BeforeIsStrictTotal(a.date, b.date, a.date);
  }

  /** `str(entry)`: the zero-padded date, the amount, the description and the extra description, tab-separated. */
  function ToString(e: DataEntry, showFloat: real -> string): string
    requires Built(e)
  {
    Join([FormatDate(e.date), showFloat(e.amount), e.description, e.extraDesc], '\t')
  }

  /**
   * When no field text holds a tab, splitting the string form on tabs gives
   * back the four fields, and the first one reads back as the record's date.
   */
  lemma ToStringFields(e: DataEntry, showFloat: real -> string)
    requires Built(e)
    requires '\t' !in showFloat(e.amount) && '\t' !in e.description && '\t' !in e.extraDesc
    ensures var fields := Split(ToString(e, showFloat), '\t');
      fields == [FormatDate(e.date), showFloat(e.amount), e.description, e.extraDesc] &&
      ParseDate(fields[0]) == Some(e.date)
  {
    var parts := [FormatDate(e.date), showFloat(e.amount), e.description, e.extraDesc];
    assert '\t' !in FormatDate(e.date);
    SplitJoin(parts, '\t');
    ParseFormatRoundTrip(e.date);
  }
}
