/**
 * The legacy record: built from a row blob `[date, id, description, ?, amount]`,
 * it keeps the amount as text and flips its sign once on construction. Its
 * comparisons look at the date only, and its equality looks at date and amount.
 */
module LegacyEntry {
  import opened Wrappers
  import opened PyErrors
  import opened Text
  import opened Dates

  /** A row as the per-bank readers arrange it; `None` is Python's `None`. */
  type Blob = seq<Option<string>>

  /** `__invert_amount__` on the amount text: drop a leading `-`, or prepend one. */
  function Inverted(s: string): (r: string)
    ensures |r| == |s| - 1 || |r| == |s| + 1
    ensures r != s
    ensures !StartsWith(s, "-") ==> StartsWith(r, "-")
  {
    if StartsWith(s, "-") then s[1..] else "-" + s
  }

  /** Inverting twice gives the text back unless it starts with two minus signs. */
  lemma InvertTwice(s: string)
    requires !StartsWith(s, "--")
    ensures Inverted(Inverted(s)) == s
  {
    if StartsWith(s, "-") {
      if |s| > 1 {
        assert s[1..][..1] == s[1..2];
        assert s[..2] == "-" + s[1..2];
      }
      assert "-" + s[1..] == s;
    } else {
      assert ("-" + s)[1..] == s;
    }
  }

  /** `"--5"` inverts to `"-5"` and back to `"5"`. */
  lemma InvertTwiceDoubleMinus()
    ensures Inverted("--5") == "-5" && Inverted(Inverted("--5")) == "5"
  {
    assert StartsWith("--5", "-");
    assert StartsWith("-5", "-");
  }

  /** The fields `__init__` ends with, the amount already inverted. */
  datatype Fields = Fields(date: Date, amount: string, description: Option<string>, id: Option<string>)

  /**
   * `DataEntry(data_blob)`, in the order `__init__` evaluates: `blob[0]`
   * (`IndexError`), `strptime` of it (`TypeError` on `None`, `ValueError` when it
   * does not match), `blob[4]` (`IndexError`), then `startswith` on the amount
   * (`AttributeError` on `None`).
   */
  function Parse(blob: Blob): (r: Result<Fields, Error>)
    ensures r.Ok? <==> |blob| >= 5 && blob[0].Some? && ParseDate(blob[0].value).Some? && blob[4].Some?
    ensures r.Ok? ==> Valid(r.value.date) && ParseDate(blob[0].value) == Some(r.value.date)
    ensures r.Ok? ==> r.value.amount == Inverted(blob[4].value)
    ensures r.Ok? ==> r.value.description == blob[2] && r.value.id == blob[1]
    ensures |blob| == 0 ==> r == Err(IndexError)
    ensures |blob| >= 1 && blob[0].None? ==> r == Err(TypeError)
    ensures |blob| >= 1 && blob[0].Some? && ParseDate(blob[0].value).None? ==> r == Err(ValueError)
    ensures |blob| >= 1 && blob[0].Some? && ParseDate(blob[0].value).Some? && |blob| < 5 ==> r == Err(IndexError)
    ensures |blob| >= 5 && blob[0].Some? && ParseDate(blob[0].value).Some? && blob[4].None? ==> r == Err(AttributeError)
  {
    if |blob| == 0 then Err(IndexError)
    else if blob[0].None? then Err(TypeError)
    else
      match ParseDate(blob[0].value)
      case None => Err(ValueError)
      case Some(d) =>
        if |blob| < 5 then Err(IndexError)
        else if blob[4].None? then Err(AttributeError)
        else Ok(Fields(d, Inverted(blob[4].value), blob[2], blob[1]))
  }

  /** How an f-string shows an optional text. */
  function Show(v: Option<string>): string
  {
    if v.Some? then v.value else "None"
  }

  class LegacyDataEntry {
    var date: Date
    var amount: string
    var description: Option<string>
    var id: Option<string>

    /** `__init__` on a blob it accepts; `Parse` says which blobs raise. */
    constructor (dataBlob: Blob)
      requires Parse(dataBlob).Ok?
      ensures Fields(date, amount, description, id) == Parse(dataBlob).value
    {
      date := ParseDate(dataBlob[0].value).value;
      amount := dataBlob[4].value;
      description := dataBlob[2];
      id := dataBlob[1];
      new;
      InvertAmount();
    }

    /** `__invert_amount__` */
    method InvertAmount()
      modifies this
      ensures amount == Inverted(old(amount))
      ensures date == old(date) && description == old(description) && id == old(id)
    {
      if StartsWith(amount, "-") {
        amount := amount[1..];
      } else {
        amount := "-" + amount;
      }
    }

    /** `__str__`: date, amount and description, tab-separated. */
    function ToString(): string
      reads this
      requires Valid(date)
    {
      Join([FormatDate(date), amount, Show(description)], '\t')
    }

    /** `__repr__` */
    function Repr(): string
      reads this
      requires Valid(date)
    {
      "DataEntry(" + ToString() + ")"
    }

    /** `__lt__` */
    predicate Lt(other: LegacyDataEntry)
      reads this, other
    {
      Before(date, other.date)
    }

    /** `__gt__` */
    predicate Gt(other: LegacyDataEntry)
      reads this, other
    {
      Before(other.date, date)
    }

    /** `__le__` */
    predicate Le(other: LegacyDataEntry)
      reads this, other
    {
      Before(date, other.date) || date == other.date
    }

    /** `__ge__` */
    predicate Ge(other: LegacyDataEntry)
      reads this, other
    {
      Before(other.date, date) || date == other.date
    }

    /** `__eq__` as written: its third term compares the description with itself. */
    predicate Equals(other: LegacyDataEntry)
      reads this, other
    {
      date == other.date && amount == other.amount && description == description
    }

    /** The evidently intended `__eq__`: date, amount and description. */
    predicate EqualsIntended(other: LegacyDataEntry)
      reads this, other
    {
      date == other.date && amount == other.amount && description == other.description
    }
  }

  /** When no field holds a tab, the string form splits back into date text, amount and description. */
  lemma ToStringFields(e: LegacyDataEntry)
    requires Valid(e.date)
    requires '\t' !in e.amount && '\t' !in Show(e.description)
    ensures Split(e.ToString(), '\t') == [FormatDate(e.date), e.amount, Show(e.description)]
    ensures ParseDate(Split(e.ToString(), '\t')[0]) == Some(e.date)
  {
    assert '\t' !in FormatDate(e.date);
    SplitJoin([FormatDate(e.date), e.amount, Show(e.description)], '\t');
    ParseFormatRoundTrip(e.date);
  }

  /**
   * The comparisons see the date only: `<` and `>` are converse strict orders,
   * `<=` is `<` or the same day, and two records of the same day are neither
   * `<` nor `>` one another, whatever their amounts.
   */
  lemma ComparisonsByDate(a: LegacyDataEntry, b: LegacyDataEntry, c: LegacyDataEntry)
    ensures a.Lt(b) <==> b.Gt(a)
    ensures !a.Lt(a)
    ensures a.Lt(b) && b.Lt(c) ==> a.Lt(c)
    ensures a.Le(b) <==> !a.Gt(b)
    ensures a.Ge(b) <==> !a.Lt(b)
    ensures a.date == b.date ==> !a.Lt(b) && !a.Gt(b) && a.Le(b) && a.Ge(b)
  {
    BeforeIsStrictTotal(a.date, b.date, c.date);
    BeforeIsStrictTotal(b.date, a.date, c.date);
  }

  /** As written, `==` holds between records that differ only in their description. */
  lemma EqualsIgnoresDescription(a: LegacyDataEntry, b: LegacyDataEntry)
    requires a.date == b.date && a.amount == b.amount && a.description != b.description
    ensures a.Equals(b)
    ensures !a.EqualsIntended(b)
  {
  }

  /** The intended equality is an equivalence, decided by all three fields, and implies the written one. */
  lemma EqualsIntendedIsEquivalence(a: LegacyDataEntry, b: LegacyDataEntry, c: LegacyDataEntry)
    ensures a.EqualsIntended(a)
    ensures a.EqualsIntended(b) ==> b.EqualsIntended(a)
    ensures a.EqualsIntended(b) && b.EqualsIntended(c) ==> a.EqualsIntended(c)
    ensures a.EqualsIntended(b) ==> a.Equals(b)
    ensures a.EqualsIntended(b) <==> a.Equals(b) && a.description == b.description
  {
  }
}
