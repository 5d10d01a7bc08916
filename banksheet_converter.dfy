/**
 * The field mapper: a fixed table from the exact, ordered tuple of a CSV
 * file's column names to the canonical SQL keys. Columns mapped to `None` are
 * dropped; a tuple that is not in the table raises `MissingBankHeaderException`.
 * A row is a dict, modelled as its (column, value) pairs in insertion order.
 */
module BanksheetConverter {
  import opened Wrappers
  import opened PyErrors

  type Row<V> = seq<(string, V)>

  /** A layout: each source column with the canonical key it becomes, or `None`. */
  type Mapping = seq<(string, Option<string>)>

  /** `_SQL_KEYS` */
  const SqlKeys: seq<string> := ["date", "amount", "description", "transaction_id"]

  const CardHeader: seq<string> := ["Posted Date", "Reference Number", "Payee", "Address", "Amount"]
  const CheckingHeader: seq<string> := ["Date", "Description", "Amount", "Running Bal."]

  const CardMapping: Mapping := [
    ("Posted Date", Some(SqlKeys[0])),
    ("Reference Number", Some(SqlKeys[3])),
    ("Payee", Some(SqlKeys[2])),
    ("Address", None),
    ("Amount", Some(SqlKeys[1]))
  ]

  const CheckingMapping: Mapping := [
    ("Date", Some(SqlKeys[0])),
    ("Description", Some(SqlKeys[2])),
    ("Amount", Some(SqlKeys[1]))
  ]

  /** `_MAP_CONVERSION` */
  const MapConversion: map<seq<string>, Mapping> := map[CardHeader := CardMapping, CheckingHeader := CheckingMapping]

  /** `_to_key(row.keys())`: the column names in order. */
  function Keys<V>(row: Row<V>): (r: seq<string>)
    ensures |r| == |row| && forall i :: 0 <= i < |row| ==> r[i] == row[i].0
  {
    if |row| == 0 then [] else [row[0].0] + Keys(row[1..])
  }

  /** `row.get(key)` */
  function Get<V>(row: Row<V>, key: string): (r: Option<V>)
    ensures r.Some? ==> exists i :: 0 <= i < |row| && row[i] == (key, r.value)
  {
    if |row| == 0 then None
    else if row[0].0 == key then Some(row[0].1)
    else Get(row[1..], key)
  }

  /** `d[key] = value`: replaces in place when the key is present, appends otherwise. */
  function DictSet<V>(d: Row<V>, key: string, value: V): Row<V>
  {
    if |d| == 0 then [(key, value)]
    else if d[0].0 == key then [(key, value)] + d[1..]
    else [d[0]] + DictSet(d[1..], key, value)
  }

  /** `_change_headers`: the dict comprehension over the mapping's items, in order. */
  function ChangeHeaders<V>(row: Row<V>, mapping: Mapping): Row<Option<V>>
  {
    if |mapping| == 0 then []
    else
      var prev := ChangeHeaders(row, mapping[..|mapping| - 1]);
      var (column, target) := mapping[|mapping| - 1];
      if target.None? then prev else DictSet(prev, target.value, Get(row, column))
  }

  /** `convert` */
  function Convert<V>(row: Row<V>): Result<Row<Option<V>>, Error>
  {
    var key := Keys(row);
    if key in MapConversion then Ok(ChangeHeaders(row, MapConversion[key]))
    else Err(MissingBankHeader(key))
  }

  /** The table knows exactly the two headers, and a key tuple outside it raises with that tuple. */
  lemma ConvertKnownIff<V>(row: Row<V>)
    ensures Convert(row).Ok? <==> Keys(row) == CardHeader || Keys(row) == CheckingHeader
    ensures Convert(row).Err? ==> Convert(row).error == MissingBankHeader(Keys(row))
  {
  }

  /** Lookup is by the exact ordered tuple: a reordered known header is unknown. */
  lemma PermutedHeaderUnknown<V>(row: Row<V>)
    requires multiset(Keys(row)) == multiset(CheckingHeader) || multiset(Keys(row)) == multiset(CardHeader)
    requires Keys(row) != CheckingHeader && Keys(row) != CardHeader
    ensures Convert(row) == Err(MissingBankHeader(Keys(row)))
  {
    ConvertKnownIff(row);
  }

  /** The non-`None` targets of a mapping, in order. */
  function Targets(mapping: Mapping): seq<string>
  {
    if |mapping| == 0 then []
    else (if mapping[0].1.Some? then [mapping[0].1.value] else []) + Targets(mapping[1..])
  }

  /** What the comprehension yields when no two columns share a target: one pair per mapped column, in order. */
  function Expected<V>(row: Row<V>, mapping: Mapping): Row<Option<V>>
  {
    if |mapping| == 0 then []
    else (if mapping[0].1.Some? then [(mapping[0].1.value, Get(row, mapping[0].0))] else []) + Expected(row, mapping[1..])
  }

  lemma {:induction false} ExpectedSnoc<V>(row: Row<V>, mapping: Mapping)
    requires |mapping| > 0
    ensures var last := mapping[|mapping| - 1];
      Expected(row, mapping) == Expected(row, mapping[..|mapping| - 1]) +
        (if last.1.Some? then [(last.1.value, Get(row, last.0))] else []) &&
      Targets(mapping) == Targets(mapping[..|mapping| - 1]) + (if last.1.Some? then [last.1.value] else [])
  {
    if |mapping| > 1 {
      ExpectedSnoc(row, mapping[1..]);
      assert mapping[1..][..|mapping[1..]| - 1] == mapping[..|mapping| - 1][1..];
    }
  }

  lemma {:induction false} KeysOfExpected<V>(row: Row<V>, mapping: Mapping)
    ensures Keys(Expected(row, mapping)) == Targets(mapping)
  {
    if |mapping| > 0 {
      KeysOfExpected(row, mapping[1..]);
    }
  }

  lemma {:induction false} DictSetAbsent<V>(d: Row<V>, key: string, value: V)
    requires key !in Keys(d)
    ensures DictSet(d, key, value) == d + [(key, value)]
  {
    if |d| > 0 {
      assert Keys(d[1..]) == Keys(d)[1..];
      DictSetAbsent(d[1..], key, value);
    }
  }

  /** With distinct targets the comprehension is `Expected`. */
  lemma {:induction false} ChangeHeadersDistinct<V>(row: Row<V>, mapping: Mapping)
    requires forall i, j :: 0 <= i < j < |Targets(mapping)| ==> Targets(mapping)[i] != Targets(mapping)[j]
    ensures ChangeHeaders(row, mapping) == Expected(row, mapping)
  {
    if |mapping| > 0 {
      var init := mapping[..|mapping| - 1];
      var last := mapping[|mapping| - 1];
      ExpectedSnoc(row, mapping);
      assert Targets(init) == Targets(mapping)[..|Targets(init)|];
      ChangeHeadersDistinct(row, init);
      if last.1.Some? {
        KeysOfExpected(row, init);
        assert last.1.value == Targets(mapping)[|Targets(init)|];
        DictSetAbsent(Expected(row, init), last.1.value, Get(row, last.0));
      }
    }
  }

  lemma GetAt<V>(row: Row<V>, i: int)
    requires 0 <= i < |row|
    requires forall j :: 0 <= j < i ==> row[j].0 != row[i].0
    ensures Get(row, row[i].0) == Some(row[i].1)
  {
    if i > 0 {
      GetAt(row[1..], i - 1);
    }
  }

  lemma CheckingExpected<V>(row: Row<V>)
    ensures Targets(CheckingMapping) == ["date", "description", "amount"]
    ensures Expected(row, CheckingMapping) ==
      [("date", Get(row, "Date")), ("description", Get(row, "Description")), ("amount", Get(row, "Amount"))]
  {
    var m := CheckingMapping;
    assert m[1..][1..] == m[2..] && m[2..][1..] == m[3..] && m[3..] == [];
    assert Expected(row, m[2..]) == [("amount", Get(row, "Amount"))];
    assert Targets(m[2..]) == ["amount"];
  }

  lemma CardExpected<V>(row: Row<V>)
    ensures Targets(CardMapping) == ["date", "transaction_id", "description", "amount"]
    ensures Expected(row, CardMapping) ==
      [("date", Get(row, "Posted Date")), ("transaction_id", Get(row, "Reference Number")),
       ("description", Get(row, "Payee")), ("amount", Get(row, "Amount"))]
  {
    var m := CardMapping;
    assert m[1..][1..] == m[2..] && m[2..][1..] == m[3..] && m[3..][1..] == m[4..] && m[4..][1..] == [];
    assert m[4] == ("Amount", Some("amount")) && m[3] == ("Address", None);
    assert m[2] == ("Payee", Some("description")) && m[1] == ("Reference Number", Some("transaction_id"));
    assert Expected(row, m[4..]) == [("amount", Get(row, "Amount"))];
    assert Targets(m[4..]) == ["amount"];
    assert Expected(row, m[3..]) == [("amount", Get(row, "Amount"))];
    assert Targets(m[3..]) == ["amount"];
    assert Targets(m[2..]) == ["description", "amount"];
    assert Targets(m[1..]) == ["transaction_id", "description", "amount"];
    assert Expected(row, m[2..]) == [("description", Get(row, "Payee")), ("amount", Get(row, "Amount"))];
    assert Expected(row, m[1..]) == [("transaction_id", Get(row, "Reference Number")),
      ("description", Get(row, "Payee")), ("amount", Get(row, "Amount"))];
  }

  /**
   * The checking layout: date, description and amount keep their values,
   * in the table's order, and the running balance is dropped.
   */
  lemma ConvertChecking<V>(row: Row<V>)
    requires Keys(row) == CheckingHeader
    ensures Convert(row) == Ok([("date", Some(row[0].1)), ("description", Some(row[1].1)), ("amount", Some(row[2].1))])
  {
    CheckingExpected(row);
    ChangeHeadersDistinct(row, CheckingMapping);
    GetAt(row, 0);
    GetAt(row, 1);
    GetAt(row, 2);
  }

  /**
   * The card layout: date, reference number (as `transaction_id`), payee (as
   * description) and amount keep their values; the address is dropped.
   */
  lemma ConvertCard<V>(row: Row<V>)
    requires Keys(row) == CardHeader
    ensures Convert(row) == Ok([("date", Some(row[0].1)), ("transaction_id", Some(row[1].1)),
                                ("description", Some(row[2].1)), ("amount", Some(row[4].1))])
  {
    CardExpected(row);
    ChangeHeadersDistinct(row, CardMapping);
    GetAt(row, 0);
    GetAt(row, 1);
    GetAt(row, 2);
    GetAt(row, 4);
  }

  /**
   * Whatever the layout, a converted row's keys are the mapping's non-`None`
   * targets in order (so distinct SQL keys, one per kept column), and each
   * value is the unaltered value of the source column that maps to that key.
   */
  lemma ConvertedRowShape<V>(row: Row<V>)
    requires Convert(row).Ok?
    ensures var out := Convert(row).value;
      var mapping := MapConversion[Keys(row)];
      Keys(out) == Targets(mapping) &&
      (forall i :: 0 <= i < |out| ==> out[i].0 in SqlKeys) &&
      (forall i, j :: 0 <= i < j < |out| ==> out[i].0 != out[j].0) &&
      (forall i :: 0 <= i < |out| ==>
        exists c :: 0 <= c < |row| && (row[c].0, Some(out[i].0)) in mapping && out[i].1 == Some(row[c].1))
  {
    if Keys(row) == CardHeader {
      CardShape(row);
    } else {
      CheckingShape(row);
    }
  }

  lemma CardShape<V>(row: Row<V>)
    requires Keys(row) == CardHeader
    ensures var out := Convert(row).value;
      Convert(row).Ok? &&
      Keys(out) == Targets(CardMapping) &&
      (forall i :: 0 <= i < |out| ==> out[i].0 in SqlKeys) &&
      (forall i, j :: 0 <= i < j < |out| ==> out[i].0 != out[j].0) &&
      (forall i :: 0 <= i < |out| ==>
        exists c :: 0 <= c < |row| && (row[c].0, Some(out[i].0)) in CardMapping && out[i].1 == Some(row[c].1))
  {
    ConvertCard(row);
    var out := Convert(row).value;
    CardKeys(Keys(out));
    var m := CardMapping;
    forall i | 0 <= i < |out|
      ensures exists c :: 0 <= c < |row| && (row[c].0, Some(out[i].0)) in m && out[i].1 == Some(row[c].1)
    {
      var c := if i == 3 then 4 else i;
      assert (row[c].0, Some(out[i].0)) == m[c];
    }
  }

  lemma CardTargets()
    ensures Targets(CardMapping) == ["date", "transaction_id", "description", "amount"]
  {
    var m := CardMapping;
    assert m[1..][1..] == m[2..] && m[2..][1..] == m[3..] && m[3..][1..] == m[4..] && m[4..][1..] == [];
    assert Targets(m[4..]) == ["amount"];
    assert Targets(m[3..]) == ["amount"];
    assert Targets(m[2..]) == ["description", "amount"];
    assert Targets(m[1..]) == ["transaction_id", "description", "amount"];
  }

  /** The card layout's keys are distinct SQL keys, the mapping's targets in order. */
  lemma CardKeys(ks: seq<string>)
    requires ks == ["date", "transaction_id", "description", "amount"]
    ensures ks == Targets(CardMapping)
    ensures forall i :: 0 <= i < |ks| ==> ks[i] in SqlKeys
    ensures forall i, j :: 0 <= i < j < |ks| ==> ks[i] != ks[j]
  {
    CardTargets();
  }

  lemma CheckingShape<V>(row: Row<V>)
    requires Keys(row) == CheckingHeader
    ensures var out := Convert(row).value;
      Convert(row).Ok? &&
      Keys(out) == Targets(CheckingMapping) &&
      (forall i :: 0 <= i < |out| ==> out[i].0 in SqlKeys) &&
      (forall i, j :: 0 <= i < j < |out| ==> out[i].0 != out[j].0) &&
      (forall i :: 0 <= i < |out| ==>
        exists c :: 0 <= c < |row| && (row[c].0, Some(out[i].0)) in CheckingMapping && out[i].1 == Some(row[c].1))
  {
    ConvertChecking(row);
    CheckingExpected(row);
    var out := Convert(row).value;
    var m := CheckingMapping;
    forall i | 0 <= i < |out|
      ensures exists c :: 0 <= c < |row| && (row[c].0, Some(out[i].0)) in m && out[i].1 == Some(row[c].1)
    {
      assert (row[i].0, Some(out[i].0)) == m[i];
    }
  }
}
