/**
 * Record building and duplicate grouping of the user-interface helpers.
 * Rows of the duplicate view are an input: the view itself belongs to the
 * database schema, which is not part of this model.
 */
module Common {
  import opened Wrappers
  import opened PyErrors
  import opened Entry
  import BanksheetConverter
  import Dates

  type Row<V> = BanksheetConverter.Row<V>

  /** The keyword parameters `DataEntry` accepts. */
  const EntryFields: seq<string> := ["date", "amount", "description", "extra_desc"]

  /**
   * `DataEntry(**item)`: an unknown keyword or a missing required one is a
   * `TypeError`; a bad date or amount is the `ValueError` of `__post_init__`.
   */
  function FromKeywords(item: Row<string>, toFloat: string -> Option<real>): (r: Result<DataEntry, Error>)
    ensures r.Err? ==> r.error == TypeError || r.error == ValueError
    ensures (exists i :: 0 <= i < |item| && item[i].0 !in EntryFields) ==> r == Err(TypeError)
    ensures ((forall i :: 0 <= i < |item| ==> item[i].0 in EntryFields) &&
             (BanksheetConverter.Get(item, "date").None? || BanksheetConverter.Get(item, "amount").None? ||
              BanksheetConverter.Get(item, "description").None?)) ==> r == Err(TypeError)
    ensures r.Ok? ==> BanksheetConverter.Get(item, "date").Some? &&
                      Dates.ParseDate(BanksheetConverter.Get(item, "date").value) == Some(r.value.date)
    ensures r.Ok? ==> BanksheetConverter.Get(item, "amount").Some? &&
                      toFloat(BanksheetConverter.Get(item, "amount").value) == Some(r.value.amount)
    ensures r.Ok? ==> BanksheetConverter.Get(item, "description") == Some(r.value.description)
    ensures r.Ok? ==> (r.value.extraDesc ==
                       if BanksheetConverter.Get(item, "extra_desc").Some?
                       then BanksheetConverter.Get(item, "extra_desc").value else "")
  {
    if exists i :: 0 <= i < |item| && item[i].0 !in EntryFields then Err(TypeError)
    else
      var date := BanksheetConverter.Get(item, "date");
      var amount := BanksheetConverter.Get(item, "amount");
      var description := BanksheetConverter.Get(item, "description");
      var extra := BanksheetConverter.Get(item, "extra_desc");
      if date.None? || amount.None? || description.None? then Err(TypeError)
      else Create(date.value, amount.value, description.value, toFloat,
                  if extra.Some? then extra.value else "")
  }

  /** The nested `create`: a `ValueError` becomes `None`, any other exception escapes. */
  function CreateOrNone(item: Row<string>, toFloat: string -> Option<real>): Result<Option<DataEntry>, Error>
  {
    match FromKeywords(item, toFloat)
    case Ok(e) => Ok(Some(e))
    case Err(ValueError) => Ok(None)
    case Err(other) => Err(other)
  }

  /** `list(map(create, items))`. */
  function ConvertAll(items: seq<Row<string>>, toFloat: string -> Option<real>): (r: Result<seq<Option<DataEntry>>, Error>)
    ensures r.Ok? <==> forall i :: 0 <= i < |items| ==> FromKeywords(items[i], toFloat) != Err(TypeError)
    ensures r.Err? ==> r.error == TypeError
    ensures r.Ok? ==> |r.value| == |items|
    ensures r.Ok? ==> forall i :: 0 <= i < |items| ==>
      (r.value[i].None? <==> FromKeywords(items[i], toFloat) == Err(ValueError)) &&
      (r.value[i].Some? ==> FromKeywords(items[i], toFloat) == Ok(r.value[i].value))
  {
    if |items| == 0 then Ok([])
    else
      match CreateOrNone(items[0], toFloat)
      case Err(e) => Err(e)
      case Ok(first) =>
        match ConvertAll(items[1..], toFloat)
        case Err(e) => Err(e)
        case Ok(rest) => Ok([first] + rest)
  }

  /**
   * `convert_csv_data_to_dataentry`: `None` and `[]` both give `[]`; otherwise
   * one slot per row, in order, `None` where the row's date or amount did not parse.
   */
  function ConvertCsvDataToDataEntry(items: Option<seq<Row<string>>>, toFloat: string -> Option<real>)
    : (r: Result<seq<Option<DataEntry>>, Error>)
    ensures items.None? ==> r == Ok([])
    ensures items.Some? ==> r == ConvertAll(items.value, toFloat)
  {
    if items.Some? then ConvertAll(items.value, toFloat) else Ok([])
  }

  /**
   * The converter's card layout emits a `transaction_id` key, which is not a
   * `DataEntry` field: building a record from such a row raises `TypeError`.
   */
  lemma CardKeysRejected(item: Row<string>, toFloat: string -> Option<real>)
    requires BanksheetConverter.Keys(item) == ["date", "transaction_id", "description", "amount"]
    ensures FromKeywords(item, toFloat) == Err(TypeError)
    ensures ConvertAll([item], toFloat) == Err(TypeError)
  {
    assert item[1].0 == "transaction_id" && item[1].0 !in EntryFields;
  }

  // ---------------------------------------------------------------------
  // Duplicate grouping

  /** A row of the duplicate view: staged id, four key columns, committed count. */
  datatype ViewRow<C> = ViewRow(id: int, k1: C, k2: C, k3: C, k4: C, saved: int)

  type Key<C> = (C, C, C, C)

  /** `[potential_ids, saved_count, key]` */
  datatype Group<C> = Group(ids: seq<int>, saved: int, key: Key<C>)

  function KeyOf<C>(r: ViewRow<C>): Key<C>
  {
    (r.k1, r.k2, r.k3, r.k4)
  }

  /** Column 0 of each row. */
  function Ids<C>(rows: seq<ViewRow<C>>): (r: seq<int>)
    ensures |r| == |rows| && forall k :: 0 <= k < |rows| ==> r[k] == rows[k].id
  {
    seq(|rows|, k requires 0 <= k < |rows| => rows[k].id)
  }

  /** Every group's ids, one group after the other. */
  function Flatten<C>(groups: seq<Group<C>>): seq<int>
  {
    if |groups| == 0 then [] else groups[0].ids + Flatten(groups[1..])
  }

  /** Where the rows of group `g` start among the input rows. */
  function Offset<C>(groups: seq<Group<C>>, g: int): int
    requires 0 <= g <= |groups|
  {
    |Flatten(groups[..g])|
  }

  /** One past the last row of the maximal run of equal keys that starts at `i`. */
  function RunEnd<C(==)>(data: seq<ViewRow<C>>, i: int): (j: int)
    requires 0 <= i < |data|
    ensures i < j <= |data|
    ensures forall k :: i <= k < j ==> KeyOf(data[k]) == KeyOf(data[i])
    ensures j < |data| ==> KeyOf(data[j]) != KeyOf(data[i])
    decreases |data| - i
  {
    if i + 1 < |data| && KeyOf(data[i + 1]) == KeyOf(data[i]) then RunEnd(data, i + 1) else i + 1
  }

  /** `itertools.groupby` on columns 1-4 from row `i` on, one group per maximal run. */
  function Runs<C(==)>(data: seq<ViewRow<C>>, i: int): seq<Group<C>>
    requires 0 <= i <= |data|
    decreases |data| - i
  {
    if i == |data| then []
    else
      var j := RunEnd(data, i);
      [Group(Ids(data[i..j]), data[j - 1].saved, KeyOf(data[i]))] + Runs(data, j)
  }

  /** `get_duplicate_groups` over the rows the duplicate view returned. */
  method GetDuplicateGroups<C(==)>(data: seq<ViewRow<C>>) returns (groupedData: seq<Group<C>>)
    ensures groupedData == Runs(data, 0)
  {
    groupedData := [];
    var i := 0;
    while i < |data|
      invariant 0 <= i <= |data|
      invariant groupedData + Runs(data, i) == Runs(data, 0)
    {
      var potentialIds, savedCount, j := CollectRun(data, i);
      var group := Group(potentialIds, savedCount, KeyOf(data[i]));
      assert Runs(data, i) == [group] + Runs(data, j);
      assert groupedData + [group] + Runs(data, j) == groupedData + Runs(data, i);
      groupedData := groupedData + [group];
      i := j;
    }
  }

  /** The inner loop of `get_duplicate_groups`: the ids and the last saved count of the run starting at `i`. */
  method CollectRun<C(==)>(data: seq<ViewRow<C>>, i: int) returns (potentialIds: seq<int>, savedCount: int, j: int)
    requires 0 <= i < |data|
    ensures j == RunEnd(data, i)
    ensures potentialIds == Ids(data[i..j]) && savedCount == data[j - 1].saved
  {
    var key := KeyOf(data[i]);
    potentialIds := [];
    savedCount := 0;
    j := i;
    while j < |data| && KeyOf(data[j]) == key
      invariant i <= j <= RunEnd(data, i)
      invariant potentialIds == Ids(data[i..j])
      invariant j > i ==> savedCount == data[j - 1].saved
    {
      assert data[i..j + 1] == data[i..j] + [data[j]];
      IdsAppend(data[i..j], [data[j]]);
      potentialIds := potentialIds + [data[j].id];
      savedCount := data[j].saved;
      j := j + 1;
    }
  }

  /** Concatenating the groups' id lists gives column 0 of the rows, in order: nothing dropped, nothing reordered. */
  lemma {:induction false} RunsKeepEveryId<C>(data: seq<ViewRow<C>>, i: int)
    requires 0 <= i <= |data|
    ensures Flatten(Runs(data, i)) == Ids(data[i..])
    decreases |data| - i
  {
    if i < |data| {
      var j := RunEnd(data, i);
      var gs := Runs(data, i);
      RunsKeepEveryId(data, j);
      assert gs[1..] == Runs(data, j);
      assert Flatten(gs) == Ids(data[i..j]) + Flatten(Runs(data, j));
      IdsAppend(data[i..j], data[j..]);
      assert data[i..j] + data[j..] == data[i..];
    }
  }

  lemma IdsAppend<C>(a: seq<ViewRow<C>>, b: seq<ViewRow<C>>)
    ensures Ids(a + b) == Ids(a) + Ids(b)
  {
  }

  /**
   * Each group is non-empty, there are at most as many groups as rows, no
   * rows give no groups, the first group carries the key of the first row, and
   * two adjacent groups never share a key.
   */
  lemma {:induction false} RunsShape<C>(data: seq<ViewRow<C>>, i: int)
    requires 0 <= i <= |data|
    ensures var gs := Runs(data, i);
      |gs| <= |data| - i && (|gs| == 0 <==> i == |data|) &&
      (|gs| > 0 ==> gs[0].key == KeyOf(data[i])) &&
      (forall g :: 0 <= g < |gs| ==> |gs[g].ids| > 0) &&
      (forall g :: 0 <= g < |gs| - 1 ==> gs[g].key != gs[g + 1].key)
    decreases |data| - i
  {
    if i < |data| {
      var j := RunEnd(data, i);
      RunsShape(data, j);
      var gs := Runs(data, i);
      assert gs[1..] == Runs(data, j);
      forall g | 0 <= g < |gs| - 1
        ensures gs[g].key != gs[g + 1].key
      {
        if g > 0 {
          assert gs[g] == Runs(data, j)[g - 1] && gs[g + 1] == Runs(data, j)[g];
        }
      }
    }
  }

  /**
   * Group `g` covers the rows from its offset on, one per id: all of them
   * share the group's key, and the group's saved count is column 5 of the
   * last of them.
   */
  lemma RunsGroupRows<C>(data: seq<ViewRow<C>>, i: int, g: int)
    requires 0 <= i <= |data|
    requires 0 <= g < |Runs(data, i)|
    ensures var gs := Runs(data, i);
      var s := i + Offset(gs, g);
      var e := s + |gs[g].ids|;
      i <= s < e <= |data| &&
      gs[g].ids == Ids(data[s..e]) &&
      (forall k :: s <= k < e ==> KeyOf(data[k]) == gs[g].key) &&
      gs[g].saved == data[e - 1].saved
  {
    GroupCovers(data, i, g);
    CoveredRows(data, i + Offset(Runs(data, i), g), Runs(data, i)[g]);
  }

  /** A covering group's ids are column 0 of its rows, all of which carry its key. */
  lemma CoveredRows<C>(data: seq<ViewRow<C>>, s: int, grp: Group<C>)
    requires Covers(data, s, grp)
    ensures var e := s + |grp.ids|;
      0 <= s < e <= |data| &&
      grp.ids == Ids(data[s..e]) &&
      (forall k :: s <= k < e ==> KeyOf(data[k]) == grp.key) &&
      grp.saved == data[e - 1].saved
  {
    var e := s + |grp.ids|;
    forall k | s <= k < e
      ensures KeyOf(data[k]) == grp.key
    {
      var m := k - s;
      assert grp.ids[m] == data[s + m].id && KeyOf(data[s + m]) == grp.key;
    }
    assert grp.ids == Ids(data[s..e]);
  }

  /** Group `grp` is the rows `data[s..]` it claims, one per id. */
  ghost predicate Covers<C>(data: seq<ViewRow<C>>, s: int, grp: Group<C>)
  {
    var e := s + |grp.ids|;
    0 <= s < e <= |data| &&
    (forall k :: 0 <= k < |grp.ids| ==> grp.ids[k] == data[s + k].id && KeyOf(data[s + k]) == grp.key) &&
    grp.saved == data[e - 1].saved
  }

  /** Each group covers the rows that follow the previous one. */
  ghost predicate AllCover<C>(data: seq<ViewRow<C>>, s: int, gs: seq<Group<C>>)
    decreases |gs|
  {
    |gs| == 0 || (Covers(data, s, gs[0]) && AllCover(data, s + |gs[0].ids|, gs[1..]))
  }

  lemma {:induction false} GroupCovers<C>(data: seq<ViewRow<C>>, i: int, g: int)
    requires 0 <= i <= |data|
    requires 0 <= g < |Runs(data, i)|
    ensures i <= i + Offset(Runs(data, i), g)
    ensures Covers(data, i + Offset(Runs(data, i), g), Runs(data, i)[g])
  {
    RunsAllCover(data, i);
    AllCoverAt(data, i, Runs(data, i), g);
  }

  lemma {:induction false} RunsAllCover<C>(data: seq<ViewRow<C>>, i: int)
    requires 0 <= i <= |data|
    ensures AllCover(data, i, Runs(data, i))
    decreases |data| - i
  {
    if i < |data| {
      RunsHead(data, i);
      RunsAllCover(data, RunEnd(data, i));
      HeadCovers(data, i);
    }
  }

  lemma HeadCovers<C>(data: seq<ViewRow<C>>, i: int)
    requires 0 <= i < |data|
    ensures Covers(data, i, Runs(data, i)[0])
  {
    RunsHead(data, i);
  }

  lemma {:induction false} AllCoverAt<C>(data: seq<ViewRow<C>>, s: int, gs: seq<Group<C>>, g: int)
    requires AllCover(data, s, gs) && 0 <= g < |gs|
    ensures Covers(data, s + Offset(gs, g), gs[g])
    decreases g
  {
    if g == 0 {
      assert gs[..0] == [];
    } else {
      AllCoverAt(data, s + |gs[0].ids|, gs[1..], g - 1);
      OffsetCons(gs, g);
      assert gs[g] == gs[1..][g - 1];
    }
  }

  /** The first group is the run at `i`, and the other groups are the runs after it. */
  lemma RunsHead<C>(data: seq<ViewRow<C>>, i: int)
    requires 0 <= i < |data|
    ensures var gs := Runs(data, i); var j := RunEnd(data, i);
      |gs| > 0 && gs[0].ids == Ids(data[i..j]) && |gs[0].ids| == j - i &&
      gs[0].saved == data[j - 1].saved && gs[0].key == KeyOf(data[i]) &&
      gs[1..] == Runs(data, j)
  {
  }

  lemma OffsetCons<C>(gs: seq<Group<C>>, g: int)
    requires 0 < g <= |gs|
    ensures Offset(gs, g) == |gs[0].ids| + Offset(gs[1..], g - 1)
  {
    assert gs[..g][1..] == gs[1..][..g - 1];
  }
}
