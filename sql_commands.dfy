/**
 * The staging store behind the SQL commands. Three tables are kept as
 * sequences: `description` (a name gets id `index + 1`; names are unique, so
 * `INSERT OR IGNORE` skips a name already present), `potential_transaction`
 * (staged rows, ids handed out in increasing order) and `bank_transaction`
 * (committed rows). A description looked up by a name that is absent is SQL
 * `NULL`, modelled as `None`; `NULL` never compares equal to anything.
 */
module SqlCommands {
  import opened Wrappers
  import opened PyErrors
  import opened Dates
  import opened Entry

  /** A `potential_transaction` row: id, date text, amount, description id. */
  datatype Staged = Staged(id: int, date: string, amount: real, description: Option<int>)

  /** A `bank_transaction` row. */
  datatype Saved = Saved(date: string, amount: real, description: Option<int>)

  /** The `(date, amount, description)` tuple the statements bind. */
  type RowKey = (string, real, string)

  predicate Distinct<T(==)>(s: seq<T>)
  {
    forall i, j :: 0 <= i < j < |s| ==> s[i] != s[j]
  }

  /** Staged ids strictly increase along the table. */
  predicate Increasing(p: seq<Staged>)
  {
    forall i, j :: 0 <= i < j < |p| ==> p[i].id < p[j].id
  }

  // ---------------------------------------------------------------------
  // Queries

  function IndexOf(names: seq<string>, name: string): (r: int)
    ensures -1 <= r < |names|
    ensures r >= 0 ==> names[r] == name && forall k :: 0 <= k < r ==> names[k] != name
    ensures r == -1 <==> name !in names
  {
    if |names| == 0 then -1
    else if names[0] == name then 0
    else
      var k := IndexOf(names[1..], name);
      if k < 0 then -1 else k + 1
  }

  /** `SELECT description_id FROM description WHERE name=?` */
  function DescriptionId(names: seq<string>, name: string): (r: Option<int>)
    ensures r.Some? <==> name in names
    ensures r.Some? ==> 1 <= r.value <= |names| && names[r.value - 1] == name
  {
    var k := IndexOf(names, name);
    if k >= 0 then Some(k + 1) else None
  }

  /** The records of a batch, skipping the `None` slots, in order. */
  function Present(entries: seq<Option<DataEntry>>): (r: seq<DataEntry>)
    ensures |r| <= |entries|
    ensures forall e :: e in r <==> Some(e) in entries
  {
    if |entries| == 0 then []
    else
      var last := entries[|entries| - 1];
      assert forall x :: x in entries <==> x in entries[..|entries| - 1] || x == last;
      Present(entries[..|entries| - 1]) + (if last.Some? then [last.value] else [])
  }

  /** Skipping `None` commutes with concatenating batches: relative order is kept. */
  lemma {:induction false} PresentAppend(a: seq<Option<DataEntry>>, b: seq<Option<DataEntry>>)
    ensures Present(a + b) == Present(a) + Present(b)
    decreases |b|
  {
    if |b| == 0 {
      assert a + b == a;
    } else {
      assert (a + b)[..|a + b| - 1] == a + b[..|b| - 1];
      assert (a + b)[|a + b| - 1] == b[|b| - 1];
      PresentAppend(a, b[..|b| - 1]);
    }
  }

  function Names(es: seq<DataEntry>): (r: seq<string>)
    ensures |r| == |es| && forall k :: 0 <= k < |es| ==> r[k] == es[k].description
  {
    seq(|es|, k requires 0 <= k < |es| => es[k].description)
  }

  /** The key a record is stored and looked up under: `(date.strftime("%m/%d/%Y"), amount, description)`. */
  function ToTuple(e: DataEntry): RowKey
    requires Built(e)
  {
    (FormatDate(e.date), e.amount, e.description)
  }

  function Rows(es: seq<DataEntry>): (r: seq<RowKey>)
    requires forall e :: e in es ==> Built(e)
    ensures |r| == |es| && forall k :: 0 <= k < |es| ==> r[k] == ToTuple(es[k])
  {
    seq(|es|, k requires 0 <= k < |es| => ToTuple(es[k]))
  }

  /** `executemany("INSERT OR IGNORE INTO description(name) …")` */
  function InsertOrIgnore(names: seq<string>, toInsert: seq<string>): (r: seq<string>)
    decreases |toInsert|
    ensures |names| <= |r| && r[..|names|] == names
    ensures forall n :: n in r <==> n in names || n in toInsert
    ensures Distinct(names) ==> Distinct(r)
  {
    if |toInsert| == 0 then names
    else
      var next := if toInsert[0] in names then names else names + [toInsert[0]];
      assert forall n :: n in toInsert <==> n == toInsert[0] || n in toInsert[1..];
      var r := InsertOrIgnore(next, toInsert[1..]);
      assert r[..|names|] == next[..|names|];
      r
  }

  /** A name that already had an id keeps it after more names are inserted. */
  lemma DescriptionIdStable(names: seq<string>, toInsert: seq<string>, name: string)
    requires Distinct(names) && name in names
    ensures DescriptionId(InsertOrIgnore(names, toInsert), name) == DescriptionId(names, name)
  {
    var r := InsertOrIgnore(names, toInsert);
    var k := IndexOf(names, name);
    var k' := IndexOf(r, name);
    assert r[k] == names[k];
  }

  /** The rows `executemany("INSERT OR IGNORE INTO potential_transaction …")` adds, ids from `nextId` on. */
  function Stage(nextId: int, names: seq<string>, rows: seq<RowKey>): (r: seq<Staged>)
    ensures |r| == |rows|
    ensures forall k :: 0 <= k < |rows| ==>
      r[k] == Staged(nextId + k, rows[k].0, rows[k].1, DescriptionId(names, rows[k].2))
  {
    seq(|rows|, k requires 0 <= k < |rows| => Staged(nextId + k, rows[k].0, rows[k].1, DescriptionId(names, rows[k].2)))
  }

  /** `INSERT INTO bank_transaction … SELECT date, amount, description FROM potential_transaction` */
  function Saves(p: seq<Staged>): (r: seq<Saved>)
    ensures |r| == |p| && forall k :: 0 <= k < |p| ==> r[k] == Saved(p[k].date, p[k].amount, p[k].description)
  {
    seq(|p|, k requires 0 <= k < |p| => Saved(p[k].date, p[k].amount, p[k].description))
  }

  /** The `WHERE date=? AND amount=? AND description=(SELECT …)` test; a `NULL` on either side never matches. */
  predicate Matches(s: Staged, key: RowKey, names: seq<string>)
  {
    s.date == key.0 && s.amount == key.1 && s.description.Some? && s.description == DescriptionId(names, key.2)
  }

  /** `SELECT id … LIMIT 1`: the first matching staged row in table order. */
  function FirstMatch(p: seq<Staged>, key: RowKey, names: seq<string>): (r: Option<int>)
    ensures r.Some? ==> 0 <= r.value < |p| && Matches(p[r.value], key, names)
    ensures r.Some? ==> forall k :: 0 <= k < r.value ==> !Matches(p[k], key, names)
    ensures r.None? ==> forall k :: 0 <= k < |p| ==> !Matches(p[k], key, names)
  {
    if |p| == 0 then None
    else if Matches(p[0], key, names) then Some(0)
    else
      var r := FirstMatch(p[1..], key, names);
      if r.Some? then Some(r.value + 1) else None
  }

  /** `DELETE FROM potential_transaction WHERE id=?` */
  function DeleteId(p: seq<Staged>, id: int): (r: seq<Staged>)
    ensures |r| <= |p|
  {
    if |p| == 0 then []
    else (if p[0].id == id then [] else [p[0]]) + DeleteId(p[1..], id)
  }

  /** Deleting an id leaves exactly the staged rows with another id. */
  lemma {:induction false} DeleteIdMembers(p: seq<Staged>, id: int)
    ensures forall s :: s in DeleteId(p, id) <==> s in p && s.id != id
  {
    if |p| > 0 {
      DeleteIdMembers(p[1..], id);
      assert forall s :: s in p <==> s == p[0] || s in p[1..];
    }
  }

  /** With unique ids, deleting the id of row `i` removes exactly row `i`. */
  lemma DeleteIdAt(p: seq<Staged>, i: int)
    requires Increasing(p)
    requires 0 <= i < |p|
    ensures DeleteId(p, p[i].id) == p[..i] + p[i + 1..]
  {
    DeleteUniqueId(p, i);
  }

  lemma {:induction false} DeleteUniqueId(p: seq<Staged>, i: int)
    requires 0 <= i < |p|
    requires forall k :: 0 <= k < |p| && k != i ==> p[k].id != p[i].id
    ensures DeleteId(p, p[i].id) == p[..i] + p[i + 1..]
  {
    var tail := p[1..];
    if i == 0 {
      forall k | 0 <= k < |tail|
        ensures tail[k].id != p[0].id
      {
        assert tail[k] == p[k + 1];
      }
      NoSuchId(tail, p[0].id);
    } else {
      forall k | 0 <= k < |tail| && k != i - 1
        ensures tail[k].id != tail[i - 1].id
      {
        assert tail[k] == p[k + 1];
      }
      DeleteUniqueId(tail, i - 1);
      DeleteIdStep(p, p[i].id);
      assert tail[..i - 1] + tail[i..] == p[1..i] + p[i + 1..];
      assert p[..i] + p[i + 1..] == [p[0]] + (p[1..i] + p[i + 1..]);
    }
  }

  lemma DeleteIdStep(p: seq<Staged>, id: int)
    requires |p| > 0 && p[0].id != id
    ensures DeleteId(p, id) == [p[0]] + DeleteId(p[1..], id)
  {
  }

  lemma {:induction false} NoSuchId(p: seq<Staged>, id: int)
    requires forall k :: 0 <= k < |p| ==> p[k].id != id
    ensures DeleteId(p, id) == p
  {
    if |p| > 0 {
      NoSuchId(p[1..], id);
      assert [p[0]] + p[1..] == p;
    }
  }

  /** One pass of `remove_potential`'s loop. */
  function RemoveOne(p: seq<Staged>, key: RowKey, names: seq<string>): seq<Staged>
  {
    match FirstMatch(p, key, names)
    case None => p
    case Some(i) => DeleteId(p, p[i].id)
  }

  /** Every pass of `remove_potential`'s loop, in order. */
  function RemoveEach(p: seq<Staged>, keys: seq<RowKey>, names: seq<string>): seq<Staged>
  {
    if |keys| == 0 then p
    else RemoveOne(RemoveEach(p, keys[..|keys| - 1], names), keys[|keys| - 1], names)
  }

  /**
   * One entry deletes at most one staged row: the first that matches its date,
   * amount and description id. Without a match nothing changes, and every
   * other row stays, in order.
   */
  lemma RemoveOneFirstMatch(p: seq<Staged>, key: RowKey, names: seq<string>)
    requires Increasing(p)
    ensures FirstMatch(p, key, names).None? ==> RemoveOne(p, key, names) == p
    ensures FirstMatch(p, key, names).Some? ==>
      var i := FirstMatch(p, key, names).value;
      RemoveOne(p, key, names) == p[..i] + p[i + 1..]
  {
    if FirstMatch(p, key, names).Some? {
      DeleteIdAt(p, FirstMatch(p, key, names).value);
    }
  }

  /** Removing keeps what it leaves in order and with increasing ids. */
  lemma RemoveOneKeepsOrder(p: seq<Staged>, key: RowKey, names: seq<string>)
    requires Increasing(p)
    ensures Increasing(RemoveOne(p, key, names))
  {
    var m := FirstMatch(p, key, names);
    if m.Some? {
      DeleteIdKeepsOrder(p, p[m.value].id);
    }
  }

  /**
   * `remove_potential` with `n` entries deletes at most `n` staged rows, only
   * rows that were staged, and keeps ids increasing.
   */
  lemma {:induction false} RemoveEachBounds(p: seq<Staged>, keys: seq<RowKey>, names: seq<string>)
    requires Increasing(p)
    ensures var r := RemoveEach(p, keys, names);
      |p| - |keys| <= |r| <= |p| && Increasing(r) && forall s :: s in r ==> s in p
    decreases |keys|
  {
    if |keys| > 0 {
      var prev := RemoveEach(p, keys[..|keys| - 1], names);
      RemoveEachBounds(p, keys[..|keys| - 1], names);
      RemoveOneFirstMatch(prev, keys[|keys| - 1], names);
      RemoveOneKeepsOrder(prev, keys[|keys| - 1], names);
      var m := FirstMatch(prev, keys[|keys| - 1], names);
      if m.Some? {
        var i := m.value;
        assert forall s :: s in prev[..i] + prev[i + 1..] ==> s in prev;
      }
    }
  }

  /** Deleting by a list of staged ids, one `DELETE … WHERE id=?` per id. */
  function DeleteIds(p: seq<Staged>, ids: seq<int>): seq<Staged>
  {
    if |ids| == 0 then p else DeleteId(DeleteIds(p, ids[..|ids| - 1]), ids[|ids| - 1])
  }

  /** After deleting a list of ids, exactly the staged rows whose id is not listed remain. */
  lemma {:induction false} DeleteIdsExactly(p: seq<Staged>, ids: seq<int>)
    ensures forall s :: s in DeleteIds(p, ids) <==> s in p && s.id !in ids
    decreases |ids|
  {
    if |ids| > 0 {
      DeleteIdsExactly(p, ids[..|ids| - 1]);
      DeleteIdMembers(DeleteIds(p, ids[..|ids| - 1]), ids[|ids| - 1]);
      assert forall x :: x in ids <==> x in ids[..|ids| - 1] || x == ids[|ids| - 1];
    }
  }

  // ---------------------------------------------------------------------
  // The store

  class Store {
    var descriptions: seq<string>
    var potential: seq<Staged>
    var committed: seq<Saved>
    var nextId: int

    /** Names are unique and staged ids increase and lie below the next id handed out. */
    ghost predicate Valid()
      reads this
    {
      Distinct(descriptions) && Increasing(potential) &&
      forall k :: 0 <= k < |potential| ==> potential[k].id < nextId
    }

    /** A freshly created schema: every table empty. */
    constructor ()
      ensures Valid()
      ensures descriptions == [] && potential == [] && committed == []
    {
      descriptions := [];
      potential := [];
      committed := [];
      nextId := 1;
    }

    /** `insert_descriptions`: `None` raises `TypeError`; otherwise each present record's description is inserted unless known. */
    method InsertDescriptions(dataEntries: Option<seq<Option<DataEntry>>>) returns (r: Result<(), Error>)
      requires Valid()
      modifies this
      ensures Valid()
      ensures dataEntries.None? ==> r == Err(TypeError) && unchanged(this)
      ensures dataEntries.Some? ==> r == Ok(())
      ensures dataEntries.Some? ==>
        descriptions == InsertOrIgnore(old(descriptions), Names(Present(dataEntries.value))) &&
        potential == old(potential) && committed == old(committed) && nextId == old(nextId)
    {
      if dataEntries.None? {
        return Err(TypeError);
      }
      var entries := dataEntries.value;
      var toInsert: seq<string> := [];
      for i := 0 to |entries|
        invariant toInsert == Names(Present(entries[..i]))
      {
        assert entries[..i + 1][..i] == entries[..i];
        if entries[i].Some? {
          toInsert := toInsert + [entries[i].value.description];
        }
      }
      assert entries[..|entries|] == entries;
      descriptions := InsertOrIgnore(descriptions, toInsert);
      r := Ok(());
    }

    /**
     * `insert_potential_transactions`: stages one row per present record, in
     * order, with its formatted date, amount and the id of its description.
     */
    method InsertPotentialTransactions(dataEntries: seq<Option<DataEntry>>)
      requires Valid()
      requires forall e :: Some(e) in dataEntries ==> Built(e)
      modifies this
      ensures Valid()
      ensures potential == old(potential) + Stage(old(nextId), descriptions, Rows(Present(dataEntries)))
      ensures nextId == old(nextId) + |Present(dataEntries)|
      ensures descriptions == old(descriptions) && committed == old(committed)
    {
      var toInsert: seq<RowKey> := [];
      for i := 0 to |dataEntries|
        invariant forall e :: e in Present(dataEntries[..i]) ==> Built(e)
        invariant toInsert == Rows(Present(dataEntries[..i]))
      {
        assert dataEntries[..i + 1][..i] == dataEntries[..i];
        if dataEntries[i].Some? {
          toInsert := toInsert + [ToTuple(dataEntries[i].value)];
        }
      }
      assert dataEntries[..|dataEntries|] == dataEntries;
      var added := Stage(nextId, descriptions, toInsert);
      potential := potential + added;
      nextId := nextId + |toInsert|;
    }

    /** `preserve_potential`: every staged row is appended to the committed table, then staging is emptied. */
    method PreservePotential()
      requires Valid()
      modifies this
      ensures Valid()
      ensures committed == old(committed) + Saves(old(potential))
      ensures potential == []
      ensures descriptions == old(descriptions) && nextId == old(nextId)
    {
      committed := committed + Saves(potential);
      potential := [];
    }

    /** `clear_potential`: empties the staging table. */
    method ClearPotential()
      requires Valid()
      modifies this
      ensures Valid()
      ensures potential == []
      ensures descriptions == old(descriptions) && committed == old(committed) && nextId == old(nextId)
    {
      potential := [];
    }

    /** `remove_potential` on records: for each, the first matching staged row (if any) is deleted by its id. */
    method RemovePotential(entries: seq<DataEntry>)
      requires Valid()
      requires forall e :: e in entries ==> Built(e)
      modifies this
      ensures Valid()
      ensures potential == RemoveEach(old(potential), Rows(entries), descriptions)
      ensures descriptions == old(descriptions) && committed == old(committed) && nextId == old(nextId)
    {
      var keys := Rows(entries);
      for i := 0 to |keys|
        invariant Valid()
        invariant potential == RemoveEach(old(potential), keys[..i], descriptions)
        invariant descriptions == old(descriptions) && committed == old(committed) && nextId == old(nextId)
      {
        assert keys[..i + 1][..i] == keys[..i];
        var res := FirstMatch(potential, keys[i], descriptions);
        if res.Some? {
          DeleteIdKeepsValid(potential, potential[res.value].id, nextId);
          potential := DeleteId(potential, potential[res.value].id);
        }
      }
      assert keys[..|keys|] == keys;
    }

    /** Deleting staged rows by id, as the resolution policies intend: one `DELETE … WHERE id=?` per id. */
    method RemovePotentialIds(ids: seq<int>)
      requires Valid()
      modifies this
      ensures Valid()
      ensures potential == DeleteIds(old(potential), ids)
      ensures descriptions == old(descriptions) && committed == old(committed) && nextId == old(nextId)
    {
      for i := 0 to |ids|
        invariant Valid()
        invariant potential == DeleteIds(old(potential), ids[..i])
        invariant descriptions == old(descriptions) && committed == old(committed) && nextId == old(nextId)
      {
        assert ids[..i + 1][..i] == ids[..i];
        DeleteIdKeepsValid(potential, ids[i], nextId);
        potential := DeleteId(potential, ids[i]);
      }
      assert ids[..|ids|] == ids;
    }
  }

  /** Deleting by id keeps the other rows in order. */
  lemma {:induction false} DeleteIdKeepsOrder(p: seq<Staged>, id: int)
    requires Increasing(p)
    ensures Increasing(DeleteId(p, id))
  {
    if |p| > 0 {
      var tail := p[1..];
      assert Increasing(tail) by {
        forall a, b | 0 <= a < b < |tail|
          ensures tail[a].id < tail[b].id
        {
          assert tail[a] == p[a + 1] && tail[b] == p[b + 1];
        }
      }
      DeleteIdKeepsOrder(tail, id);
      DeleteIdMembers(tail, id);
      var rest := DeleteId(tail, id);
      if p[0].id != id {
        var r := [p[0]] + rest;
        forall a, b | 0 <= a < b < |r|
          ensures r[a].id < r[b].id
        {
          assert r[b] == rest[b - 1] && r[b] in rest;
          var j :| 0 <= j < |tail| && tail[j] == r[b];
          assert p[j + 1] == r[b];
          if a > 0 {
            assert r[a] == rest[a - 1];
          }
        }
      }
    }
  }

  /** Deleting by id keeps a table valid: ids still increase and stay below `bound`. */
  lemma DeleteIdKeepsValid(p: seq<Staged>, id: int, bound: int)
    requires Increasing(p)
    requires forall k :: 0 <= k < |p| ==> p[k].id < bound
    ensures Increasing(DeleteId(p, id))
    ensures forall k :: 0 <= k < |DeleteId(p, id)| ==> DeleteId(p, id)[k].id < bound
  {
    DeleteIdKeepsOrder(p, id);
    DeleteIdMembers(p, id);
    var r := DeleteId(p, id);
    forall k | 0 <= k < |r|
      ensures r[k].id < bound
    {
      assert r[k] in r;
      var j :| 0 <= j < |p| && p[j] == r[k];
    }
  }

  /**
   * When a batch's descriptions are inserted before the batch is staged, every
   * staged row carries the id of its record's description (never `NULL`), and
   * its date text reads back as the record's date.
   */
  lemma StagedAfterDescriptions(names: seq<string>, entries: seq<Option<DataEntry>>, nextId: int)
    requires forall e :: Some(e) in entries ==> Built(e)
    ensures var es := Present(entries);
      var names' := InsertOrIgnore(names, Names(es));
      var staged := Stage(nextId, names', Rows(es));
      forall k :: 0 <= k < |staged| ==>
        staged[k].description.Some? && names'[staged[k].description.value - 1] == es[k].description &&
        ParseDate(staged[k].date) == Some(es[k].date)
  {
    var es := Present(entries);
    var names' := InsertOrIgnore(names, Names(es));
    var staged := Stage(nextId, names', Rows(es));
    forall k | 0 <= k < |staged|
      ensures staged[k].description.Some? && names'[staged[k].description.value - 1] == es[k].description
      ensures ParseDate(staged[k].date) == Some(es[k].date)
    {
      assert Names(es)[k] == es[k].description;
      assert es[k] in es;
      ParseFormatRoundTrip(es[k].date);
    }
  }
}
