/**
 * The console application: the same grouping and the same interactive
 * policy as the command-line tool, a record conversion without the guard
 * against `None`, and the import pipeline of `main`.
 */
module AppMain {
  import opened Wrappers
  import opened PyErrors
  import opened Entry
  import opened Common
  import opened SqlCommands
  import Cli

  /**
   * `convert_csv_data_to_dataentry` of the application: `map(create, None)`
   * raises `TypeError`; a list is converted as the helper module does.
   */
  function ConvertCsvDataToDataEntry(items: Option<seq<Row<string>>>, toFloat: string -> Option<real>)
    : (r: Result<seq<Option<DataEntry>>, Error>)
    ensures items.None? ==> r == Err(TypeError)
    ensures items.Some? ==> r == ConvertAll(items.value, toFloat)
  {
    match items
    case None => Err(TypeError)
    case Some(rows) => ConvertAll(rows, toFloat)
  }

  /**
   * The two conversions agree on every list and differ on `None` only: the
   * guarded one gives `[]`, this one raises. On a list, every row keeps its
   * slot, `None` where its date or amount did not parse.
   */
  lemma UnguardedConversion(items: Option<seq<Row<string>>>, toFloat: string -> Option<real>)
    ensures ConvertCsvDataToDataEntry(items, toFloat) == Common.ConvertCsvDataToDataEntry(items, toFloat)
      <==> items.Some?
    ensures var r := ConvertCsvDataToDataEntry(items, toFloat);
      items.Some? && r.Ok? ==>
        |r.value| == |items.value| &&
        forall i :: 0 <= i < |items.value| ==> (r.value[i].None? <==> FromKeywords(items.value[i], toFloat) == Err(ValueError))
  {
  }

  /**
   * `query_user`: the groups of the duplicate view, the interactive policy,
   * then `remove_potential` with the queued ids, which raises
   * `AttributeError` on the first of them.
   */
  method QueryUser<C(==)>(view: seq<ViewRow<C>>, responses: seq<Option<int>>) returns (r: Result<(), Error>)
    ensures var queued := Cli.QueryDeletes(Runs(view, 0), responses, 0);
      (queued.Err? ==> r == Err(EOFError)) &&
      (queued.Ok? ==> r == Cli.RemoveWithIds(queued.value) && (r.Ok? <==> queued.value == []))
    ensures r.Err? ==> r.error == EOFError || r.error == AttributeError
  {
    var groups := GetDuplicateGroups(view);
    var queued := Cli.QueryUser(groups, responses);
    Cli.QueryDeletesArePrefixes(groups, responses, 0);
    if queued.Err? {
      return Err(queued.error);
    }
    r := Cli.RemoveWithIds(queued.value);
  }

  /**
   * A session in which every group is answered by keeping all its new copies
   * queues nothing, so `query_user` returns normally.
   */
  lemma {:induction false} KeepAllAnswersQueueNothing<C>(groups: seq<Group<C>>, responses: seq<Option<int>>, pos: int)
    requires 0 <= pos && pos + |groups| <= |responses|
    requires forall k :: 0 <= k < |groups| ==> responses[pos + k] == Some(|groups[k].ids|)
    ensures Cli.QueryDeletes(groups, responses, pos) == Ok([])
    decreases |groups|
  {
    if |groups| > 0 {
      var n := |groups[0].ids|;
      assert responses[pos] == Some(n);
      assert Cli.FirstValid(responses, pos, n) == Some(pos);
      forall k | 0 <= k < |groups[1..]|
        ensures responses[pos + 1 + k] == Some(|groups[1..][k].ids|)
      {
        assert groups[1..][k] == groups[k + 1];
      }
      KeepAllAnswersQueueNothing(groups[1..], responses, pos + 1);
      assert groups[0].ids[..n - n] == [];
      assert groups[0].ids[..n - n] + [] == [];
    }
  }

  /**
   * `main` after the paths are chosen and the files read: descriptions,
   * staging, `query_user`, then preserving and clearing the staged rows.
   * An exception in `query_user` leaves the batch staged.
   */
  method Run<C(==)>(db: Store, transactionData: seq<Option<DataEntry>>, view: seq<ViewRow<C>>,
                    responses: seq<Option<int>>) returns (r: Result<(), Error>)
    requires db.Valid()
    requires forall e :: Some(e) in transactionData ==> Built(e)
    modifies db
    ensures db.Valid()
    ensures var es := Present(transactionData);
      var names := InsertOrIgnore(old(db.descriptions), Names(es));
      var staged := old(db.potential) + Stage(old(db.nextId), names, Rows(es));
      var queued := Cli.QueryDeletes(Runs(view, 0), responses, 0);
      db.descriptions == names &&
      (queued.Err? ==> r == Err(EOFError) && db.potential == staged && db.committed == old(db.committed)) &&
      (queued.Ok? && queued.value != [] ==>
        r == Err(AttributeError) && db.potential == staged && db.committed == old(db.committed)) &&
      (queued == Ok([]) ==> r == Ok(()) && db.potential == [] && db.committed == old(db.committed) + Saves(staged))
  {
    r := db.InsertDescriptions(Some(transactionData));
    db.InsertPotentialTransactions(transactionData);
    ghost var staged := db.potential;
    ghost var committed := db.committed;
    r := QueryUser(view, responses);
    if r.Err? {
      return;
    }
    db.PreservePotential();
    assert db.committed == committed + Saves(staged);
    db.ClearPotential();
  }
}
