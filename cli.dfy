/**
 * The command-line front end: the two duplicate-resolution policies, the
 * `insert` pipeline, the alias commands' lookup branch and the report line
 * formatter. The answers typed at the prompt are a sequence of responses, each
 * already read by `int(val)` (`None` where it raises `ValueError`); running out
 * of responses is the `EOFError` that `input` raises.
 */
module Cli {
  import opened Wrappers
  import opened PyErrors
  import opened Text
  import opened Entry
  import opened Common
  import opened SqlCommands

  /**
   * The ids deleted when `keep[k]` copies of group `k` are kept: the first
   * `|ids| - keep[k]` ids of each group, groups in order.
   */
  function Prefixes<C>(groups: seq<Group<C>>, keep: seq<int>): seq<int>
    requires |keep| == |groups|
    requires forall k :: 0 <= k < |groups| ==> 0 <= keep[k] <= |groups[k].ids|
  {
    if |groups| == 0 then []
    else groups[0].ids[..|groups[0].ids| - keep[0]] + Prefixes(groups[1..], keep[1..])
  }

  // ---------------------------------------------------------------------
  // Automatic policy (`--skip-duplicates`)

  /** What `_keep_duplicates` queues for one group. */
  function AutoPart<C>(g: Group<C>): (r: seq<int>)
    ensures r <= g.ids
    ensures |g.ids| > 0 ==> (r == g.ids <==> g.saved > 0)
    ensures |g.ids| > 0 && g.saved <= 0 ==> |r| == |g.ids| - 1
  {
    var numToKeep := if g.saved > 0 then 0 else 1;
    if 0 <= numToKeep <= |g.ids| then g.ids[..|g.ids| - numToKeep] else []
  }

  function AutoDeletes<C>(groups: seq<Group<C>>): seq<int>
  {
    if |groups| == 0 then [] else AutoPart(groups[0]) + AutoDeletes(groups[1..])
  }

  /** The copies the automatic policy keeps: none of a key already committed, one otherwise. */
  function AutoKeep<C>(groups: seq<Group<C>>): (r: seq<int>)
    ensures |r| == |groups|
    ensures forall k :: 0 <= k < |groups| ==> r[k] == if groups[k].saved > 0 then 0 else 1
  {
    seq(|groups|, k requires 0 <= k < |groups| => if groups[k].saved > 0 then 0 else 1)
  }

  /** The loop of `_keep_duplicates`: the list it hands to `remove_potential`. */
  method KeepDuplicates<C>(groups: seq<Group<C>>) returns (toDeleteList: seq<int>)
    ensures toDeleteList == AutoDeletes(groups)
  {
    toDeleteList := [];
    for i := 0 to |groups|
      invariant toDeleteList + AutoDeletes(groups[i..]) == AutoDeletes(groups)
    {
      var entryCount := |groups[i].ids|;
      var dbCount := groups[i].saved;
      var numToKeep := if dbCount > 0 then 0 else 1;
      assert groups[i..][1..] == groups[i + 1..];
      if 0 <= numToKeep <= entryCount {
        numToKeep := entryCount - numToKeep;
        toDeleteList := toDeleteList + groups[i].ids[..numToKeep];
      }
    }
  }

  /** On non-empty groups the automatic policy keeps no copy of a committed key and one copy otherwise. */
  lemma {:induction false} AutoDeletesArePrefixes<C>(groups: seq<Group<C>>)
    requires forall k :: 0 <= k < |groups| ==> |groups[k].ids| > 0
    ensures AutoDeletes(groups) == Prefixes(groups, AutoKeep(groups))
  {
    if |groups| > 0 {
      AutoDeletesArePrefixes(groups[1..]);
      assert AutoKeep(groups)[1..] == AutoKeep(groups[1..]);
    }
  }

  // ---------------------------------------------------------------------
  // Interactive policy

  /** The answer `0 <= num_to_keep <= entry_count` that ends the prompt loop. */
  predicate Accepts(v: Option<int>, n: int)
  {
    v.Some? && 0 <= v.value <= n
  }

  /** Where the first accepted response at or after `pos` is. */
  function FirstValid(responses: seq<Option<int>>, pos: int, n: int): (r: Option<int>)
    requires 0 <= pos <= |responses|
    ensures r.Some? ==> pos <= r.value < |responses| && Accepts(responses[r.value], n)
    ensures r.Some? ==> forall j :: pos <= j < r.value ==> !Accepts(responses[j], n)
    ensures r.None? ==> forall j :: pos <= j < |responses| ==> !Accepts(responses[j], n)
    decreases |responses| - pos
  {
    if pos == |responses| then None
    else if Accepts(responses[pos], n) then Some(pos)
    else FirstValid(responses, pos + 1, n)
  }

  /** The ids `_query_user` queues for the groups, reading responses from `pos` on. */
  function QueryDeletes<C>(groups: seq<Group<C>>, responses: seq<Option<int>>, pos: int): Result<seq<int>, Error>
    requires 0 <= pos <= |responses|
    decreases |groups|
  {
    if |groups| == 0 then Ok([])
    else
      var n := |groups[0].ids|;
      match FirstValid(responses, pos, n)
      case None => Err(EOFError)
      case Some(j) =>
        match QueryDeletes(groups[1..], responses, j + 1)
        case Err(e) => Err(e)
        case Ok(rest) => Ok(groups[0].ids[..n - responses[j].value] + rest)
  }

  /** The accepted answers, one per group, as far as the responses reach. */
  function Answers<C>(groups: seq<Group<C>>, responses: seq<Option<int>>, pos: int): seq<int>
    requires 0 <= pos <= |responses|
    decreases |groups|
  {
    if |groups| == 0 then []
    else
      match FirstValid(responses, pos, |groups[0].ids|)
      case None => []
      case Some(j) => [responses[j].value] + Answers(groups[1..], responses, j + 1)
  }

  /**
   * The interactive policy either runs out of input (`EOFError`) or queues,
   * for every group in order, the first `entry_count - k` ids where `k` is the
   * answer accepted for that group, one of the responses, in `[0, entry_count]`.
   */
  lemma {:induction false} QueryDeletesArePrefixes<C>(groups: seq<Group<C>>, responses: seq<Option<int>>, pos: int)
    requires 0 <= pos <= |responses|
    ensures QueryDeletes(groups, responses, pos).Err? ==> QueryDeletes(groups, responses, pos).error == EOFError
    ensures QueryDeletes(groups, responses, pos).Ok? ==>
      var a := Answers(groups, responses, pos);
      |a| == |groups| &&
      (forall k :: 0 <= k < |groups| ==> 0 <= a[k] <= |groups[k].ids| && Some(a[k]) in responses[pos..]) &&
      QueryDeletes(groups, responses, pos).value == Prefixes(groups, a)
    decreases |groups|
  {
    if |groups| > 0 {
      var m := FirstValid(responses, pos, |groups[0].ids|);
      if m.Some? {
        var j := m.value;
        QueryDeletesArePrefixes(groups[1..], responses, j + 1);
        if QueryDeletes(groups, responses, pos).Ok? {
          var a := Answers(groups, responses, pos);
          assert a[1..] == Answers(groups[1..], responses, j + 1);
          assert responses[j] == responses[pos..][j - pos];
          forall k | 1 <= k < |groups|
            ensures Some(a[k]) in responses[pos..]
          {
            var i :| 0 <= i < |responses[j + 1..]| && responses[j + 1..][i] == Some(a[1..][k - 1]);
            assert responses[pos..][i + j + 1 - pos] == responses[j + 1..][i];
          }
        }
      }
    }
  }

  /** A non-integer or out-of-range answer changes nothing and the same group is asked again. */
  lemma InvalidAnswerReasks<C>(groups: seq<Group<C>>, responses: seq<Option<int>>, pos: int)
    requires |groups| > 0 && 0 <= pos < |responses|
    requires !Accepts(responses[pos], |groups[0].ids|)
    ensures QueryDeletes(groups, responses, pos) == QueryDeletes(groups, responses, pos + 1)
    ensures Answers(groups, responses, pos) == Answers(groups, responses, pos + 1)
  {
    SameFirstValid(groups, responses, pos, pos + 1);
  }

  /** Both readings of the responses depend on the position only through the first accepted answer. */
  lemma SameFirstValid<C>(groups: seq<Group<C>>, responses: seq<Option<int>>, p: int, q: int)
    requires |groups| > 0 && 0 <= p <= |responses| && 0 <= q <= |responses|
    requires FirstValid(responses, p, |groups[0].ids|) == FirstValid(responses, q, |groups[0].ids|)
    ensures QueryDeletes(groups, responses, p) == QueryDeletes(groups, responses, q)
    ensures Answers(groups, responses, p) == Answers(groups, responses, q)
  {
  }

  /** `prefix` followed by what a later step queues, or that step's exception. */
  function Then(prefix: seq<int>, r: Result<seq<int>, Error>): Result<seq<int>, Error>
  {
    match r
    case Ok(v) => Ok(prefix + v)
    case Err(e) => Err(e)
  }

  lemma ThenEmpty(r: Result<seq<int>, Error>)
    ensures Then([], r) == r
  {
    if r.Ok? {
      assert [] + r.value == r.value;
    }
  }

  lemma ThenThen(a: seq<int>, b: seq<int>, r: Result<seq<int>, Error>)
    ensures Then(a, Then(b, r)) == Then(a + b, r)
  {
    if r.Ok? {
      assert a + (b + r.value) == (a + b) + r.value;
    }
  }

  /** The loops of `_query_user` (and of `query_user`): the list handed to `remove_potential`. */
  method QueryUser<C>(groups: seq<Group<C>>, responses: seq<Option<int>>) returns (r: Result<seq<int>, Error>)
    ensures r == QueryDeletes(groups, responses, 0)
  {
    var toDeleteList: seq<int> := [];
    var pos := 0;
    assert groups[0..] == groups;
    ThenEmpty(QueryDeletes(groups, responses, 0));
    for i := 0 to |groups|
      invariant 0 <= pos <= |responses|
      invariant Then(toDeleteList, QueryDeletes(groups[i..], responses, pos)) == QueryDeletes(groups, responses, 0)
    {
      var entryCount := |groups[i].ids|;
      ghost var start := pos;
      ghost var before := toDeleteList;
      assert groups[i..][1..] == groups[i + 1..];
      assert Then(before, QueryDeletes(groups[i..], responses, start)) == QueryDeletes(groups, responses, 0);
      var isDone := false;
      while !isDone
        invariant start <= pos <= |responses|
        invariant !isDone ==> toDeleteList == before && FirstValid(responses, start, entryCount) == FirstValid(responses, pos, entryCount)
        invariant isDone ==> start < pos && FirstValid(responses, start, entryCount) == Some(pos - 1)
        invariant isDone ==> toDeleteList == before + groups[i].ids[..entryCount - responses[pos - 1].value]
        decreases |responses| - pos, if isDone then 0 else 1
      {
        if pos == |responses| {
          assert QueryDeletes(groups[i..], responses, start) == Err(EOFError);
          return Err(EOFError);
        }
        var val := responses[pos];
        pos := pos + 1;
        var numToKeep := -1;
        if val.Some? {
          numToKeep := val.value;
        }
        if 0 <= numToKeep <= entryCount {
          numToKeep := entryCount - numToKeep;
          toDeleteList := toDeleteList + groups[i].ids[..numToKeep];
          isDone := true;
        }
      }
      var tail := QueryDeletes(groups[i + 1..], responses, pos);
      var part := groups[i].ids[..entryCount - responses[pos - 1].value];
      assert QueryDeletes(groups[i..], responses, start) == Then(part, tail);
      ThenThen(before, part, tail);
    }
    assert groups[|groups|..] == [];
    assert toDeleteList + [] == toDeleteList;
    r := Ok(toDeleteList);
  }

  // ---------------------------------------------------------------------
  // What either policy deletes

  lemma DistinctParts(a: seq<int>, b: seq<int>)
    requires Distinct(a + b)
    ensures Distinct(a) && Distinct(b)
    ensures forall x :: x in a ==> x !in b
  {
    forall i, j | 0 <= i < j < |a|
      ensures a[i] != a[j]
    {
      assert (a + b)[i] == a[i] && (a + b)[j] == a[j];
    }
    forall i, j | 0 <= i < j < |b|
      ensures b[i] != b[j]
    {
      assert (a + b)[|a| + i] == b[i] && (a + b)[|a| + j] == b[j];
    }
    forall x | x in a
      ensures x !in b
    {
      var i :| 0 <= i < |a| && a[i] == x;
      forall j | 0 <= j < |b|
        ensures b[j] != x
      {
        assert (a + b)[i] == a[i] && (a + b)[|a| + j] == b[j];
      }
    }
  }

  lemma {:induction false} InFlatten<C>(groups: seq<Group<C>>, k: int, x: int)
    requires 0 <= k < |groups| && x in groups[k].ids
    ensures x in Flatten(groups)
  {
    if k > 0 {
      InFlatten(groups[1..], k - 1, x);
    }
  }

  /** Only ids of the groups are ever queued. */
  lemma {:induction false} PrefixesWithin<C>(groups: seq<Group<C>>, keep: seq<int>)
    requires |keep| == |groups|
    requires forall k :: 0 <= k < |groups| ==> 0 <= keep[k] <= |groups[k].ids|
    ensures forall x :: x in Prefixes(groups, keep) ==> x in Flatten(groups)
  {
    if |groups| > 0 {
      PrefixesWithin(groups[1..], keep[1..]);
      var p0 := groups[0].ids[..|groups[0].ids| - keep[0]];
      assert forall x :: x in p0 ==> x in groups[0].ids;
    }
  }

  /** A group that keeps no copy has every id queued. */
  lemma {:induction false} PrefixesTakeAll<C>(groups: seq<Group<C>>, keep: seq<int>, k: int)
    requires |keep| == |groups|
    requires forall k :: 0 <= k < |groups| ==> 0 <= keep[k] <= |groups[k].ids|
    requires 0 <= k < |groups| && keep[k] == 0
    ensures forall x :: x in groups[k].ids ==> x in Prefixes(groups, keep)
  {
    if k == 0 {
      assert groups[0].ids[..|groups[0].ids|] == groups[0].ids;
    } else {
      PrefixesTakeAll(groups[1..], keep[1..], k - 1);
    }
  }

  /** With unique ids, a group that keeps at least one copy keeps its last id. */
  lemma {:induction false} PrefixesKeepLast<C>(groups: seq<Group<C>>, keep: seq<int>, k: int)
    requires |keep| == |groups|
    requires forall k :: 0 <= k < |groups| ==> 0 <= keep[k] <= |groups[k].ids|
    requires Distinct(Flatten(groups))
    requires 0 <= k < |groups| && keep[k] > 0
    ensures groups[k].ids[|groups[k].ids| - 1] !in Prefixes(groups, keep)
  {
    var ids0 := groups[0].ids;
    var p0 := ids0[..|ids0| - keep[0]];
    var rest := Prefixes(groups[1..], keep[1..]);
    assert Prefixes(groups, keep) == p0 + rest;
    DistinctParts(ids0, Flatten(groups[1..]));
    PrefixesWithin(groups[1..], keep[1..]);
    var last := groups[k].ids[|groups[k].ids| - 1];
    if k == 0 {
      assert last in ids0;
      assert last !in rest;
      forall i | 0 <= i < |p0|
        ensures p0[i] != last
      {
        assert p0[i] == ids0[i];
      }
    } else {
      PrefixesKeepLast(groups[1..], keep[1..], k - 1);
      InFlatten(groups[1..], k - 1, last);
      assert last !in ids0;
      assert forall x :: x in p0 ==> x in ids0;
    }
  }

  /**
   * Over the view's rows, with staged ids unique, the automatic policy queues
   * only staged ids, every copy of a key already committed, and never the
   * last copy of a key not yet committed, which is therefore kept.
   */
  lemma AutomaticKeepsOneCopy<C>(rows: seq<ViewRow<C>>)
    requires Distinct(Ids(rows))
    ensures var groups := Runs(rows, 0);
      var dels := AutoDeletes(groups);
      (forall x :: x in dels ==> x in Ids(rows)) &&
      (forall k :: 0 <= k < |groups| ==> |groups[k].ids| > 0) &&
      (forall k :: 0 <= k < |groups| && groups[k].saved <= 0 ==> groups[k].ids[|groups[k].ids| - 1] !in dels) &&
      (forall k, x :: 0 <= k < |groups| && groups[k].saved > 0 && x in groups[k].ids ==> x in dels)
  {
    var groups := Runs(rows, 0);
    RunsShape(rows, 0);
    RunsKeepEveryId(rows, 0);
    assert rows[0..] == rows;
    AutoDeletesArePrefixes(groups);
    var keep := AutoKeep(groups);
    PrefixesWithin(groups, keep);
    forall k | 0 <= k < |groups| && groups[k].saved <= 0
      ensures groups[k].ids[|groups[k].ids| - 1] !in AutoDeletes(groups)
    {
      PrefixesKeepLast(groups, keep, k);
    }
    forall k | 0 <= k < |groups| && groups[k].saved > 0
      ensures forall x :: x in groups[k].ids ==> x in AutoDeletes(groups)
    {
      PrefixesTakeAll(groups, keep, k);
    }
  }

  // ---------------------------------------------------------------------
  // `remove_potential` handed staged ids

  /**
   * `remove_potential(db, to_delete_list)` with a list of ints: `to_tuple`
   * reads `entry.date` from the first id and raises `AttributeError`; an
   * empty list runs no statement at all.
   */
  function RemoveWithIds(ids: seq<int>): (r: Result<(), Error>)
    ensures r.Ok? <==> ids == []
  {
    if |ids| == 0 then Ok(()) else Err(AttributeError)
  }

  /** Two new copies of a key not yet committed: the automatic policy queues one, and removal raises. */
  lemma AutomaticPolicyRaises<C>(g: Group<C>)
    requires |g.ids| >= 2 && g.saved == 0
    ensures AutoDeletes([g]) == g.ids[..|g.ids| - 1]
    ensures RemoveWithIds(AutoDeletes([g])) == Err(AttributeError)
  {
    var none: seq<Group<C>> := [];
    assert [g][1..] == none;
    assert AutoDeletes([g]) == AutoPart(g) + AutoDeletes(none);
  }

  // ---------------------------------------------------------------------
  // `insert`

  /**
   * `insert` as written: descriptions, staging, resolution (automatic or
   * interactive), then `remove_potential` with the queued ids, then preserve
   * and clear. A non-empty queue raises `AttributeError` before anything is
   * preserved, leaving the batch staged.
   */
  method InsertAsWritten<C(==)>(db: Store, transactionData: Option<seq<Option<DataEntry>>>, skipDuplicates: bool,
                            view: seq<ViewRow<C>>, responses: seq<Option<int>>) returns (r: Result<(), Error>)
    requires db.Valid()
    requires transactionData.Some? ==> forall e :: Some(e) in transactionData.value ==> Built(e)
    modifies db
    ensures db.Valid()
    ensures transactionData.None? ==> r == Err(TypeError) && unchanged(db)
    ensures transactionData.Some? ==>
      var es := Present(transactionData.value);
      var names := InsertOrIgnore(old(db.descriptions), Names(es));
      var staged := old(db.potential) + Stage(old(db.nextId), names, Rows(es));
      var groups := Runs(view, 0);
      var queued := if skipDuplicates then Ok(AutoDeletes(groups)) else QueryDeletes(groups, responses, 0);
      db.descriptions == names &&
      (queued.Err? ==> r == Err(queued.error) && db.potential == staged && db.committed == old(db.committed)) &&
      (queued.Ok? && queued.value != [] ==> r == Err(AttributeError) && db.potential == staged && db.committed == old(db.committed)) &&
      (queued == Ok([]) ==> r == Ok(()) && db.potential == [] && db.committed == old(db.committed) + Saves(staged))
  {
    r := db.InsertDescriptions(transactionData);
    if r.Err? {
      return;
    }
    db.InsertPotentialTransactions(transactionData.value);
    var groups := GetDuplicateGroups(view);
    var toDeleteList: seq<int>;
    if skipDuplicates {
      toDeleteList := KeepDuplicates(groups);
    } else {
      var queued := QueryUser(groups, responses);
      if queued.Err? {
        return Err(queued.error);
      }
      toDeleteList := queued.value;
    }
    r := RemoveWithIds(toDeleteList);
    if r.Err? {
      return;
    }
    db.PreservePotential();
    db.ClearPotential();
  }

  /**
   * `insert` with the queued staged ids deleted by id, as the policies
   * intend: whatever is committed is exactly the staged batch minus the
   * queued ids, and staging ends empty.
   */
  method Insert<C(==)>(db: Store, transactionData: Option<seq<Option<DataEntry>>>, skipDuplicates: bool,
                   view: seq<ViewRow<C>>, responses: seq<Option<int>>) returns (r: Result<(), Error>)
    requires db.Valid()
    requires transactionData.Some? ==> forall e :: Some(e) in transactionData.value ==> Built(e)
    modifies db
    ensures db.Valid()
    ensures transactionData.None? ==> r == Err(TypeError) && unchanged(db)
    ensures transactionData.Some? ==>
      var es := Present(transactionData.value);
      var names := InsertOrIgnore(old(db.descriptions), Names(es));
      var staged := old(db.potential) + Stage(old(db.nextId), names, Rows(es));
      var groups := Runs(view, 0);
      var queued := if skipDuplicates then Ok(AutoDeletes(groups)) else QueryDeletes(groups, responses, 0);
      db.descriptions == names &&
      (queued.Err? ==> r == Err(queued.error) && db.potential == staged && db.committed == old(db.committed)) &&
      (queued.Ok? ==> r == Ok(()) && db.potential == []) &&
      (queued.Ok? ==> db.committed == old(db.committed) + Saves(DeleteIds(staged, queued.value)))
  {
    r := db.InsertDescriptions(transactionData);
    if r.Err? {
      return;
    }
    db.InsertPotentialTransactions(transactionData.value);
    var groups := GetDuplicateGroups(view);
    var toDeleteList: seq<int>;
    if skipDuplicates {
      toDeleteList := KeepDuplicates(groups);
    } else {
      var queued := QueryUser(groups, responses);
      if queued.Err? {
        return Err(queued.error);
      }
      toDeleteList := queued.value;
    }
    db.RemovePotentialIds(toDeleteList);
    db.PreservePotential();
    db.ClearPotential();
  }

  // ---------------------------------------------------------------------
  // `alias create` / `alias replace`

  /** Python truthiness of a string. */
  predicate Truthy(s: string)
  {
    |s| > 0
  }

  /** The test `"%" or "_" in description`, which parses as `"%" or ("_" in description)`. */
  predicate UsesLike(description: string)
  {
    Truthy("%") || '_' in description
  }

  /** The evidently intended test: the description holds a `LIKE` wildcard. */
  predicate UsesLikeIntended(description: string)
  {
    '%' in description || '_' in description
  }

  /** The test as written takes the `LIKE` branch for every description, wildcard or not. */
  lemma UsesLikeAlways(description: string)
    ensures UsesLike(description)
    ensures !UsesLikeIntended("Grocery") && UsesLike("Grocery")
  {
    assert "%"[0] == '%';
  }

  /** The description ids an alias command collects: every `LIKE` hit, or the exact match if any. */
  function AliasTargets(like: bool, likeIds: seq<int>, exactId: Option<int>): seq<int>
  {
    if like then likeIds else if exactId.Some? then [exactId.value] else []
  }

  /** With the intended test, a description without wildcards is looked up exactly, so at most one description gets the alias. */
  lemma PlainDescriptionExact(description: string, likeIds: seq<int>, exactId: Option<int>)
    requires '%' !in description && '_' !in description
    ensures |AliasTargets(UsesLikeIntended(description), likeIds, exactId)| <= 1
    ensures AliasTargets(UsesLikeIntended(description), likeIds, exactId) == (if exactId.Some? then [exactId.value] else [])
  {
  }

  datatype AliasAction = InsertAlias(ids: seq<int>, name: string) | ReplaceAlias(ids: seq<int>, name: string) | NoAlias

  /** The id-collecting loop shared by `create` and `replace`, over the `LIKE` rows or the exact row. */
  method CollectIds(description: string, likeIds: seq<int>, exactId: Option<int>) returns (ids: seq<int>)
    ensures ids == AliasTargets(UsesLike(description), likeIds, exactId)
    ensures ids == likeIds
  {
    UsesLikeAlways(description);
    ids := [];
    if UsesLike(description) {
      for i := 0 to |likeIds|
        invariant ids == likeIds[..i]
      {
        ids := ids + [likeIds[i]];
      }
    } else {
      match exactId {
        case Some(id) => ids := ids + [id];
        case None =>
      }
    }
  }

  /** `alias create`: an alias is inserted for the collected ids exactly when there is at least one. */
  method Create(description: string, name: string, likeIds: seq<int>, exactId: Option<int>) returns (action: AliasAction)
    ensures |likeIds| > 0 ==> action == InsertAlias(likeIds, name)
    ensures |likeIds| == 0 ==> action == NoAlias
  {
    var ids := CollectIds(description, likeIds, exactId);
    action := if |ids| > 0 then InsertAlias(ids, name) else NoAlias;
  }

  /** `alias replace`: the alias is replaced for the collected ids exactly when there is at least one. */
  method Replace(description: string, name: string, likeIds: seq<int>, exactId: Option<int>) returns (action: AliasAction)
    ensures |likeIds| > 0 ==> action == ReplaceAlias(likeIds, name)
    ensures |likeIds| == 0 ==> action == NoAlias
  {
    var ids := CollectIds(description, likeIds, exactId);
    action := if |ids| > 0 then ReplaceAlias(ids, name) else NoAlias;
  }

  // ---------------------------------------------------------------------
  // `report`

  /** The report's `format`: the fields joined by commas, then a newline. */
  function ReportLine(data: seq<string>): (r: string)
    ensures |r| > 0 && r[|r| - 1] == '\n'
  {
    Join(data, ',') + "\n"
  }

  /** When no field holds a comma, the line minus its newline splits back into the fields. */
  lemma ReportLineFields(data: seq<string>)
    requires |data| >= 1
    requires forall i :: 0 <= i < |data| ==> ',' !in data[i]
    ensures var line := ReportLine(data);
      Split(line[..|line| - 1], ',') == data
  {
    var line := ReportLine(data);
    assert line[..|line| - 1] == Join(data, ',');
    SplitJoin(data, ',');
  }
}
