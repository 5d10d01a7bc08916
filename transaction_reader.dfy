/**
 * The header locator of `SkipAheadDictReader`: bank exports put a varying
 * number of summary lines before the table, so the header is taken to be the
 * first line whose first comma-separated field is not a date and whose
 * successor's first field is one. Whether a field is a date is decided by
 * `dateutil`, which is foreign: it is the parameter `isDate`.
 */
module TransactionReader {
  import opened Wrappers
  import opened PyErrors
  import opened Text

  /** `line.split(",")[0]`: the only part of a line the scan looks at. */
  function FirstField(line: string): string
  {
    Split(line, ',')[0]
  }

  /** Line `i` is not date-shaped and line `i + 1` is. */
  predicate IsHeaderAt(lines: seq<string>, isDate: string -> bool, i: int)
  {
    0 <= i && i + 1 < |lines| &&
    !isDate(FirstField(lines[i])) && isDate(FirstField(lines[i + 1]))
  }

  /** The first header position at or after `k`, or -1. */
  function HeaderIndexFrom(lines: seq<string>, isDate: string -> bool, k: nat): int
    decreases |lines| - k
  {
    if k + 1 >= |lines| then -1
    else if IsHeaderAt(lines, isDate, k) then k
    else HeaderIndexFrom(lines, isDate, k + 1)
  }

  /** The specification of `_get_header_line_index`. */
  function HeaderIndex(lines: seq<string>, isDate: string -> bool): int
  {
    HeaderIndexFrom(lines, isDate, 0)
  }

  lemma {:induction false} HeaderIndexFromCharacterised(lines: seq<string>, isDate: string -> bool, k: nat)
    ensures var r := HeaderIndexFrom(lines, isDate, k);
      (r == -1 <==> forall i :: k <= i ==> !IsHeaderAt(lines, isDate, i)) &&
      (r != -1 ==> k <= r && IsHeaderAt(lines, isDate, r) &&
                   forall j :: k <= j < r ==> !IsHeaderAt(lines, isDate, j))
    decreases |lines| - k
  {
    if k + 1 < |lines| && !IsHeaderAt(lines, isDate, k) {
      HeaderIndexFromCharacterised(lines, isDate, k + 1);
    }
  }

  /**
   * The result is -1 exactly when no line that is not date-shaped is followed
   * by a date-shaped one (so always for fewer than two lines); otherwise it is
   * the smallest such line, which lies in [0, |lines| - 2] and is not date-shaped.
   */
  lemma HeaderIndexCharacterised(lines: seq<string>, isDate: string -> bool)
    ensures var r := HeaderIndex(lines, isDate);
      (r == -1 <==> forall i :: !IsHeaderAt(lines, isDate, i)) &&
      (r != -1 ==> 0 <= r <= |lines| - 2 && !isDate(FirstField(lines[r])) &&
                   isDate(FirstField(lines[r + 1])) &&
                   forall j :: 0 <= j < r ==> !IsHeaderAt(lines, isDate, j))
  {
    HeaderIndexFromCharacterised(lines, isDate, 0);
  }

  /** Any position that is a header and has no header before it is the result. */
  lemma HeaderIndexUnique(lines: seq<string>, isDate: string -> bool, r: int)
    requires IsHeaderAt(lines, isDate, r)
    requires forall j :: 0 <= j < r ==> !IsHeaderAt(lines, isDate, j)
    ensures HeaderIndex(lines, isDate) == r
  {
    HeaderIndexCharacterised(lines, isDate);
    var h := HeaderIndex(lines, isDate);
    assert h != -1;
    assert 0 <= h && IsHeaderAt(lines, isDate, h);
    assert !(h < r);
    assert !(r < h);
  }

  /**
   * `_get_header_line_index` over the lines `readline` returns (each non-empty:
   * `readline` returns "" only at the end of the file).
   */
  method GetHeaderLineIndex(lines: seq<string>, isDate: string -> bool) returns (possibleLine: int)
    requires forall i :: 0 <= i < |lines| ==> lines[i] != ""
    ensures possibleLine == HeaderIndex(lines, isDate)
  {
    var foundHeader := false;
    possibleLine := -1;
    var currentLine := 0;
    while currentLine < |lines| && !foundHeader
      invariant 0 <= currentLine <= |lines|
      invariant !foundHeader ==> forall j :: 0 <= j && j + 1 < currentLine ==> !IsHeaderAt(lines, isDate, j)
      invariant !foundHeader ==>
        possibleLine == (if currentLine > 0 && !isDate(FirstField(lines[currentLine - 1])) then currentLine - 1 else -1)
      invariant foundHeader ==>
        IsHeaderAt(lines, isDate, possibleLine) && forall j :: 0 <= j < possibleLine ==> !IsHeaderAt(lines, isDate, j)
      decreases |lines| - currentLine, if foundHeader then 0 else 1
    {
      var line := lines[currentLine];
      var containsDate := isDate(FirstField(line));
      if possibleLine > -1 {
        if containsDate {
          foundHeader := true;
        } else {
          possibleLine := -1;
        }
      }
      if possibleLine == -1 && !foundHeader {
        if !containsDate {
          possibleLine := currentLine;
        }
      }
      currentLine := currentLine + 1;
    }
    if !foundHeader {
      possibleLine := -1;
      HeaderIndexCharacterised(lines, isDate);
    } else {
      HeaderIndexUnique(lines, isDate, possibleLine);
    }
  }

  /**
   * `__enter__`: a file without a header raises `NoHeaderException`; otherwise
   * exactly `header_line_index` lines are skipped, so the rows handed to the
   * `DictReader` start with the header and continue with a date-shaped line.
   */
  method Enter(lines: seq<string>, isDate: string -> bool) returns (r: Result<seq<string>, Error>)
    requires forall i :: 0 <= i < |lines| ==> lines[i] != ""
    ensures r.Err? <==> forall i :: !IsHeaderAt(lines, isDate, i)
    ensures r.Err? ==> r.error == NoHeader
    ensures r.Ok? ==> var h := HeaderIndex(lines, isDate); 0 <= h <= |lines| && r.value == lines[h..]
    ensures r.Ok? ==> |r.value| >= 2 && !isDate(FirstField(r.value[0])) && isDate(FirstField(r.value[1]))
  {
    var headerLineIndex := GetHeaderLineIndex(lines, isDate);
    HeaderIndexCharacterised(lines, isDate);
    if headerLineIndex < 0 {
      return Err(NoHeader);
    }
    // the open file is a cursor over the lines; `next` consumes one of them
    var file := lines;
    for skipped := 0 to headerLineIndex
      invariant file == lines[skipped..]
    {
      file := file[1..];
    }
    r := Ok(file);
  }

  /** Scanning stops at the first confirmation: lines appended after a found header never change the result. */
  lemma LaterLinesIgnored(lines: seq<string>, more: seq<string>, isDate: string -> bool)
    requires HeaderIndex(lines, isDate) != -1
    ensures HeaderIndex(lines + more, isDate) == HeaderIndex(lines, isDate)
  {
    var r := HeaderIndex(lines, isDate);
    HeaderIndexCharacterised(lines, isDate);
    var all := lines + more;
    assert IsHeaderAt(all, isDate, r) by {
      assert all[r] == lines[r] && all[r + 1] == lines[r + 1];
    }
    forall j | 0 <= j < r
      ensures !IsHeaderAt(all, isDate, j)
    {
      assert all[j] == lines[j] && all[j + 1] == lines[j + 1];
      assert !IsHeaderAt(lines, isDate, j);
    }
    HeaderIndexUnique(all, isDate, r);
  }

  /** Only the first comma-separated field of each line is looked at. */
  lemma OnlyFirstFieldMatters(lines: seq<string>, others: seq<string>, isDate: string -> bool)
    requires |lines| == |others|
    requires forall i :: 0 <= i < |lines| ==> FirstField(lines[i]) == FirstField(others[i])
    ensures HeaderIndex(others, isDate) == HeaderIndex(lines, isDate)
  {
    assert forall i :: IsHeaderAt(lines, isDate, i) <==> IsHeaderAt(others, isDate, i);
    HeaderIndexCharacterised(lines, isDate);
    if HeaderIndex(lines, isDate) == -1 {
      HeaderIndexCharacterised(others, isDate);
    } else {
      HeaderIndexUnique(others, isDate, HeaderIndex(lines, isDate));
    }
  }

  /**
   * A date-shaped line met while there is no candidate does not abort the
   * scan: a leading data line is skipped and the search goes on below it.
   */
  lemma LeadingDateLineSkipped(lines: seq<string>, isDate: string -> bool)
    requires |lines| > 0 && isDate(FirstField(lines[0]))
    ensures var rest := HeaderIndex(lines[1..], isDate);
      HeaderIndex(lines, isDate) == if rest == -1 then -1 else rest + 1
  {
    var tail := lines[1..];
    assert forall i :: IsHeaderAt(tail, isDate, i) <==> IsHeaderAt(lines, isDate, i + 1);
    assert !IsHeaderAt(lines, isDate, 0);
    HeaderIndexCharacterised(tail, isDate);
    HeaderIndexCharacterised(lines, isDate);
    var rest := HeaderIndex(tail, isDate);
    if rest != -1 {
      forall j | 0 <= j < rest + 1
        ensures !IsHeaderAt(lines, isDate, j)
      {
        if j > 0 {
          assert !IsHeaderAt(tail, isDate, j - 1);
        }
      }
      HeaderIndexUnique(lines, isDate, rest + 1);
    } else {
      forall i ensures !IsHeaderAt(lines, isDate, i) {
        if i >= 1 {
          assert !IsHeaderAt(tail, isDate, i - 1);
        }
      }
    }
  }

  /**
   * A file whose first `k` lines are summary text (no date-shaped first
   * field) followed by a dated row has its header at line `k - 1`: ten summary
   * lines and a header put the header at index 10.
   */
  lemma SummaryPreambleSkipped(lines: seq<string>, isDate: string -> bool, k: int)
    requires 1 <= k < |lines|
    requires forall i :: 0 <= i < k ==> !isDate(FirstField(lines[i]))
    requires isDate(FirstField(lines[k]))
    ensures HeaderIndex(lines, isDate) == k - 1
  {
    forall j | 0 <= j < k - 1
      ensures !IsHeaderAt(lines, isDate, j)
    {
      assert !isDate(FirstField(lines[j + 1]));
    }
    HeaderIndexUnique(lines, isDate, k - 1);
  }
}
