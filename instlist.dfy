/** `readInstList`: the lines of the instance-list file, each with every
    line feed and carriage return removed, keeping the lines that are not
    empty afterwards, in file order. Opening the file and splitting it into
    lines are not modelled: the method receives the lines as Python's file
    iteration yields them. */
module InstList {

  /** `s.replace(c, "")` for a one-character `c`: every occurrence removed. */
  function RemoveChar(s: string, c: char): (r: string)
    ensures forall i :: 0 <= i < |r| ==> r[i] != c
    ensures |r| <= |s|
  {
    if s == [] then [] else (if s[0] == c then [] else [s[0]]) + RemoveChar(s[1..], c)
  }

  /** Removing distributes over concatenation, so it keeps the order of
      the characters it keeps. */
  lemma {:induction false} RemoveCharAppend(a: string, b: string, c: char)
    ensures RemoveChar(a + b, c) == RemoveChar(a, c) + RemoveChar(b, c)
  {
    if a == [] {
      assert a + b == b;
    } else {
      assert (a + b)[0] == a[0] && (a + b)[1..] == a[1..] + b;
      RemoveCharAppend(a[1..], b, c);
    }
  }

  /** Every other character keeps its number of occurrences. */
  lemma {:induction false} RemoveCharCounts(s: string, c: char, d: char)
    ensures multiset(RemoveChar(s, c))[d] == if d == c then 0 else multiset(s)[d]
  {
    if s != [] {
      RemoveCharCounts(s[1..], c, d);
      assert s == [s[0]] + s[1..];
    }
  }

  /** A string without `c` is left as it is. */
  lemma {:induction false} RemoveCharAbsent(s: string, c: char)
    requires forall i :: 0 <= i < |s| ==> s[i] != c
    ensures RemoveChar(s, c) == s
  {
    if s != [] {
      RemoveCharAbsent(s[1..], c);
    }
  }

  /** One line of the file with its line feeds, then its carriage returns,
      removed. */
  function Clean(line: string): (r: string)
    ensures forall i :: 0 <= i < |r| ==> r[i] != '\n' && r[i] != '\r'
  {
    var noLf := RemoveChar(line, '\n');
    var r := RemoveChar(noLf, '\r');
    assert forall i :: 0 <= i < |r| ==> r[i] in multiset(noLf) by {
      forall i | 0 <= i < |r| ensures r[i] in multiset(noLf) {
        RemoveCharCounts(noLf, '\r', r[i]);
        assert r[i] in multiset(r);
      }
    }
    r
  }

  /** Cleaning a clean line changes nothing; hence cleaning is idempotent. */
  lemma CleanIdempotent(line: string)
    ensures Clean(Clean(line)) == Clean(line)
  {
    var r := Clean(line);
    RemoveCharAbsent(r, '\n');
    RemoveCharAbsent(r, '\r');
  }

  /** The list `readInstList` builds from the lines read so far. */
  function CleanLines(lines: seq<string>): seq<string>
  {
    if lines == [] then []
    else
      var init := CleanLines(lines[..|lines| - 1]);
      var line := Clean(lines[|lines| - 1]);
      if line != "" then init + [line] else init
  }

  /** Every entry of the list is a non-empty cleaned line. */
  lemma {:induction false} CleanLinesEntries(lines: seq<string>)
    ensures forall k :: 0 <= k < |CleanLines(lines)| ==>
      var e := CleanLines(lines)[k];
      e != "" && forall i :: 0 <= i < |e| ==> e[i] != '\n' && e[i] != '\r'
  {
    if lines != [] {
      CleanLinesEntries(lines[..|lines| - 1]);
    }
  }

  /** The list keeps the lines in file order: there are strictly
      increasing positions `idx` with `r[k] == Clean(lines[idx[k]])`, and a
      line is dropped exactly when it is empty once cleaned. */
  lemma {:induction false} CleanLinesIsOrderedSelection(lines: seq<string>) returns (idx: seq<nat>)
    ensures var r := CleanLines(lines);
      && |idx| == |r|
      && (forall k :: 0 <= k < |idx| ==> idx[k] < |lines| && r[k] == Clean(lines[idx[k]]))
      && (forall k, l :: 0 <= k < l < |idx| ==> idx[k] < idx[l])
      && (forall i :: 0 <= i < |lines| ==> (Clean(lines[i]) != "" <==> i in idx))
  {
    if lines == [] {
      idx := [];
    } else {
      var n := |lines| - 1;
      var init := CleanLinesIsOrderedSelection(lines[..n]);
      var line := Clean(lines[n]);
      var r0 := CleanLines(lines[..n]);
      if line != "" {
        idx := init + [n];
        assert CleanLines(lines) == r0 + [line];
      } else {
        idx := init;
        assert CleanLines(lines) == r0;
      }
      forall i | 0 <= i < |lines| ensures Clean(lines[i]) != "" <==> i in idx {
        if i < n {
          assert lines[..n][i] == lines[i];
        }
      }
    }
  }

  /** `readInstList`: the loop over the lines of the file. */
  method ReadInstList(lines: seq<string>) returns (instList: seq<string>)
    ensures instList == CleanLines(lines)
    ensures forall k :: 0 <= k < |instList| ==> instList[k] != ""
  {
    instList := [];
    var i := 0;
    while i < |lines|
      invariant 0 <= i <= |lines|
      invariant instList == CleanLines(lines[..i])
    {
      assert lines[..i + 1][..i] == lines[..i];
      var line := lines[i];
      line := RemoveChar(line, '\n');
      line := RemoveChar(line, '\r');
      if line != "" {
        instList := instList + [line];
      }
      i := i + 1;
    }
    assert lines[..|lines|] == lines;
    CleanLinesEntries(lines);
  }
}
