/**
 * main, without the thread pool: enumerate the .txt files, run one
 * FileSearchTask per file, and collect the futures in submission order.
 *
 * The pool's futures are modelled as the sequence of their outcomes in
 * submission order. Since the collector awaits them in that fixed order, the
 * printed result depends only on that sequence, never on the order in which
 * the tasks complete.
 */
module FileSearch {
  import opened Wrappers
  import opened Text
  import opened FileTree
  import opened Scan
  import opened Collector

  /** The intended answer: the paths of the files having a line that contains the term, in order. */
  function MatchingPaths(files: seq<FileEntry>, term: string): seq<string>
  {
    if files == [] then []
    else (if HasMatchingLine(files[0].content.lines, term) then [files[0].path] else [])
         + MatchingPaths(files[1..], term)
  }

  /**
   * The futures belong to the tasks submitted for `files`, one each and in
   * the same order; a future that completed normally holds what call()
   * returned. A Failure stands for an exception call() did not catch.
   */
  ghost predicate Resolves(files: seq<FileEntry>, term: string, futures: seq<Outcome>)
  {
    && |futures| == |files|
    && forall i :: 0 <= i < |futures| && futures[i].Success? ==>
         futures[i].value == SearchResult(FileSearchTask(files[i], term))
  }

  /** The files whose task did not fail, in order. */
  function Surviving(files: seq<FileEntry>, futures: seq<Outcome>): seq<FileEntry>
    requires |files| == |futures|
  {
    if files == [] then []
    else (if futures[0].Success? then [files[0]] else []) + Surviving(files[1..], futures[1..])
  }

  /**
   * Failure isolation: the collected result is exactly the matching paths of
   * the files whose task did not fail, in enumeration order; a failed task
   * removes its own file and disturbs no other.
   */
  lemma {:induction false} CollectedIsMatchingSurvivors(files: seq<FileEntry>, term: string, futures: seq<Outcome>)
    requires Resolves(files, term, futures)
    ensures Flatten(futures) == MatchingPaths(Surviving(files, futures), term)
  {
    if files != [] {
      assert Resolves(files[1..], term, futures[1..]) by {
        forall i | 0 <= i < |futures[1..]| && futures[1..][i].Success?
          ensures futures[1..][i].value == SearchResult(FileSearchTask(files[1..][i], term))
        {
          assert futures[1..][i] == futures[i + 1];
        }
      }
      CollectedIsMatchingSurvivors(files[1..], term, futures[1..]);
      var head := if futures[0].Success? then [files[0]] else [];
      MatchingPathsAppend(head, Surviving(files[1..], futures[1..]), term);
    }
  }

  lemma {:induction false} MatchingPathsAppend(a: seq<FileEntry>, b: seq<FileEntry>, term: string)
    ensures MatchingPaths(a + b, term) == MatchingPaths(a, term) + MatchingPaths(b, term)
  {
    if a == [] {
      assert a + b == b;
    } else {
      assert (a + b)[0] == a[0];
      assert (a + b)[1..] == a[1..] + b;
      MatchingPathsAppend(a[1..], b, term);
    }
  }

  /** With no failed task, the result is exactly the matching paths of all files, in order. */
  lemma CollectedIsMatchingFiles(files: seq<FileEntry>, term: string, futures: seq<Outcome>)
    requires Resolves(files, term, futures)
    requires forall i :: 0 <= i < |futures| ==> futures[i].Success?
    ensures Flatten(futures) == MatchingPaths(files, term)
  {
    CollectedIsMatchingSurvivors(files, term, futures);
    SurvivingAll(files, futures);
  }

  lemma {:induction false} SurvivingAll(files: seq<FileEntry>, futures: seq<Outcome>)
    requires |files| == |futures|
    requires forall i :: 0 <= i < |futures| ==> futures[i].Success?
    ensures Surviving(files, futures) == files
  {
    if files != [] {
      assert forall i :: 0 <= i < |futures[1..]| ==> futures[1..][i] == futures[i + 1];
      SurvivingAll(files[1..], futures[1..]);
    }
  }

  /** The result holds at most one path per enumerated file. */
  lemma CollectedAtMostOnePerFile(files: seq<FileEntry>, term: string, futures: seq<Outcome>)
    requires Resolves(files, term, futures)
    ensures |Flatten(futures)| <= |files|
  {
    FlattenLength(futures);
  }

  /** No false positives and no false negatives among the given files. */
  lemma {:induction false} MatchingPathsMembership(files: seq<FileEntry>, term: string, p: string)
    ensures p in MatchingPaths(files, term) <==>
            exists f :: f in files && f.path == p && HasMatchingLine(f.content.lines, term)
  {
    if files != [] {
      MatchingPathsMembership(files[1..], term, p);
      assert files == [files[0]] + files[1..];
    }
  }

  /**
   * The submit loop, with the pool running each task: one call() per
   * enumerated file, in enumeration order. The tasks share no state, so
   * running them one after the other gives each the outcome it would have
   * on the pool when it does not throw.
   */
  method RunTasks(txtFiles: seq<FileEntry>, searchString: string) returns (futures: seq<Outcome>)
    ensures |futures| == |txtFiles|
    ensures forall i :: 0 <= i < |futures| ==>
              futures[i] == Success(SearchResult(FileSearchTask(txtFiles[i], searchString)))
  {
    futures := [];
    for i := 0 to |txtFiles|
      invariant |futures| == i
      invariant forall j :: 0 <= j < i ==>
                  futures[j] == Success(SearchResult(FileSearchTask(txtFiles[j], searchString)))
    {
      var matching, _, _ := Call(FileSearchTask(txtFiles[i], searchString));
      futures := futures + [Success(matching)];
    }
  }

  /**
   * main after its argument checks: None when the folder is not a directory
   * ("Invalid folder path"); otherwise the printed list of paths, which is
   * the matching paths of the enumerated .txt files in enumeration order.
   */
  method SearchFolder(folder: Node, searchString: string) returns (result: Option<seq<string>>)
    ensures result.None? <==> !folder.Dir?
    ensures result.Some? ==> result.value == MatchingPaths(TxtFiles(folder), searchString)
    ensures result.Some? ==> |result.value| <= |TxtFiles(folder)|
  {
    if !folder.Dir? {
      return None;
    }
    var txtFiles := GetTxtFiles(folder);
    var futures := RunTasks(txtFiles, searchString);
    var collected, _ := CollectResults(futures);
    CollectedIsMatchingFiles(txtFiles, searchString, futures);
    CollectedAtMostOnePerFile(txtFiles, searchString, futures);
    return Some(collected);
  }

  /**
   * End to end: a path is reported if and only if it belongs to a regular
   * .txt file reachable through listable directories under the folder and
   * some line of that file, among the lines read before any read error,
   * contains the search string.
   */
  lemma ReportedIffMatchingTxtFile(folder: Node, term: string, p: string)
    ensures p in MatchingPaths(TxtFiles(folder), term) <==>
            exists f :: File(f) in Descendants(folder) && EndsWith(f.name, TxtSuffix)
                        && f.path == p && HasMatchingLine(f.content.lines, term)
  {
    MatchingPathsMembership(TxtFiles(folder), term, p);
    forall f
      ensures f in TxtFiles(folder) <==> File(f) in Descendants(folder) && EndsWith(f.name, TxtSuffix)
    {
      TxtFilesCountedPerOccurrence(folder, f);
    }
  }

  // A root holding a.txt ("hello world"), b.txt ("goodbye") and c/d.txt ("say hello").
  const HelloA := FileEntry("a.txt", "/r/a.txt", Content(["hello world"], false))
  const HelloB := FileEntry("b.txt", "/r/b.txt", Content(["goodbye"], false))
  const HelloD := FileEntry("d.txt", "/r/c/d.txt", Content(["say hello"], false))
  const HelloRoot := Dir("r", Listed([File(HelloA), File(HelloB), Dir("c", Listed([File(HelloD)]))]))

  lemma HelloScenarioEnumeration()
    ensures TxtFiles(HelloRoot) == [HelloA, HelloB, HelloD]
  {
    var c := Dir("c", Listed([File(HelloD)]));
    var entries := [File(HelloA), File(HelloB), c];
    assert IsTxtFile(File(HelloA)) && IsTxtFile(File(HelloB)) && IsTxtFile(File(HelloD));
    assert TxtFilesAmong([File(HelloD)][1..]) == [];
    assert TxtFilesAmong([File(HelloD)]) == [HelloD];
    assert Visit(c) == [HelloD];
    assert entries[1..] == [File(HelloB), c] && entries[1..][1..] == [c] && entries[1..][1..][1..] == [];
    assert TxtFilesAmong([c]) == [HelloD];
    assert TxtFilesAmong([File(HelloB), c]) == [HelloB, HelloD];
    assert TxtFilesAmong(entries) == [HelloA, HelloB, HelloD];
    assert HelloRoot == Dir("r", Listed(entries));
  }

  lemma HelloScenarioMatches()
    ensures MatchingPaths([HelloA, HelloB, HelloD], "hello") == ["/r/a.txt", "/r/c/d.txt"]
  {
    assert "hello world"[..5] == "hello";
    assert HasMatchingLine(HelloA.content.lines, "hello") by {
      assert Contains(HelloA.content.lines[0], "hello");
    }
    assert !Contains("goodbye", "hello") by {
      assert "goodbye"[..5][0] == 'g' && "goodbye"[1..] == "oodbye";
      assert "oodbye"[..5][0] == 'o' && "oodbye"[1..] == "odbye";
      assert "odbye"[0] == 'o' && "odbye"[1..] == "dbye";
    }
    assert !HasMatchingLine(HelloB.content.lines, "hello");
    assert HasMatchingLine(HelloD.content.lines, "hello") by {
      assert "say hello"[1..][1..][1..][1..] == "hello";
      assert Contains(HelloD.content.lines[0], "hello");
    }
    assert [HelloA, HelloB, HelloD][1..] == [HelloB, HelloD] && [HelloB, HelloD][1..] == [HelloD];
    assert MatchingPaths([HelloD], "hello") == ["/r/c/d.txt"];
    assert MatchingPaths([HelloB, HelloD], "hello") == ["/r/c/d.txt"];
  }

  /** Searching that root for "hello" reports a.txt and then c/d.txt, and not b.txt. */
  lemma HelloScenario()
    ensures MatchingPaths(TxtFiles(HelloRoot), "hello") == ["/r/a.txt", "/r/c/d.txt"]
  {
    HelloScenarioEnumeration();
    HelloScenarioMatches();
  }
}
