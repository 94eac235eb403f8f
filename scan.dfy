/**
 * FileSearchTask.call: read a file line by line and stop at the first line
 * that contains the search string. The task's answer is an empty list, or
 * the one-element list holding the file's absolute path.
 */
module Scan {
  import opened Text
  import opened FileTree

  /** What one readLine call yields: a line, null at the end of the stream, or an IOException. */
  datatype ReadResult = Line(line: string) | EndOfStream | ReadFailure

  /** A reader over one file's content; `position` counts the lines handed out so far. */
  class LineReader {
    const source: Content
    var position: nat

    ghost predicate Valid()
      reads this
    {
      position <= |source.lines|
    }

    constructor (source: Content)
      ensures Valid() && this.source == source && position == 0
    {
      this.source := source;
      position := 0;
    }

    /** The next line; at the end, null or the IOException, again on every later call. */
    method ReadLine() returns (r: ReadResult)
      requires Valid()
      modifies this
      ensures Valid()
      ensures old(position) < |source.lines| ==> r == Line(source.lines[old(position)]) && position == old(position) + 1
      ensures old(position) == |source.lines| ==> position == old(position) && r == if source.ioError then ReadFailure else EndOfStream
    {
      if position < |source.lines| {
        r := Line(source.lines[position]);
        position := position + 1;
      } else if source.ioError {
        r := ReadFailure;
      } else {
        r := EndOfStream;
      }
    }
  }

  datatype FileSearchTask = FileSearchTask(file: FileEntry, searchString: string)

  /** Some line of the file contains the term. */
  predicate HasMatchingLine(lines: seq<string>, term: string)
  {
    exists j :: 0 <= j < |lines| && Contains(lines[j], term)
  }

  /** The index of the first line containing the term, or the number of lines when none does. */
  function FirstMatch(lines: seq<string>, term: string): (k: nat)
    ensures k <= |lines|
    ensures forall j :: 0 <= j < k ==> !Contains(lines[j], term)
    ensures k < |lines| ==> Contains(lines[k], term)
  {
    if lines == [] then 0
    else if Contains(lines[0], term) then 0
    else 1 + FirstMatch(lines[1..], term)
  }

  /** The list call() returns for a task. */
  function SearchResult(task: FileSearchTask): (r: seq<string>)
    ensures |r| <= 1
    ensures r != [] <==> HasMatchingLine(task.file.content.lines, task.searchString)
    ensures r != [] ==> r == [task.file.path]
  {
    var lines := task.file.content.lines;
    if FirstMatch(lines, task.searchString) < |lines| then [task.file.path] else []
  }

  /**
   * call(): the while loop over readLine, leaving at the first match, at the
   * end of the stream, or at an IOException (caught, so the task still
   * returns normally). `linesRead` counts the lines consumed; `readError`
   * says whether the IOException was caught, which is when the source
   * writes its "Error reading file" diagnostic.
   */
  method Call(task: FileSearchTask) returns (matchingFiles: seq<string>, linesRead: nat, readError: bool)
    ensures matchingFiles == SearchResult(task)
    ensures |matchingFiles| <= 1
    ensures matchingFiles != [] <==> HasMatchingLine(task.file.content.lines, task.searchString)
    ensures matchingFiles != [] ==> matchingFiles == [task.file.path]
    ensures linesRead == if HasMatchingLine(task.file.content.lines, task.searchString)
                         then FirstMatch(task.file.content.lines, task.searchString) + 1
                         else |task.file.content.lines|
    ensures readError <==> !HasMatchingLine(task.file.content.lines, task.searchString) && task.file.content.ioError
  {
    var lines, term := task.file.content.lines, task.searchString;
    matchingFiles := [];
    readError := false;
    var reader := new LineReader(task.file.content);
    while true
      invariant reader.Valid() && reader.source == task.file.content
      invariant matchingFiles == [] && !readError
      invariant forall j :: 0 <= j < reader.position ==> !Contains(lines[j], term)
      decreases |lines| - reader.position
    {
      var r := reader.ReadLine();
      match r
      case EndOfStream =>
        break;
      case ReadFailure =>
        readError := true;
        break;
      case Line(line) =>
        if Contains(line, term) {
          matchingFiles := matchingFiles + [task.file.path];
          break;
        }
    }
    linesRead := reader.position;
  }

  /** A file without lines never matches, whatever the term, the empty term included. */
  lemma NoLinesNoMatch(task: FileSearchTask)
    requires task.file.content.lines == []
    ensures SearchResult(task) == []
  {
  }

  /** With the empty term, exactly the files that have at least one line match. */
  lemma {:induction false} EmptyTermMatchesNonEmptyFiles(task: FileSearchTask)
    requires task.searchString == ""
    ensures SearchResult(task) != [] <==> task.file.content.lines != []
  {
    var lines := task.file.content.lines;
    if lines != [] {
      EmptyTermAlwaysContained(lines[0]);
    }
  }

  /**
   * A read error at the end of the readable lines never changes the task's
   * answer. SearchResult never looks at `ioError`, so this holds by
   * construction; what makes it a fact about call() is Call's postcondition
   * `matchingFiles == SearchResult(task)`, proved over the loop that does
   * meet the IOException.
   */
  lemma ReadErrorDoesNotChangeAnswer(file: FileEntry, term: string)
    ensures SearchResult(FileSearchTask(file.(content := file.content.(ioError := true)), term))
         == SearchResult(FileSearchTask(file.(content := file.content.(ioError := false)), term))
  {
  }
}
