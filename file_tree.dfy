/**
 * The directory tree the search walks, and getTxtFiles: a pre-order listing
 * of the regular files whose name ends with ".txt".
 *
 * The file system is a value: a regular file carries its name, its absolute
 * path and what reading it yields; a directory carries its listing, which
 * is Unlistable when listFiles returns null (an unreadable directory);
 * anything that is neither a regular file nor a directory is Other.
 */
module FileTree {
  import opened Text

  /**
   * What a reader gets from a file: the lines readLine delivers, in order,
   * and then either the end of the stream (ioError false) or an IOException
   * (ioError true). A file that cannot be opened is Content([], true).
   */
  datatype Content = Content(lines: seq<string>, ioError: bool)

  datatype FileEntry = FileEntry(name: string, path: string, content: Content)

  /** The result of File.listFiles on a directory: null, or the entries in listing order. */
  datatype Listing = Unlistable | Listed(entries: seq<Node>)

  datatype Node =
    | File(file: FileEntry)
    | Dir(name: string, listing: Listing)
    | Other(name: string)

  const TxtSuffix := ".txt"

  /** File.isFile() && getName().endsWith(".txt"). */
  predicate IsTxtFile(n: Node)
  {
    n.File? && EndsWith(n.file.name, TxtSuffix)
  }

  /** What getTxtFiles(folder) returns; listFiles is null for anything but a listable directory. */
  function TxtFiles(folder: Node): seq<FileEntry>
    decreases folder, 1
  {
    match folder
    case Dir(_, Listed(files)) => TxtFilesAmong(files)
    case _ => []
  }

  /** The for loop of getTxtFiles over one listing, entry by entry. */
  function TxtFilesAmong(files: seq<Node>): seq<FileEntry>
    decreases files, 0
  {
    if files == [] then [] else Visit(files[0]) + TxtFilesAmong(files[1..])
  }

  /** What one listing entry adds: itself if it is a .txt file, its own listing if it is a directory. */
  function Visit(file: Node): seq<FileEntry>
    decreases file, 2
  {
    if IsTxtFile(file) then [file.file]
    else if file.Dir? then TxtFiles(file)
    else []
  }

  /** Reference traversal: every node below `n` reached through listable directories, in pre-order. */
  function Descendants(n: Node): seq<Node>
  {
    match n
    case Dir(_, Listed(children)) => DescendantsAmong(children)
    case _ => []
  }

  function DescendantsAmong(nodes: seq<Node>): seq<Node>
  {
    if nodes == [] then [] else [nodes[0]] + Descendants(nodes[0]) + DescendantsAmong(nodes[1..])
  }

  /** Reference filter: the .txt files among `nodes`, in order. */
  function TxtFilesIn(nodes: seq<Node>): seq<FileEntry>
  {
    if nodes == [] then [] else (if IsTxtFile(nodes[0]) then [nodes[0].file] else []) + TxtFilesIn(nodes[1..])
  }

  lemma {:induction false} TxtFilesInAppend(a: seq<Node>, b: seq<Node>)
    ensures TxtFilesIn(a + b) == TxtFilesIn(a) + TxtFilesIn(b)
  {
    if a != [] {
      assert (a + b)[0] == a[0];
      assert (a + b)[1..] == a[1..] + b;
      TxtFilesInAppend(a[1..], b);
    } else {
      assert a + b == b;
    }
  }

  lemma {:induction false} TxtFilesAmongAppend(a: seq<Node>, b: seq<Node>)
    ensures TxtFilesAmong(a + b) == TxtFilesAmong(a) + TxtFilesAmong(b)
  {
    if a != [] {
      assert (a + b)[0] == a[0];
      assert (a + b)[1..] == a[1..] + b;
      TxtFilesAmongAppend(a[1..], b);
    } else {
      assert a + b == b;
    }
  }

  /** Taking one more listing entry appends what that entry contributes. */
  lemma TxtFilesAmongSnoc(files: seq<Node>, file: Node)
    ensures TxtFilesAmong(files + [file]) == TxtFilesAmong(files) + Visit(file)
  {
    TxtFilesAmongAppend(files, [file]);
    assert TxtFilesAmong([file]) == Visit(file) + TxtFilesAmong([]);
  }

  /**
   * getTxtFiles is the pre-order traversal filtered to .txt files: directories
   * are descended into at their own position among their siblings, and nothing
   * but a .txt regular file is ever returned.
   */
  lemma {:induction false} TxtFilesIsFilteredPreorder(folder: Node)
    ensures TxtFiles(folder) == TxtFilesIn(Descendants(folder))
    decreases folder, 1
  {
    match folder
    case Dir(_, Listed(files)) => TxtFilesAmongIsFilteredPreorder(files);
    case _ =>
  }

  lemma {:induction false} TxtFilesAmongIsFilteredPreorder(files: seq<Node>)
    ensures TxtFilesAmong(files) == TxtFilesIn(DescendantsAmong(files))
    decreases files, 0
  {
    if files != [] {
      var head, tail := files[0], files[1..];
      VisitIsFilteredPreorder(head);
      TxtFilesAmongIsFilteredPreorder(tail);
      TxtFilesInAppend([head] + Descendants(head), DescendantsAmong(tail));
    }
  }

  lemma {:induction false} VisitIsFilteredPreorder(n: Node)
    ensures Visit(n) == TxtFilesIn([n] + Descendants(n))
    decreases n, 2
  {
    TxtFilesInAppend([n], Descendants(n));
    assert TxtFilesIn([n]) == (if IsTxtFile(n) then [n.file] else []) + TxtFilesIn([]);
    if n.Dir? {
      TxtFilesIsFilteredPreorder(n);
    }
  }

  /** An entry of the filter is a .txt file among the nodes, and each such node yields exactly one entry. */
  lemma {:induction false} TxtFilesInCount(nodes: seq<Node>, f: FileEntry)
    ensures multiset(TxtFilesIn(nodes))[f] == if EndsWith(f.name, TxtSuffix) then multiset(nodes)[File(f)] else 0
  {
    if nodes != [] {
      TxtFilesInCount(nodes[1..], f);
      assert nodes == [nodes[0]] + nodes[1..];
      assert multiset(nodes) == multiset{nodes[0]} + multiset(nodes[1..]);
    }
  }

  /**
   * A file is returned by getTxtFiles if and only if it is a regular .txt file
   * reachable through listable directories, and it is returned as many times
   * as it occurs in the tree: once per occurrence.
   */
  lemma TxtFilesCountedPerOccurrence(folder: Node, f: FileEntry)
    ensures multiset(TxtFiles(folder))[f] == if EndsWith(f.name, TxtSuffix) then multiset(Descendants(folder))[File(f)] else 0
    ensures f in TxtFiles(folder) <==> File(f) in Descendants(folder) && EndsWith(f.name, TxtSuffix)
  {
    TxtFilesIsFilteredPreorder(folder);
    TxtFilesInCount(Descendants(folder), f);
  }

  /** An unlistable directory contributes nothing and leaves its siblings' contributions as they are. */
  lemma UnlistableDirContributesNothing(before: seq<Node>, name: string, after: seq<Node>)
    ensures TxtFiles(Dir(name, Unlistable)) == []
    ensures TxtFilesAmong(before + [Dir(name, Unlistable)] + after) == TxtFilesAmong(before) + TxtFilesAmong(after)
  {
    TxtFilesAmongAppend(before + [Dir(name, Unlistable)], after);
    TxtFilesAmongSnoc(before, Dir(name, Unlistable));
  }

  /** A subdirectory's .txt files are spliced in at that directory's position among its siblings. */
  lemma SubdirectorySplicedInPlace(before: seq<Node>, name: string, children: seq<Node>, after: seq<Node>)
    ensures TxtFilesAmong(before + [Dir(name, Listed(children))] + after)
         == TxtFilesAmong(before) + TxtFilesAmong(children) + TxtFilesAmong(after)
  {
    var d := Dir(name, Listed(children));
    TxtFilesAmongAppend(before + [d], after);
    TxtFilesAmongSnoc(before, d);
    assert !IsTxtFile(d);
  }

  /**
   * getTxtFiles: a for loop over the listing that adds each .txt file and
   * splices in the recursive result of each subdirectory.
   */
  method GetTxtFiles(folder: Node) returns (txtFiles: seq<FileEntry>)
    ensures txtFiles == TxtFiles(folder)
    ensures txtFiles == TxtFilesIn(Descendants(folder))
    decreases folder
  {
    txtFiles := [];
    if folder.Dir? && folder.listing.Listed? {
      var files := folder.listing.entries;
      for i := 0 to |files|
        invariant txtFiles == TxtFilesAmong(files[..i])
      {
        var file := files[i];
        if IsTxtFile(file) {
          txtFiles := txtFiles + [file.file];
        } else if file.Dir? {
          var sub := GetTxtFiles(file);
          txtFiles := txtFiles + sub;
        }
        assert files[..i + 1] == files[..i] + [file];
        TxtFilesAmongSnoc(files[..i], file);
      }
      assert files[..|files|] == files;
    }
    TxtFilesIsFilteredPreorder(folder);
  }
}
