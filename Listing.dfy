/** get_dir_file: the post filenames of one directory, filtered and sorted with cmp_items. */
module Listing {
  import opened Wrappers
  import opened Text
  import opened NameOrder

  /** One triple of os.walk, without the subfolder names (they are only logged). */
  datatype WalkEntry = WalkEntry(folder: string, filenames: seq<string>)

  /** The generated index page; never listed as a post. */
  const IndexName: string := "README.md"

  /** A folder whose name is longer than two characters and starts with '.'. Since the
      walk starts at ".", every subfolder ("./x") is skipped; "." itself is not. */
  predicate Skipped(folder: string)
  {
    |folder| > 2 && folder[0] == '.'
  }

  /** The names of one folder that are kept, in walk order. */
  function Kept(names: seq<string>): seq<string>
  {
    if names == [] then []
    else Kept(names[..|names| - 1]) +
         (if names[|names| - 1] != IndexName then [names[|names| - 1]] else [])
  }

  /** The names get_dir_file collects before sorting, in walk order. */
  function Eligible(walk: seq<WalkEntry>): seq<string>
  {
    if walk == [] then []
    else
      var last := walk[|walk| - 1];
      Eligible(walk[..|walk| - 1]) + (if Skipped(last.folder) then [] else Kept(last.filenames))
  }

  lemma {:induction false} KeptMembers(names: seq<string>, x: string)
    ensures x in Kept(names) <==> x in names && x != IndexName
  {
    if names != [] {
      KeptMembers(names[..|names| - 1], x);
      assert names == names[..|names| - 1] + [names[|names| - 1]];
    }
  }

  /** Folder entry e is walked and holds the name x. */
  predicate Holds(e: WalkEntry, x: string)
  {
    !Skipped(e.folder) && x in e.filenames
  }

  /** A name is collected iff it is not README.md and some folder that is not skipped
      holds it. */
  lemma {:induction false} EligibleMembers(walk: seq<WalkEntry>, x: string)
    ensures x in Eligible(walk) <==>
      x != IndexName && exists i :: 0 <= i < |walk| && Holds(walk[i], x)
  {
    if walk != [] {
      var n := |walk| - 1;
      var front := walk[..n];
      EligibleMembers(front, x);
      KeptMembers(walk[n].filenames, x);
      assert Eligible(walk) == Eligible(front) + (if Skipped(walk[n].folder) then [] else Kept(walk[n].filenames));
      assert x in Eligible(walk) <==> x in Eligible(front) || (x != IndexName && Holds(walk[n], x));
      HoldsInFrontOrLast(walk, front, x);
    }
  }

  lemma HoldsInFrontOrLast(walk: seq<WalkEntry>, front: seq<WalkEntry>, x: string)
    requires walk != [] && front == walk[..|walk| - 1]
    ensures (exists i :: 0 <= i < |walk| && Holds(walk[i], x)) <==>
      (exists i :: 0 <= i < |front| && Holds(front[i], x)) || Holds(walk[|walk| - 1], x)
  {
    if exists i :: 0 <= i < |walk| && Holds(walk[i], x) {
      var i :| 0 <= i < |walk| && Holds(walk[i], x);
      if i < |walk| - 1 { assert front[i] == walk[i]; }
    }
    if exists i :: 0 <= i < |walk| - 1 && Holds(front[i], x) {
      var i :| 0 <= i < |walk| - 1 && Holds(front[i], x);
      assert walk[i] == front[i];
    }
  }

  /** No two listed names are tied, so sorted() never meets a None from cmp_items. */
  predicate AllComparable(names: seq<string>)
  {
    forall i, j :: 0 <= i < |names| && 0 <= j < |names| && i != j ==> Compare(names[i], names[j]).Some?
  }

  /** Strictly increasing under cmp_items. */
  predicate Sorted(names: seq<string>)
  {
    forall i, j :: 0 <= i < j < |names| ==> Before(names[i], names[j])
  }

  /** Inserts x before the first name it sorts before. */
  function Insert(x: string, names: seq<string>): (r: seq<string>)
    ensures multiset(r) == multiset(names) + multiset{x}
  {
    if names == [] then [x]
    else if Before(x, names[0]) then [x] + names
    else
      assert names == [names[0]] + names[1..];
      [names[0]] + Insert(x, names[1..])
  }

  function SortNames(names: seq<string>): (r: seq<string>)
    ensures multiset(r) == multiset(names)
  {
    if names == [] then []
    else
      assert names == [names[0]] + names[1..];
      Insert(names[0], SortNames(names[1..]))
  }

  lemma {:induction false} InsertSorted(x: string, names: seq<string>)
    requires Sorted(names)
    requires forall y :: y in names ==> Compare(x, y).Some?
    ensures Sorted(Insert(x, names))
  {
    if names != [] {
      if Before(x, names[0]) {
        forall j | 0 < j < |names| ensures Before(x, names[j]) {
          BeforeTransitive(x, names[0], names[j]);
        }
      } else {
        CompareAntisymmetric(x, names[0]);
        assert Before(names[0], x);
        InsertSorted(x, names[1..]);
        var rest := Insert(x, names[1..]);
        forall y | y in rest ensures Before(names[0], y) {
          assert y in multiset(rest);
          assert y == x || y in names[1..];
        }
      }
    }
  }

  lemma {:induction false} SortNamesSorted(names: seq<string>)
    requires AllComparable(names)
    ensures Sorted(SortNames(names))
  {
    if names != [] {
      var tail := names[1..];
      assert AllComparable(tail) by {
        forall i, j | 0 <= i < |tail| && 0 <= j < |tail| && i != j
          ensures Compare(tail[i], tail[j]).Some?
        {
          assert tail[i] == names[i + 1] && tail[j] == names[j + 1];
        }
      }
      SortNamesSorted(tail);
      forall y | y in SortNames(tail) ensures Compare(names[0], y).Some? {
        assert y in multiset(SortNames(tail));
        var j :| 0 <= j < |tail| && tail[j] == y;
        assert names[j + 1] == y;
      }
      InsertSorted(names[0], SortNames(tail));
    }
  }

  lemma SortedTail(a: seq<string>)
    requires Sorted(a) && a != []
    ensures Sorted(a[1..])
  {
    forall i, j | 0 <= i < j < |a| - 1 ensures Before(a[1..][i], a[1..][j]) {
      assert a[1..][i] == a[i + 1] && a[1..][j] == a[j + 1];
    }
  }

  /** A sorted permutation is unique, so Python's sort, whatever its algorithm,
      returns the same list as SortNames. */
  lemma {:induction false} SortedUnique(a: seq<string>, b: seq<string>)
    requires Sorted(a) && Sorted(b) && multiset(a) == multiset(b)
    ensures a == b
  {
    if a != [] {
      assert b != [] by { assert a[0] in multiset(b); }
      assert a[0] == b[0] by {
        assert a[0] in multiset(b) && b[0] in multiset(a);
        if a[0] != b[0] {
          var i :| 0 <= i < |a| && a[i] == b[0];
          var j :| 0 <= j < |b| && b[j] == a[0];
          assert Before(a[0], b[0]);
          assert Before(b[0], a[0]);
          CompareAntisymmetric(a[0], b[0]);
          assert false;
        }
      }
      assert multiset(a[1..]) == multiset(b[1..]) by {
        assert a == [a[0]] + a[1..] && b == [b[0]] + b[1..];
        assert multiset(a) == multiset{a[0]} + multiset(a[1..]);
        assert multiset(b) == multiset{b[0]} + multiset(b[1..]);
        assert multiset(a[1..]) == multiset(a) - multiset{a[0]};
        assert multiset(b[1..]) == multiset(b) - multiset{b[0]};
      }
      SortedTail(a);
      SortedTail(b);
      SortedUnique(a[1..], b[1..]);
      assert a == [a[0]] + a[1..] && b == [b[0]] + b[1..];
    }
  }

  /** get_dir_file's result: the collected names sorted with cmp_items, or the
      TypeError sorted() raises when two of them are tied. A comparison sort compares
      every pair it leaves adjacent, and tied names are indistinguishable to every
      other name, so a tied pair always ends up compared. */
  function ListFiles(walk: seq<WalkEntry>): Result<seq<string>>
  {
    var names := Eligible(walk);
    if AllComparable(names) then Ok(SortNames(names)) else Err(Incomparable)
  }

  /** What the listing promises: it fails exactly when two collected names are tied;
      otherwise it holds each collected name once, never README.md nor a name from a
      skipped folder, in strictly increasing cmp_items order. */
  lemma ListFilesCorrect(walk: seq<WalkEntry>)
    ensures ListFiles(walk).Ok? <==> AllComparable(Eligible(walk))
    ensures ListFiles(walk).Ok? ==>
      var files := ListFiles(walk).value;
      && Sorted(files)
      && multiset(files) == multiset(Eligible(walk))
      && IndexName !in files
      && forall x :: x in files <==>
           x != IndexName && exists i :: 0 <= i < |walk| && Holds(walk[i], x)
  {
    if AllComparable(Eligible(walk)) {
      var files := SortNames(Eligible(walk));
      SortNamesSorted(Eligible(walk));
      forall x ensures x in files <==> x in Eligible(walk) {
        assert x in files <==> x in multiset(files);
      }
      forall x ensures x in Eligible(walk) <==>
        x != IndexName && exists i :: 0 <= i < |walk| && Holds(walk[i], x)
      {
        EligibleMembers(walk, x);
      }
    }
  }

  /** A successful listing has no repeated name. */
  lemma ListedNamesDistinct(files: seq<string>)
    requires Sorted(files)
    ensures forall i, j :: 0 <= i < j < |files| ==> files[i] != files[j]
  {
    forall i, j | 0 <= i < j < |files| ensures files[i] != files[j] {
      CompareSelfUndefined(files[i]);
    }
  }

  /** get_dir_file over the walk output: the nested loops collect the names, then
      sorted() orders them. */
  method GetDirFile(walk: seq<WalkEntry>) returns (r: Result<seq<string>>)
    ensures r == ListFiles(walk)
  {
    var files: seq<string> := [];
    var i := 0;
    while i < |walk|
      invariant 0 <= i <= |walk|
      invariant files == Eligible(walk[..i])
    {
      var entry := walk[i];
      assert walk[..i + 1][..i] == walk[..i];
      if !(|entry.folder| > 2 && entry.folder[0] == '.') {
        var j := 0;
        while j < |entry.filenames|
          invariant 0 <= j <= |entry.filenames|
          invariant files == Eligible(walk[..i]) + Kept(entry.filenames[..j])
        {
          var filename := entry.filenames[j];
          assert entry.filenames[..j + 1][..j] == entry.filenames[..j];
          if filename != IndexName {
            files := files + [filename];
          }
          j := j + 1;
        }
        assert entry.filenames[..j] == entry.filenames;
      }
      i := i + 1;
    }
    assert walk[..i] == walk;
    if AllComparable(files) {
      r := Ok(SortNames(files));
    } else {
      r := Err(Incomparable);
    }
  }
}
