/** The files the script touches, as a map from path to content. Paths are taken as
    written (relative to the directory being processed); there is no normalisation. */
module Store {
  import opened Wrappers
  import opened Images

  type Files = map<string, string>

  /** os.rename(src, dst): fails when src does not exist; otherwise dst gets src's
      content (replacing any file already there) and src is gone. */
  function Renamed(fs: Files, src: string, dst: string): (r: Result<Files>)
    ensures r.Err? <==> src !in fs
    ensures r.Err? ==> r.error == FileMissing(src)
    ensures r.Ok? ==> dst in r.value && r.value[dst] == fs[src]
    ensures r.Ok? && src != dst ==> src !in r.value
    ensures r.Ok? ==> forall p :: p != src && p != dst ==>
              (p in r.value <==> p in fs) && (p in fs ==> r.value[p] == fs[p])
  {
    if src !in fs then Err(FileMissing(src))
    else Ok((fs - {src})[dst := fs[src]])
  }

  /** os.remove(p): fails when p does not exist. */
  function Removed(fs: Files, p: string): (r: Result<Files>)
    ensures r.Err? <==> p !in fs
    ensures r.Err? ==> r.error == FileMissing(p)
    ensures r.Ok? ==> p !in r.value && forall q :: q != p ==>
              (q in r.value <==> q in fs) && (q in fs ==> r.value[q] == fs[q])
  {
    if p !in fs then Err(FileMissing(p)) else Ok(fs - {p})
  }

  /** The renames of a post's images, in the order the rewrite requested them; the
      first that fails ends the run. */
  function ApplyMoves(fs: Files, moves: seq<Move>): Result<Files>
    decreases |moves|
  {
    if moves == [] then Ok(fs)
    else
      match Renamed(fs, moves[0].src, moves[0].dst)
      case Err(e) => Err(e)
      case Ok(fs') => ApplyMoves(fs', moves[1..])
  }

  /** A path that no move names as source or destination keeps its content. */
  predicate Untouched(moves: seq<Move>, p: string)
  {
    forall k :: 0 <= k < |moves| ==> moves[k].src != p && moves[k].dst != p
  }

  lemma {:induction false} ApplyMovesFrame(fs: Files, moves: seq<Move>, p: string)
    requires Untouched(moves, p)
    requires ApplyMoves(fs, moves).Ok?
    ensures p in ApplyMoves(fs, moves).value <==> p in fs
    ensures p in fs ==> ApplyMoves(fs, moves).value[p] == fs[p]
    decreases |moves|
  {
    if moves != [] {
      var fs' := Renamed(fs, moves[0].src, moves[0].dst).value;
      assert Untouched(moves[1..], p) by {
        forall k | 0 <= k < |moves| - 1 ensures moves[1..][k].src != p && moves[1..][k].dst != p {
          assert moves[1..][k] == moves[k + 1];
        }
      }
      ApplyMovesFrame(fs', moves[1..], p);
    }
  }

  /** Moves that each take an existing file to a fresh path, with no path named twice,
      all succeed. */
  lemma {:induction false} ApplyMovesSucceeds(fs: Files, moves: seq<Move>)
    requires forall k :: 0 <= k < |moves| ==> moves[k].src in fs && moves[k].dst !in fs
    requires forall k, l :: 0 <= k < l < |moves| ==>
               moves[k].src != moves[l].src && moves[k].dst != moves[l].dst
    ensures ApplyMoves(fs, moves).Ok?
    decreases |moves|
  {
    if moves != [] {
      var fs' := Renamed(fs, moves[0].src, moves[0].dst).value;
      forall k | 0 <= k < |moves| - 1
        ensures moves[1..][k].src in fs' && moves[1..][k].dst !in fs'
      {
        assert moves[1..][k] == moves[k + 1];
        assert moves[0].src != moves[k + 1].src && moves[0].dst != moves[k + 1].dst;
      }
      forall k, l | 0 <= k < l < |moves| - 1
        ensures moves[1..][k].src != moves[1..][l].src && moves[1..][k].dst != moves[1..][l].dst
      {
        assert moves[1..][k] == moves[k + 1] && moves[1..][l] == moves[l + 1];
      }
      ApplyMovesSucceeds(fs', moves[1..]);
    }
  }

  /** Writing a file twice leaves only the second content. */
  lemma UpdatedTwice(fs: Files, p: string, first: string, second: string)
    ensures fs[p := first][p := second] == fs[p := second]
  {
  }

  /** The directory's files, changed in place by the script's file operations. */
  class FileStore {
    var files: Files

    constructor (init: Files)
      ensures files == init
    {
      files := init;
    }

    /** os.path.exists(p) */
    method Exists(p: string) returns (b: bool)
      ensures b <==> p in files
    {
      b := p in files;
    }

    /** The whole content of an existing file; open() raises on a missing one. */
    method Read(p: string) returns (r: Result<string>)
      ensures r.Err? <==> p !in files
      ensures r.Err? ==> r.error == FileMissing(p)
      ensures r.Ok? ==> r.value == files[p]
    {
      if p in files {
        r := Ok(files[p]);
      } else {
        r := Err(FileMissing(p));
      }
    }

    /** open(p, 'w'): creates or truncates the file. */
    method Truncate(p: string)
      modifies this
      ensures files == old(files)[p := ""]
    {
      files := files[p := ""];
    }

    /** open(p, 'a') followed by write(text); a missing file is created. */
    method Append(p: string, text: string)
      modifies this
      ensures files == old(files)[p := (if p in old(files) then old(files)[p] else "") + text]
    {
      var before := if p in files then files[p] else "";
      files := files[p := before + text];
    }

    method Remove(p: string) returns (r: Result<()>)
      modifies this
      ensures r.Err? <==> p !in old(files)
      ensures r.Err? ==> r.error == FileMissing(p) && files == old(files)
      ensures r.Ok? ==> files == Removed(old(files), p).value
    {
      if p !in files {
        r := Err(FileMissing(p));
        return;
      }
      files := files - {p};
      r := Ok(());
    }

    method Rename(src: string, dst: string) returns (r: Result<()>)
      modifies this
      ensures r.Err? <==> src !in old(files)
      ensures r.Err? ==> r.error == FileMissing(src) && files == old(files)
      ensures r.Ok? ==> files == Renamed(old(files), src, dst).value
    {
      if src !in files {
        r := Err(FileMissing(src));
        return;
      }
      var content := files[src];
      files := files - {src};
      files := files[dst := content];
      r := Ok(());
    }

    /** The image renames of one post, one after another. */
    method MoveAll(moves: seq<Move>) returns (r: Result<()>)
      modifies this
      ensures r.Err? <==> ApplyMoves(old(files), moves).Err?
      ensures r.Err? ==> r.error == ApplyMoves(old(files), moves).error
      ensures r.Ok? ==> files == ApplyMoves(old(files), moves).value
    {
      var i := 0;
      while i < |moves|
        invariant 0 <= i <= |moves|
        invariant ApplyMoves(old(files), moves) == ApplyMoves(files, moves[i..])
      {
        assert moves[i..][1..] == moves[i + 1..];
        var step := Rename(moves[i].src, moves[i].dst);
        if step.Err? {
          r := Err(step.error);
          return;
        }
        i := i + 1;
      }
      r := Ok(());
    }
  }
}
