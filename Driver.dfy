/** The script's main loop: for each configured directory, list the posts, rewrite
    every post (filling the title map), append the navigation to every post, write
    the index page and clear the title map. */
module Driver {
  import opened Wrappers
  import opened Text
  import opened Listing
  import opened Images
  import opened Titles
  import opened Rewriter
  import opened Store
  import opened Links

  /** The temporary file a post is rewritten into. */
  const TempName: string := "tmp.md"

  /** The files of the directory, the title map, and how many clock readings the run
      has taken so far. */
  datatype DirState = DirState(files: Files, table: Table, images: nat)

  /** The title map after the rewrite of post: `blog_map[post] = title` when line 1
      carried one. */
  function Titled(t: Table, post: string, title: Option<string>): Table
  {
    match title
    case None => t
    case Some(s) => t.Put(post, s)
  }

  /** open_blog_clear_tail_links on the files of the directory. The post must exist;
      tmp.md is truncated for writing (so a post named tmp.md reads as empty); the lines
      are rewritten and the images moved; then tmp.md holds the output, the post is
      removed and tmp.md is renamed to it. */
  function RewritePost(st: DirState, post: string, settings: Settings, clock: nat -> string): Result<DirState>
  {
    if post !in st.files then Err(FileMissing(post))
    else
      var truncated := st.files[TempName := ""];
      RewriteLines(st.(files := truncated), post, SplitLines(truncated[post]), settings, clock)
  }

  /** The post's lines rewritten, the images moved, and the output swapped in. */
  function RewriteLines(st: DirState, post: string, lines: seq<string>, settings: Settings,
                        clock: nat -> string): Result<DirState>
  {
    match Rewritten(post, lines, settings, clock, st.images)
    case Err(e) => Err(e)
    case Ok(sc) =>
      match Committed(st.files, post, sc.moves, JoinLines(sc.out))
      case Err(e) => Err(e)
      case Ok(swapped) => Ok(DirState(swapped, Titled(st.table, post, sc.title), st.images + sc.images))
  }

  /** What follows the loop: the image renames in order, then tmp.md, holding `text`,
      takes the post's place. */
  function Committed(fs: Files, post: string, moves: seq<Move>, text: string): Result<Files>
  {
    match ApplyMoves(fs, moves)
    case Err(e) => Err(e)
    case Ok(moved) => SwappedIn(moved, post, text)
  }

  /** The end of the rewrite: tmp.md is closed holding `text`, the post is removed and
      tmp.md takes its name. */
  function SwappedIn(fs: Files, post: string, text: string): Result<Files>
  {
    match Removed(fs[TempName := text], post)
    case Err(e) => Err(e)
    case Ok(removed) => Renamed(removed, TempName, post)
  }

  /** Pass 1 over posts[..n]. */
  function RewriteAll(st: DirState, posts: seq<string>, n: nat, settings: Settings,
                      clock: nat -> string): Result<DirState>
    requires n <= |posts|
  {
    if n == 0 then Ok(st)
    else
      match RewriteAll(st, posts, n - 1, settings, clock)
      case Err(e) => Err(e)
      case Ok(st') => RewritePost(st', posts[n - 1], settings, clock)
  }

  /** Pass 2 over posts[..n]. */
  function LinkAll(fs: Files, keys: seq<string>, posts: seq<string>, n: nat, eol: string): Result<Files>
    requires n <= |posts|
  {
    if n == 0 then Ok(fs)
    else
      match LinkAll(fs, keys, posts, n - 1, eol)
      case Err(e) => Err(e)
      case Ok(fs') => Linked(fs', keys, posts[n - 1], eol)
  }

  /** One directory of the main loop, from the listing to the cleared title map. */
  function DirectoryRun(category: string, walk: seq<WalkEntry>, st: DirState, settings: Settings,
                        clock: nat -> string): (r: Result<DirState>)
    requires st.table.Valid()
    ensures r.Ok? ==> IndexName in r.value.files && r.value.table == Empty
  {
    match ListFiles(walk)
    case Err(e) => Err(e)
    case Ok(posts) =>
      RewriteAllValid(st, posts, |posts|, settings, clock);
      match RewriteAll(st, posts, |posts|, settings, clock)
      case Err(e) => Err(e)
      case Ok(st1) =>
        match LinkAll(st1.files, st1.table.keys, posts, |posts|, settings.eol)
        case Err(e) => Err(e)
        case Ok(fs2) =>
          Ok(DirState(fs2[IndexName := JoinLines(IndexPage(category, st1.table, settings.eol))],
                      Empty, st1.images))
  }

  // ---------------------------------------------------------------------------
  // Properties of the two passes.

  lemma RewritePostValid(st: DirState, post: string, settings: Settings, clock: nat -> string)
    requires st.table.Valid()
    ensures RewritePost(st, post, settings, clock).Ok? ==> RewritePost(st, post, settings, clock).value.table.Valid()
  {
    var r := RewritePost(st, post, settings, clock);
    if r.Ok? {
      var sc := Rewritten(post, SplitLines(st.files[TempName := ""][post]), settings, clock, st.images).value;
      if sc.title.Some? {
        PutKeepsOrder(st.table, post, sc.title.value);
      }
    }
  }

  lemma {:induction false} RewriteAllValid(st: DirState, posts: seq<string>, n: nat, settings: Settings,
                                           clock: nat -> string)
    requires n <= |posts| && st.table.Valid()
    ensures RewriteAll(st, posts, n, settings, clock).Ok? ==> RewriteAll(st, posts, n, settings, clock).value.table.Valid()
  {
    if n > 0 {
      RewriteAllValid(st, posts, n - 1, settings, clock);
      match RewriteAll(st, posts, n - 1, settings, clock)
      case Err(_) =>
      case Ok(cur) => RewritePostValid(cur, posts[n - 1], settings, clock);
    }
  }

  /** A rewritten post holds exactly the rewrite's output lines, tmp.md is gone, the
      title map gains the post's title if line 1 had one, and every file that is
      neither the post, nor tmp.md, nor named by an image move is left alone. */
  lemma RewritePostEffect(st: DirState, post: string, settings: Settings, clock: nat -> string)
    requires post != TempName
    requires RewritePost(st, post, settings, clock).Ok?
    ensures var sc := Rewritten(post, SplitLines(st.files[post]), settings, clock, st.images).value;
      var st' := RewritePost(st, post, settings, clock).value;
      && post in st'.files && st'.files[post] == JoinLines(sc.out)
      && TempName !in st'.files
      && st'.table == Titled(st.table, post, sc.title)
      && st'.images == st.images + sc.images
      && forall p :: p != post && p != TempName && Untouched(sc.moves, p) ==>
           (p in st'.files <==> p in st.files) && (p in st.files ==> st'.files[p] == st.files[p])
  {
    var truncated := st.files[TempName := ""];
    assert truncated[post] == st.files[post];
    var sc := Rewritten(post, SplitLines(truncated[post]), settings, clock, st.images).value;
    var moved := ApplyMoves(truncated, sc.moves).value;
    forall p | p != post && p != TempName && Untouched(sc.moves, p)
      ensures p in moved <==> p in st.files
      ensures p in st.files ==> moved[p] == st.files[p]
    {
      ApplyMovesFrame(truncated, sc.moves, p);
    }
  }

  /** The rewrite of a post adds at most its own name to the title map's keys, at the
      end, and only when the name was not a key yet. */
  lemma RewritePostKeys(st: DirState, post: string, settings: Settings, clock: nat -> string)
    requires RewritePost(st, post, settings, clock).Ok?
    ensures var keys := RewritePost(st, post, settings, clock).value.table.keys;
      keys == st.table.keys || (post !in st.table.titles && keys == st.table.keys + [post])
  {
  }

  /** keys is posts[..n] with some entries left out: every key is a listed post, and
      the keys come in listing order. */
  predicate InListingOrder(keys: seq<string>, posts: seq<string>, n: nat)
    requires n <= |posts|
    decreases n
  {
    if keys == [] then true
    else if n == 0 then false
    else if keys[|keys| - 1] == posts[n - 1] then InListingOrder(keys[..|keys| - 1], posts, n - 1)
    else InListingOrder(keys, posts, n - 1)
  }

  lemma {:induction false} InListingOrderWiden(keys: seq<string>, posts: seq<string>, n: nat)
    requires n < |posts| && InListingOrder(keys, posts, n)
    ensures InListingOrder(keys, posts, n + 1)
    decreases n, 1
  {
    if keys != [] && keys[|keys| - 1] == posts[n] {
      InListingOrderDropLast(keys, posts, n);
    }
  }

  lemma {:induction false} InListingOrderDropLast(keys: seq<string>, posts: seq<string>, n: nat)
    requires n <= |posts| && keys != [] && InListingOrder(keys, posts, n)
    ensures InListingOrder(keys[..|keys| - 1], posts, n)
    decreases n, 0
  {
    var init := keys[..|keys| - 1];
    if keys[|keys| - 1] == posts[n - 1] {
      InListingOrderWiden(init, posts, n - 1);
    } else {
      InListingOrderDropLast(keys, posts, n - 1);
      InListingOrderWiden(init, posts, n - 1);
    }
  }

  /** Every key in listing order is one of posts[..n]. */
  lemma {:induction false} InListingOrderListed(keys: seq<string>, posts: seq<string>, n: nat)
    requires n <= |posts| && InListingOrder(keys, posts, n)
    ensures forall k :: 0 <= k < |keys| ==> keys[k] in posts[..n]
    decreases n
  {
    if keys != [] {
      var init := keys[..|keys| - 1];
      if keys[|keys| - 1] == posts[n - 1] {
        InListingOrderListed(init, posts, n - 1);
        forall k | 0 <= k < |keys| ensures keys[k] in posts[..n] {
          if k < |keys| - 1 {
            assert keys[k] == init[k];
            ListedPrefixGrows(posts, n, keys[k]);
          } else {
            assert posts[..n][n - 1] == keys[k];
          }
        }
      } else {
        InListingOrderListed(keys, posts, n - 1);
        forall k | 0 <= k < |keys| ensures keys[k] in posts[..n] {
          ListedPrefixGrows(posts, n, keys[k]);
        }
      }
    }
  }

  lemma ListedPrefixGrows(posts: seq<string>, n: nat, x: string)
    requires 0 < n <= |posts| && x in posts[..n - 1]
    ensures x in posts[..n]
  {
    var j :| 0 <= j < n - 1 && posts[..n - 1][j] == x;
    assert posts[..n][j] == x;
  }

  /** With distinct posts, keys in listing order are listed posts whose positions in
      the listing strictly increase. */
  lemma {:induction false} InListingOrderMeaning(keys: seq<string>, posts: seq<string>, n: nat)
    requires n <= |posts| && InListingOrder(keys, posts, n)
    requires forall i, j :: 0 <= i < j < |posts| ==> posts[i] != posts[j]
    ensures forall k :: 0 <= k < |keys| ==> keys[k] in posts && IndexIn(posts, keys[k]).value < n
    ensures forall k, l :: 0 <= k < l < |keys| ==>
              keys[k] in posts && keys[l] in posts &&
              IndexIn(posts, keys[k]).value < IndexIn(posts, keys[l]).value
    decreases n
  {
    if keys != [] {
      var init := keys[..|keys| - 1];
      if keys[|keys| - 1] == posts[n - 1] {
        InListingOrderMeaning(init, posts, n - 1);
        ListedIndex(posts, n - 1);
        forall k | 0 <= k < |keys|
          ensures keys[k] in posts && IndexIn(posts, keys[k]).value < n
        {
          if k < |keys| - 1 {
            assert keys[k] == init[k];
          }
        }
        forall k, l | 0 <= k < l < |keys|
          ensures IndexIn(posts, keys[k]).value < IndexIn(posts, keys[l]).value
        {
          assert keys[k] == init[k];
          if l < |keys| - 1 {
            assert keys[l] == init[l];
          }
        }
      } else {
        InListingOrderMeaning(keys, posts, n - 1);
      }
    }
  }

  /** A listed post's position is where it stands, when no name is listed twice. */
  lemma ListedIndex(posts: seq<string>, m: nat)
    requires m < |posts|
    requires forall i, j :: 0 <= i < j < |posts| ==> posts[i] != posts[j]
    ensures IndexIn(posts, posts[m]) == Some(m)
  {
    assert posts[m] in posts;
  }

  /** The title map's keys grow in listing order when step n adds at most posts[n - 1],
      at the end. */
  lemma KeysGrowInOrder(keys: seq<string>, keys': seq<string>, posts: seq<string>, n: nat)
    requires 0 < n <= |posts|
    requires InListingOrder(keys, posts, n - 1)
    requires keys' == keys || keys' == keys + [posts[n - 1]]
    ensures InListingOrder(keys', posts, n)
  {
    if keys' == keys {
      InListingOrderWiden(keys, posts, n - 1);
    } else {
      assert keys'[..|keys'| - 1] == keys;
    }
  }

  lemma RewriteAllLast(st: DirState, posts: seq<string>, n: nat, settings: Settings, clock: nat -> string)
    requires 0 < n <= |posts| && RewriteAll(st, posts, n, settings, clock).Ok?
    ensures RewriteAll(st, posts, n - 1, settings, clock).Ok?
    ensures RewriteAll(st, posts, n, settings, clock)
            == RewritePost(RewriteAll(st, posts, n - 1, settings, clock).value, posts[n - 1], settings, clock)
  {
  }

  /** Rewriting one more post adds at most that post to the keys, at the end. */
  lemma RewriteAllKeys(st: DirState, posts: seq<string>, n: nat, settings: Settings, clock: nat -> string)
    requires 0 < n <= |posts| && RewriteAll(st, posts, n, settings, clock).Ok?
    ensures RewriteAll(st, posts, n - 1, settings, clock).Ok?
    ensures var keys := RewriteAll(st, posts, n - 1, settings, clock).value.table.keys;
            var keys' := RewriteAll(st, posts, n, settings, clock).value.table.keys;
            keys' == keys || keys' == keys + [posts[n - 1]]
  {
    RewriteAllLast(st, posts, n, settings, clock);
    RewritePostKeys(RewriteAll(st, posts, n - 1, settings, clock).value, posts[n - 1], settings, clock);
  }

  /** Pass 1, starting from an empty title map, leaves the map's keys in listing
      order: each is a post of posts[..n], and a post listed later comes later. */
  lemma {:induction false} TitleKeysFollowListing(st: DirState, posts: seq<string>, n: nat,
                                                  settings: Settings, clock: nat -> string)
    requires n <= |posts| && st.table.keys == []
    ensures RewriteAll(st, posts, n, settings, clock).Ok? ==>
            InListingOrder(RewriteAll(st, posts, n, settings, clock).value.table.keys, posts, n)
  {
    if n > 0 {
      TitleKeysFollowListing(st, posts, n - 1, settings, clock);
      if RewriteAll(st, posts, n - 1, settings, clock).Ok? {
        TitleKeysStep(RewriteAll(st, posts, n - 1, settings, clock).value, posts, n, settings, clock);
      }
    }
  }

  /** One step of the induction above: the rewrite of posts[n - 1] keeps the keys in
      listing order. */
  lemma TitleKeysStep(cur: DirState, posts: seq<string>, n: nat, settings: Settings, clock: nat -> string)
    requires 0 < n <= |posts|
    requires InListingOrder(cur.table.keys, posts, n - 1)
    ensures RewritePost(cur, posts[n - 1], settings, clock).Ok? ==>
            InListingOrder(RewritePost(cur, posts[n - 1], settings, clock).value.table.keys, posts, n)
  {
    if RewritePost(cur, posts[n - 1], settings, clock).Ok? {
      RewritePostKeys(cur, posts[n - 1], settings, clock);
      KeysGrowInOrder(cur.table.keys, RewritePost(cur, posts[n - 1], settings, clock).value.table.keys, posts, n);
    }
  }

  /** Pass 2 over distinct posts appends to each titled post that exists its own
      navigation, and changes nothing else. */
  lemma {:induction false} LinkAllEffect(fs: Files, keys: seq<string>, posts: seq<string>, n: nat, eol: string)
    requires n <= |posts|
    requires forall i, j :: 0 <= i < j < |posts| ==> posts[i] != posts[j]
    requires LinkAll(fs, keys, posts, n, eol).Ok?
    ensures var fs' := LinkAll(fs, keys, posts, n, eol).value;
      && fs'.Keys == fs.Keys
      && (forall p :: p in fs && p in posts[..n] ==> p in keys)
      && forall p :: p in fs ==>
           fs'[p] == if p in posts[..n] then fs[p] + JoinLines(NavLines(keys, IndexIn(keys, p).value, eol))
                     else fs[p]
  {
    if n > 0 {
      LinkAllEffect(fs, keys, posts, n - 1, eol);
      var fs1 := LinkAll(fs, keys, posts, n - 1, eol).value;
      var post := posts[n - 1];
      assert posts[..n] == posts[..n - 1] + [post];
      var front := posts[..n - 1];
      forall m | 0 <= m < |front| ensures front[m] != post {
        assert front[m] == posts[m];
      }
      LinkedAppends(fs1, keys, post, eol);
    }
  }

  /** Every listed post lacking a title makes pass 2 fail when it reaches it: the run
      over a listing stops at the first post that exists but has no title-map key. */
  lemma {:induction false} UntitledPostStopsLinking(fs: Files, keys: seq<string>, posts: seq<string>,
                                                    n: nat, eol: string)
    requires n <= |posts|
    requires forall i, j :: 0 <= i < j < |posts| ==> posts[i] != posts[j]
    ensures LinkAll(fs, keys, posts, n, eol).Ok? <==>
      forall j :: 0 <= j < n && posts[j] in fs ==> posts[j] in keys
    ensures LinkAll(fs, keys, posts, n, eol).Err? ==>
      exists j :: 0 <= j < n && posts[j] in fs && posts[j] !in keys &&
        LinkAll(fs, keys, posts, n, eol).error == NotTitled(posts[j])
  {
    if n > 0 {
      UntitledPostStopsLinking(fs, keys, posts, n - 1, eol);
      var post := posts[n - 1];
      if LinkAll(fs, keys, posts, n - 1, eol).Ok? {
        LinkAllEffect(fs, keys, posts, n - 1, eol);
        var fs1 := LinkAll(fs, keys, posts, n - 1, eol).value;
        assert post in fs1 <==> post in fs;
        LinkedAppends(fs1, keys, post, eol);
      }
    }
  }

  /** A directory processed from an empty title map gets the index page of the map
      pass 1 built. Its keys are listed posts in listing order, and every listed post
      still present after pass 1 is among them; the map is left empty for the next
      directory. */
  lemma DirectoryRunIndex(category: string, walk: seq<WalkEntry>, st: DirState, settings: Settings,
                          clock: nat -> string)
    requires st.table == Empty
    requires DirectoryRun(category, walk, st, settings, clock).Ok?
    ensures ListFiles(walk).Ok?
    ensures var posts := ListFiles(walk).value;
      RewriteAll(st, posts, |posts|, settings, clock).Ok? &&
      RewriteAll(st, posts, |posts|, settings, clock).value.table.Valid()
    ensures var posts := ListFiles(walk).value;
      var st1 := RewriteAll(st, posts, |posts|, settings, clock).value;
      var done := DirectoryRun(category, walk, st, settings, clock).value;
      && IndexName in done.files
      && done.files[IndexName] == JoinLines(IndexPage(category, st1.table, settings.eol))
      && InListingOrder(st1.table.keys, posts, |posts|)
      && (forall p :: p in posts && p in st1.files ==> p in st1.table.keys)
      && done.table == Empty && done.images == st1.images
  {
    var posts := ListFiles(walk).value;
    ListFilesCorrect(walk);
    RewriteAllValid(st, posts, |posts|, settings, clock);
    TitleKeysFollowListing(st, posts, |posts|, settings, clock);
    var st1 := RewriteAll(st, posts, |posts|, settings, clock).value;
    ListedNamesDistinct(posts);
    LinkedPostsTitled(st1.files, st1.table.keys, posts, settings.eol);
  }

  /** When pass 2 over distinct posts runs to the end, every listed post that exists
      has a title-map key. */
  lemma LinkedPostsTitled(fs: Files, keys: seq<string>, posts: seq<string>, eol: string)
    requires forall i, j :: 0 <= i < j < |posts| ==> posts[i] != posts[j]
    requires LinkAll(fs, keys, posts, |posts|, eol).Ok?
    ensures forall p :: p in posts && p in fs ==> p in keys
  {
    UntitledPostStopsLinking(fs, keys, posts, |posts|, eol);
    forall p | p in posts && p in fs ensures p in keys {
      var j :| 0 <= j < |posts| && posts[j] == p;
    }
  }

  // ---------------------------------------------------------------------------
  // Running the script again over a post it has already linked.

  /** The parent link glued to text without '\n' (the whole last line of a post that
      does not end with '\n') is one line; before its end of line it holds the text
      and the link, so it holds the back-link marker. */
  lemma GluedLineHasMarker(text: string)
    requires forall k :: 0 <= k < |text| ==> text[k] != '\n'
    ensures var line := text + ParentLink + "\n";
      IsLine(line) && Segment(line) == text + ParentLink && HasMarker(line)
  {
    var line := text + ParentLink + "\n";
    assert line == (text + "[上一级]") + "(" + "README.md" + ")\n";
    assert '\n' !in text + "[上一级]" by {
      forall k | 0 <= k < |text| + 5 ensures (text + "[上一级]")[k] != '\n' {
        if k < |text| { assert (text + "[上一级]")[k] == text[k]; }
      }
    }
    LinkLineIsLine(text + "[上一级]", "README.md");
    LineEnd(line);
    assert line[|text|..|text| + |BackLinkMarker|] == BackLinkMarker;
    assert OccursAt(line, BackLinkMarker, |text|);
  }

  /** The parent link line, glued to text without '\n', '#' or digits, is one line
      that is neither a heading nor an image reference, and that holds the back-link
      marker. */
  lemma GluedParentLinkStops(text: string)
    requires forall k :: 0 <= k < |text| ==> text[k] != '\n' && text[k] != '#' && !IsDigit(text[k])
    ensures var line := text + ParentLink + "\n";
      IsLine(line) && !HasHeadingMark(line) && !IsImageLine(line) && HasMarker(line)
  {
    var seg := text + ParentLink;
    GluedLineHasMarker(text);
    forall k | 0 <= k < |seg| ensures seg[k] != '#' && !IsDigit(seg[k]) {
      if k < |text| { assert seg[k] == text[k]; } else { assert seg[k] == ParentLink[k - |text|]; }
    }
  }

  /** A link line `<text>(<key>)` + "\n" is one line when the key has no '\n'. */
  lemma LinkLineIsLine(text: string, key: string)
    requires '\n' !in text && '\n' !in key
    ensures IsLine(text + "(" + key + ")\n")
  {
    var l := text + "(" + key + ")\n";
    forall k | 0 <= k < |l| - 1 ensures l[k] != '\n' {
      if k < |text| { assert l[k] == text[k]; }
      else if |text| < k < |text| + 1 + |key| { assert l[k] == key[k - |text| - 1]; }
    }
  }

  /** With the configured end-of-line "\n", every navigation line is one line. */
  lemma NavLinesAreLines(keys: seq<string>, pos: nat)
    requires pos < |keys| && forall k :: 0 <= k < |keys| ==> '\n' !in keys[k]
    ensures forall i :: 0 <= i < |NavLines(keys, pos, "\n")| ==> IsLine(NavLines(keys, pos, "\n")[i])
  {
    var nav := NavLines(keys, pos, "\n");
    assert ParentLink + "\n" == "[上一级]" + "(" + "README.md" + ")\n";
    LinkLineIsLine("[上一级]", "README.md");
    if pos > 0 {
      assert PrevLink(keys[pos - 1], "\n") == "[上一篇]" + "(" + keys[pos - 1] + ")\n";
      LinkLineIsLine("[上一篇]", keys[pos - 1]);
    }
    if pos + 1 < |keys| {
      assert NextLink(keys[pos + 1], "\n") == "[下一篇]" + "(" + keys[pos + 1] + ")\n";
      LinkLineIsLine("[下一篇]", keys[pos + 1]);
    }
  }

  /** Read back, a post with navigation appended has its own lines, then one line per
      navigation line. */
  lemma NavigationSplits(body: string, keys: seq<string>, pos: nat)
    requires pos < |keys| && forall k :: 0 <= k < |keys| ==> '\n' !in keys[k]
    requires body == [] || body[|body| - 1] == '\n'
    ensures SplitLines(body + JoinLines(NavLines(keys, pos, "\n")))
            == SplitLines(body) + NavLines(keys, pos, "\n")
  {
    var nav := NavLines(keys, pos, "\n");
    NavLinesAreLines(keys, pos);
    SplitLinesAppend(body, JoinLines(nav));
    SplitJoinLines(nav);
  }

  /** The first navigation line ends a rewrite. */
  lemma NavigationStops(keys: seq<string>, pos: nat)
    requires pos < |keys|
    ensures var line := NavLines(keys, pos, "\n")[0];
      !HasHeadingMark(line) && !IsImageLine(line) && HasMarker(line)
  {
    GluedParentLinkStops("");
    assert NavLines(keys, pos, "\n")[0] == "" + ParentLink + "\n";
  }

  /** Why the script can be run again: the navigation the link pass appended to a post
      whose text ends with '\n' is dropped by the next rewrite, which then sees only
      the post's own lines. */
  lemma NavigationDroppedOnRerun(post: string, body: string, keys: seq<string>, pos: nat,
                                 settings: Settings, clock: nat -> string, base: nat)
    requires settings.eol == "\n"
    requires pos < |keys| && forall k :: 0 <= k < |keys| ==> '\n' !in keys[k]
    requires body == [] || body[|body| - 1] == '\n'
    requires Rewritten(post, SplitLines(body), settings, clock, base).Ok?
    requires !Rewritten(post, SplitLines(body), settings, clock, base).value.stopped
    ensures Rewritten(post, SplitLines(body + JoinLines(NavLines(keys, pos, settings.eol))), settings, clock, base)
            == Ok(Rewritten(post, SplitLines(body), settings, clock, base).value.(stopped := true))
  {
    var nav := NavLines(keys, pos, settings.eol);
    NavigationSplits(body, keys, pos);
    NavigationStops(keys, pos);
    StopLineEndsRewrite(post, SplitLines(body), nav, settings, clock, base);
  }

  /** A post whose text does not end with '\n' loses its last line on the next run:
      the parent link is glued to that line, and the rewrite breaks off there. This
      holds unless the glued line is an image reference, or it is line 1 and a heading
      (see HeadingLastLineKeepsLink). */
  lemma UnterminatedLastLineLost(post: string, head: seq<string>, last: string, keys: seq<string>,
                                 pos: nat, settings: Settings, clock: nat -> string, base: nat)
    requires settings.eol == "\n"
    requires pos < |keys| && forall k :: 0 <= k < |keys| ==> '\n' !in keys[k]
    requires forall i :: 0 <= i < |head| ==> IsLine(head[i])
    requires forall k :: 0 <= k < |last| ==> last[k] != '\n'
    requires !IsImageLine(last + ParentLink + "\n")
    requires head == [] ==> forall k :: 0 <= k < |last| ==> last[k] != '#'
    requires Rewritten(post, head, settings, clock, base).Ok?
    requires !Rewritten(post, head, settings, clock, base).value.stopped
    ensures Rewritten(post, SplitLines(JoinLines(head) + last + JoinLines(NavLines(keys, pos, settings.eol))),
                      settings, clock, base)
            == Ok(Rewritten(post, head, settings, clock, base).value.(stopped := true))
  {
    var nav := NavLines(keys, pos, "\n");
    var rest := [last + ParentLink + "\n"] + nav[1..];
    GluedLineHasMarker(last);
    if head == [] {
      var seg := last + ParentLink;
      forall k | 0 <= k < |seg| ensures seg[k] != '#' {
        if k < |last| { assert seg[k] == last[k]; } else { assert seg[k] == ParentLink[k - |last|]; }
      }
    }
    GluedLinkSplits(head, last, keys, pos);
    StopLineEndsRewrite(post, head, rest, settings, clock, base);
  }

  /** A one-line post that is a heading and does not end with '\n' keeps its line on
      the next run, since the title branch comes before the back-link test: the line
      is written back with the parent link glued on, the recorded title ends with the
      parent link, and the neighbour links that follow are copied too. */
  lemma HeadingLastLineKeepsLink(post: string, last: string, keys: seq<string>, pos: nat,
                                 settings: Settings, clock: nat -> string, base: nat)
    requires settings.eol == "\n"
    requires pos < |keys| && forall k :: 0 <= k < |keys| ==> '\n' !in keys[k]
    requires forall k :: 0 <= k < |last| ==> last[k] != '\n'
    requires '#' in last
    requires forall i :: 1 <= i < |NavLines(keys, pos, "\n")| ==>
      !IsImageLine(NavLines(keys, pos, "\n")[i]) && !HasMarker(NavLines(keys, pos, "\n")[i])
    ensures Rewritten(post, SplitLines(last + JoinLines(NavLines(keys, pos, settings.eol))), settings, clock, base)
            == Ok(Scan([last + ParentLink + "\n"] + NavLines(keys, pos, "\n")[1..],
                       Some(last[LeadLength(last)..] + ParentLink), [], 0, false))
  {
    var nav := NavLines(keys, pos, "\n");
    var lines := [last + ParentLink + "\n"] + nav[1..];
    assert SplitLines(last + JoinLines(nav)) == lines by {
      GluedLinkSplits([], last, keys, pos);
      assert JoinLines([]) + last == last;
      assert [] + lines == lines;
    }
    GluedHeadingTitle(last);
    assert forall i :: 1 <= i < |lines| ==> !IsImageLine(lines[i]) && !HasMarker(lines[i]) by {
      forall i | 1 <= i < |lines| ensures !IsImageLine(lines[i]) && !HasMarker(lines[i]) {
        assert lines[i] == nav[i];
      }
    }
    PlainPostUnchanged(post, lines, settings, clock, base);
  }

  /** Text holding '#' with the parent link glued on is a heading whose title is the
      text after its leading '#' and ' ', followed by the link. */
  lemma GluedHeadingTitle(last: string)
    requires forall k :: 0 <= k < |last| ==> last[k] != '\n'
    requires '#' in last
    ensures var glued := last + ParentLink + "\n";
      HasHeadingMark(glued) && TitleText(glued) == Some(last[LeadLength(last)..] + ParentLink)
  {
    var glued := last + ParentLink + "\n";
    GluedLineHasMarker(last);
    assert HasHeadingMark(glued) by {
      var j :| 0 <= j < |last| && last[j] == '#';
      assert (last + ParentLink)[j] == '#';
    }
    assert ParentLink[0] == '[' && '\n' !in ParentLink;
    TitleOfGlued(last, ParentLink);
  }

  /** The title of text glued to a tail that starts with neither '#' nor ' ' is the
      text after its leading '#' and ' ', followed by the tail. */
  lemma TitleOfGlued(text: string, tail: string)
    requires forall k :: 0 <= k < |text| ==> text[k] != '\n'
    requires |tail| >= 2 && tail[0] != '#' && tail[0] != ' ' && '\n' !in tail
    ensures TitleText(text + tail + "\n") == Some(text[LeadLength(text)..] + tail)
  {
    var line := text + tail + "\n";
    var body := text + tail;
    assert Chomp(line) == body;
    assert forall k :: 0 <= k < |line| - 1 ==> line[k] != '\n' by {
      forall k | 0 <= k < |line| - 1 ensures line[k] != '\n' {
        if k < |text| { assert line[k] == text[k]; } else { assert line[k] == tail[k - |text|]; }
      }
    }
    var lead := LeadLength(text);
    assert LeadLength(body) == lead && |body| - lead >= 2 by {
      LeadLengthAppend(text, tail);
    }
    TitleFromLead(line, body, lead);
    DropConcat(text, tail, lead);
  }

  lemma TitleFromLead(line: string, body: string, lead: nat)
    requires forall k :: 0 <= k < |line| - 1 ==> line[k] != '\n'
    requires Chomp(line) == body && LeadLength(body) == lead && |body| - lead >= 2
    ensures TitleText(line) == Some(body[lead..])
  {
    TitleIsRestOfLine(line);
  }

  /** Leading '#' and ' ' never run past the end of s into text that starts with
      another character. */
  lemma {:induction false} LeadLengthAppend(s: string, t: string)
    requires t != [] && t[0] != '#' && t[0] != ' '
    ensures LeadLength(s + t) == LeadLength(s)
  {
    if s == [] {
      assert s + t == t;
    } else {
      assert (s + t)[0] == s[0];
      if s[0] == '#' || s[0] == ' ' {
        assert (s + t)[1..] == s[1..] + t;
        LeadLengthAppend(s[1..], t);
      }
    }
  }

  /** Read back, the post's whole lines come first, then its unterminated last line
      joined to the parent link, then the other navigation lines. */
  lemma GluedLinkSplits(head: seq<string>, last: string, keys: seq<string>, pos: nat)
    requires pos < |keys| && forall k :: 0 <= k < |keys| ==> '\n' !in keys[k]
    requires forall i :: 0 <= i < |head| ==> IsLine(head[i])
    requires forall k :: 0 <= k < |last| ==> last[k] != '\n'
    ensures SplitLines(JoinLines(head) + last + JoinLines(NavLines(keys, pos, "\n")))
            == head + ([last + ParentLink + "\n"] + NavLines(keys, pos, "\n")[1..])
  {
    var nav := NavLines(keys, pos, "\n");
    var glued := last + ParentLink + "\n";
    var rest := [glued] + nav[1..];
    assert nav == [ParentLink + "\n"] + nav[1..];
    JoinGlued(head, last, ParentLink + "\n", nav[1..]);
    ConcatAssoc(last, ParentLink, "\n");
    assert [last + (ParentLink + "\n")] + nav[1..] == rest;
    GluedLinesAreLines(head, last, keys, pos);
    SplitJoinLines(head + rest);
  }

  lemma GluedLinesAreLines(head: seq<string>, last: string, keys: seq<string>, pos: nat)
    requires pos < |keys| && forall k :: 0 <= k < |keys| ==> '\n' !in keys[k]
    requires forall i :: 0 <= i < |head| ==> IsLine(head[i])
    requires forall k :: 0 <= k < |last| ==> last[k] != '\n'
    ensures var lines := head + ([last + ParentLink + "\n"] + NavLines(keys, pos, "\n")[1..]);
      forall i :: 0 <= i < |lines| ==> IsLine(lines[i])
  {
    var nav := NavLines(keys, pos, "\n");
    var lines := head + ([last + ParentLink + "\n"] + nav[1..]);
    GluedLineHasMarker(last);
    NavLinesAreLines(keys, pos);
    forall i | 0 <= i < |lines| ensures IsLine(lines[i]) {
      if i < |head| { assert lines[i] == head[i]; }
      else if i > |head| { assert lines[i] == nav[i - |head|]; }
    }
  }

  // ---------------------------------------------------------------------------
  // The loops.

  /** open_blog_clear_tail_links(post, blog_map) against the directory's files. The
      clock readings continue from `images`; the new count is returned. */
  method RewriteFile(post: string, settings: Settings, clock: nat -> string, images: nat,
                     titles: TitleMap, store: FileStore) returns (r: Result<nat>)
    requires titles.Valid()
    modifies titles, store
    ensures titles.Valid()
    ensures r.Err? ==>
              RewritePost(old(DirState(store.files, titles.Value(), images)), post, settings, clock)
              == Err(r.error)
    ensures r.Ok? ==>
              RewritePost(old(DirState(store.files, titles.Value(), images)), post, settings, clock)
              == Ok(DirState(store.files, titles.Value(), r.value))
  {
    ghost var st := DirState(store.files, titles.Value(), images);
    var input := store.Read(post);
    if input.Err? {
      r := Err(input.error);
      return;
    }
    store.Truncate(TempName);
    var text := store.Read(post);
    var lines := SplitLines(text.value);
    r := RewriteLoaded(post, lines, settings, clock, images, titles, store);
  }

  /** The body of open_blog_clear_tail_links after the post is read. */
  method RewriteLoaded(post: string, lines: seq<string>, settings: Settings, clock: nat -> string,
                       images: nat, titles: TitleMap, store: FileStore) returns (r: Result<nat>)
    requires titles.Valid()
    modifies titles, store
    ensures titles.Valid()
    ensures r.Err? ==>
              RewriteLines(old(DirState(store.files, titles.Value(), images)), post, lines, settings, clock)
              == Err(r.error)
    ensures r.Ok? ==>
              RewriteLines(old(DirState(store.files, titles.Value(), images)), post, lines, settings, clock)
              == Ok(DirState(store.files, titles.Value(), r.value))
  {
    ghost var st := DirState(store.files, titles.Value(), images);
    var rw := ClearTailLinks(post, lines, settings, clock, images, titles);
    if rw.Err? {
      r := Err(rw.error);
      return;
    }
    ghost var sc := Rewritten(post, lines, settings, clock, images).value;
    assert rw.value == Rewrite(sc.out, sc.moves, sc.images);
    assert titles.Value() == Titled(st.table, post, sc.title);
    var done := Commit(post, rw.value.moves, JoinLines(rw.value.out), store);
    if done.Err? {
      r := Err(done.error);
      return;
    }
    r := Ok(images + rw.value.images);
  }

  /** The image renames, then the swap of tmp.md for the post. */
  method Commit(post: string, moves: seq<Move>, text: string, store: FileStore) returns (r: Result<()>)
    modifies store
    ensures r.Err? <==> Committed(old(store.files), post, moves, text).Err?
    ensures r.Err? ==> r.error == Committed(old(store.files), post, moves, text).error
    ensures r.Ok? ==> store.files == Committed(old(store.files), post, moves, text).value
  {
    var moved := store.MoveAll(moves);
    if moved.Err? {
      r := Err(moved.error);
      return;
    }
    r := SwapIn(post, text, store);
  }

  /** Closes tmp.md holding `text`, then `os.remove(post)` and `os.rename('tmp.md', post)`. */
  method SwapIn(post: string, text: string, store: FileStore) returns (r: Result<()>)
    modifies store
    ensures r.Err? <==> SwappedIn(old(store.files), post, text).Err?
    ensures r.Err? ==> r.error == SwappedIn(old(store.files), post, text).error
    ensures r.Ok? ==> store.files == SwappedIn(old(store.files), post, text).value
  {
    ghost var closed := old(store.files)[TempName := text];
    store.Truncate(TempName);
    store.Append(TempName, text);
    assert store.files == closed by {
      assert "" + text == text;
    }
    var removed := store.Remove(post);
    if removed.Err? {
      r := Err(removed.error);
      return;
    }
    ghost var gone := store.files;
    assert gone == Removed(closed, post).value;
    r := store.Rename(TempName, post);
  }

  /** The body of the main loop for one directory: `files = get_dir_file('.')`, pass 1,
      pass 2, write_base_markdown("README.md", ...) and blog_map.clear(). */
  method ProcessDirectory(category: string, walk: seq<WalkEntry>, settings: Settings,
                          clock: nat -> string, images: nat, titles: TitleMap, store: FileStore)
    returns (r: Result<nat>)
    requires titles.Valid()
    modifies titles, store
    ensures titles.Valid()
    ensures var spec := DirectoryRun(category, walk, old(DirState(store.files, titles.Value(), images)),
                                     settings, clock);
      && (r.Err? <==> spec.Err?)
      && (r.Err? ==> r.error == spec.error)
      && (r.Ok? ==> store.files == spec.value.files && titles.Value() == Empty
                    && r.value == spec.value.images)
  {
    ghost var st := DirState(store.files, titles.Value(), images);
    var listed := GetDirFile(walk);
    if listed.Err? {
      r := Err(listed.error);
      return;
    }
    var files := listed.value;
    var rewritten := RewritePass(files, settings, clock, images, titles, store);
    if rewritten.Err? {
      r := Err(rewritten.error);
      return;
    }
    ghost var st1 := DirState(store.files, titles.Value(), rewritten.value);
    var linked := LinkPass(files, settings.eol, titles, store);
    if linked.Err? {
      r := Err(linked.error);
      return;
    }
    ghost var fs2 := store.files;
    WriteBaseMarkdown(IndexName, titles, category, settings.eol, store);
    titles.Clear();
    r := Ok(rewritten.value);
    assert DirectoryRun(category, walk, st, settings, clock)
           == Ok(DirState(fs2[IndexName := JoinLines(IndexPage(category, st1.table, settings.eol))],
                          Empty, st1.images));
  }

  /** `for file_name in files: open_blog_clear_tail_links(file_name, blog_map)` */
  method RewritePass(files: seq<string>, settings: Settings, clock: nat -> string, images: nat,
                     titles: TitleMap, store: FileStore) returns (r: Result<nat>)
    requires titles.Valid()
    modifies titles, store
    ensures titles.Valid()
    ensures RewriteAll(old(DirState(store.files, titles.Value(), images)), files, |files|, settings, clock)
            == match r
               case Err(e) => Err(e)
               case Ok(count) => Ok(DirState(store.files, titles.Value(), count))
  {
    ghost var st := DirState(store.files, titles.Value(), images);
    var count := images;
    var i := 0;
    while i < |files|
      invariant 0 <= i <= |files|
      invariant titles.Valid()
      invariant RewriteAll(st, files, i, settings, clock) == Ok(DirState(store.files, titles.Value(), count))
    {
      ghost var cur := DirState(store.files, titles.Value(), count);
      RewriteAllStep(st, files, i, settings, clock, cur);
      var step := RewriteFile(files[i], settings, clock, count, titles, store);
      if step.Err? {
        RewriteAllFails(st, files, i + 1, |files|, settings, clock);
        r := Err(step.error);
        return;
      }
      count := step.value;
      i := i + 1;
    }
    r := Ok(count);
  }

  /** `for file_name in files: blog_add_pre_next_links(file_name, blog_map)`; the
      title map is only read. */
  method LinkPass(files: seq<string>, eol: string, titles: TitleMap, store: FileStore)
    returns (r: Result<()>)
    modifies store
    ensures var spec := LinkAll(old(store.files), titles.keys, files, |files|, eol);
      && (r.Err? <==> spec.Err?)
      && (r.Err? ==> r.error == spec.error)
      && (r.Ok? ==> store.files == spec.value)
  {
    ghost var fs := store.files;
    var j := 0;
    while j < |files|
      invariant 0 <= j <= |files|
      invariant LinkAll(fs, titles.keys, files, j, eol) == Ok(store.files)
    {
      var linked := AddPrevNextLinks(files[j], titles, eol, store);
      if linked.Err? {
        LinkAllFails(fs, titles.keys, files, j + 1, |files|, eol);
        r := Err(linked.error);
        return;
      }
      j := j + 1;
    }
    r := Ok(());
  }

  lemma RewriteAllStep(st: DirState, posts: seq<string>, i: nat, settings: Settings,
                       clock: nat -> string, cur: DirState)
    requires i < |posts| && RewriteAll(st, posts, i, settings, clock) == Ok(cur)
    ensures RewriteAll(st, posts, i + 1, settings, clock) == RewritePost(cur, posts[i], settings, clock)
  {
  }

  lemma {:induction false} RewriteAllFails(st: DirState, posts: seq<string>, n: nat, m: nat,
                                           settings: Settings, clock: nat -> string)
    requires n <= m <= |posts| && RewriteAll(st, posts, n, settings, clock).Err?
    ensures RewriteAll(st, posts, m, settings, clock) == RewriteAll(st, posts, n, settings, clock)
    decreases m - n
  {
    if m > n { RewriteAllFails(st, posts, n, m - 1, settings, clock); }
  }

  lemma {:induction false} LinkAllFails(fs: Files, keys: seq<string>, posts: seq<string>, n: nat, m: nat,
                                        eol: string)
    requires n <= m <= |posts| && LinkAll(fs, keys, posts, n, eol).Err?
    ensures LinkAll(fs, keys, posts, m, eol) == LinkAll(fs, keys, posts, n, eol)
    decreases m - n
  {
    if m > n { LinkAllFails(fs, keys, posts, n, m - 1, eol); }
  }

  // ---------------------------------------------------------------------------
  // The outer loop over the configured directories.

  /** One entry of include_dir: its name (the index page's category), what os.walk
      reports for it, and its files. */
  datatype Directory = Directory(name: string, walk: seq<WalkEntry>, files: Files)

  /** The files of each directory after the run, and the clock readings taken. */
  datatype RunState = RunState(results: seq<Files>, images: nat)

  /** The main loop over dirs[..n]; the title map starts and ends each directory empty.
      A successful run leaves one file set per directory, each with its index page. */
  function RunDirs(dirs: seq<Directory>, n: nat, settings: Settings, clock: nat -> string): (r: Result<RunState>)
    requires n <= |dirs|
    ensures r.Ok? ==> |r.value.results| == n
    ensures r.Ok? ==> forall k :: 0 <= k < n ==> IndexName in r.value.results[k]
  {
    if n == 0 then Ok(RunState([], 0))
    else
      match RunDirs(dirs, n - 1, settings, clock)
      case Err(e) => Err(e)
      case Ok(rs) =>
        match DirectoryRun(dirs[n - 1].name, dirs[n - 1].walk, DirState(dirs[n - 1].files, Empty, rs.images),
                           settings, clock)
        case Err(e) => Err(e)
        case Ok(st) => Ok(RunState(rs.results + [st.files], st.images))
  }

  /** The `__main__` loop over include_dir; each directory is processed against its
      own files, with one title map shared by all of them. */
  method Run(dirs: seq<Directory>, settings: Settings, clock: nat -> string)
    returns (r: Result<RunState>)
    ensures r == RunDirs(dirs, |dirs|, settings, clock)
  {
    var titles := new TitleMap();
    var results: seq<Files> := [];
    var images := 0;
    var i := 0;
    while i < |dirs|
      invariant 0 <= i <= |dirs|
      invariant titles.Valid() && titles.Value() == Empty
      invariant RunDirs(dirs, i, settings, clock) == Ok(RunState(results, images))
    {
      var store := new FileStore(dirs[i].files);
      var done := ProcessDirectory(dirs[i].name, dirs[i].walk, settings, clock, images, titles, store);
      if done.Err? {
        RunDirsFails(dirs, i + 1, |dirs|, settings, clock);
        r := Err(done.error);
        return;
      }
      results := results + [store.files];
      images := done.value;
      i := i + 1;
    }
    r := Ok(RunState(results, images));
  }

  lemma {:induction false} RunDirsFails(dirs: seq<Directory>, n: nat, m: nat, settings: Settings,
                                        clock: nat -> string)
    requires n <= m <= |dirs| && RunDirs(dirs, n, settings, clock).Err?
    ensures RunDirs(dirs, m, settings, clock) == RunDirs(dirs, n, settings, clock)
    decreases m - n
  {
    if m > n { RunDirsFails(dirs, n, m - 1, settings, clock); }
  }
}
