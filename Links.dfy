/** blog_add_pre_next_links and write_base_markdown: the navigation lines appended to
    each post and the index page of the directory, both read off the title map. */
module Links {
  import opened Wrappers
  import opened Text
  import opened Titles
  import opened Store

  /** The link back to the index page; every post gets it first. */
  const ParentLink: string := "[上一级](README.md)"

  function PrevLink(key: string, eol: string): string
  {
    "[上一篇](" + key + ")" + eol
  }

  function NextLink(key: string, eol: string): string
  {
    "[下一篇](" + key + ")" + eol
  }

  /** The navigation of the post at position pos of the key list: the parent link,
      then the previous post if there is one, then the next post if there is one. */
  function NavLines(keys: seq<string>, pos: nat, eol: string): (r: seq<string>)
    requires pos < |keys|
    ensures 1 <= |r| <= 3
  {
    [ParentLink + eol]
    + (if pos > 0 then [PrevLink(keys[pos - 1], eol)] else [])
    + (if pos + 1 < |keys| then [NextLink(keys[pos + 1], eol)] else [])
  }

  /** The three cases the script writes out: the first post links only forward (and
      not at all when it is alone), the last only back, any other both ways. All
      start with the parent link. */
  lemma NavLinesCases(keys: seq<string>, pos: nat, eol: string)
    requires pos < |keys|
    ensures NavLines(keys, pos, eol)[0] == "[上一级](README.md)" + eol
    ensures pos == 0 && |keys| == 1 ==> NavLines(keys, pos, eol) == [ParentLink + eol]
    ensures pos == 0 && |keys| > 1 ==>
      NavLines(keys, pos, eol) == [ParentLink + eol, "[下一篇](" + keys[1] + ")" + eol]
    ensures 0 < pos && pos + 1 == |keys| ==>
      NavLines(keys, pos, eol) == [ParentLink + eol, "[上一篇](" + keys[pos - 1] + ")" + eol]
    ensures 0 < pos && pos + 1 < |keys| ==>
      NavLines(keys, pos, eol) == [ParentLink + eol, "[上一篇](" + keys[pos - 1] + ")" + eol,
                                  "[下一篇](" + keys[pos + 1] + ")" + eol]
  {
  }

  /** Neighbouring posts link to each other: the post at i names the one at i + 1 as
      next, and that one names the post at i as previous. */
  lemma NavLinesChain(keys: seq<string>, i: nat, eol: string)
    requires i + 1 < |keys|
    ensures NextLink(keys[i + 1], eol) == NavLines(keys, i, eol)[|NavLines(keys, i, eol)| - 1]
    ensures PrevLink(keys[i], eol) == NavLines(keys, i + 1, eol)[1]
  {
  }

  /** The directory's files once the post has been linked: a post that does not
      exist is skipped; a post without a title-map key fails in list.index. */
  function Linked(fs: Files, keys: seq<string>, post: string, eol: string): Result<Files>
  {
    if post !in fs then Ok(fs)
    else
      match IndexIn(keys, post)
      case None => Err(NotTitled(post))
      case Some(pos) => Ok(fs[post := fs[post] + JoinLines(NavLines(keys, pos, eol))])
  }

  /** Linking only appends to the post, and fails exactly on an existing post that got
      no title. */
  lemma LinkedAppends(fs: Files, keys: seq<string>, post: string, eol: string)
    ensures Linked(fs, keys, post, eol).Err? <==> post in fs && post !in keys
    ensures Linked(fs, keys, post, eol).Ok? ==>
      var fs' := Linked(fs, keys, post, eol).value;
      && fs'.Keys == fs.Keys
      && (forall p :: p in fs && p != post ==> fs'[p] == fs[p])
      && (post in fs ==> |fs'[post]| > |fs[post]| && fs'[post][..|fs[post]|] == fs[post])
  {
    if post in fs && post in keys {
      var pos := IndexIn(keys, post).value;
      var tail := JoinLines(NavLines(keys, pos, eol));
      assert tail == NavLines(keys, pos, eol)[0] + JoinLines(NavLines(keys, pos, eol)[1..]);
      assert (fs[post] + tail)[..|fs[post]|] == fs[post];
    }
  }

  /** The previous- and next-post links blog_add_pre_next_links appends after the
      parent link, by the script's three cases on the post's position. */
  method AppendNeighbourLinks(post: string, keyList: seq<string>, pos: nat, eol: string,
                              store: FileStore)
    requires pos < |keyList|
    requires post in store.files
    modifies store
    ensures store.files == old(store.files)[post := old(store.files)[post]
                                            + JoinLines(NavLines(keyList, pos, eol)[1..])]
  {
    ghost var before := store.files[post];
    ghost var links := NavLines(keyList, pos, eol)[1..];
    JoinLinesShort(links);
    var endPos := |keyList|;
    if pos == 0 {
      var tmp := pos + 1;
      if tmp != endPos {
        store.Append(post, NextLink(keyList[tmp], eol));
        assert links == [NextLink(keyList[tmp], eol)];
      } else {
        assert links == [] && before + JoinLines(links) == before;
        assert store.files == store.files[post := before];
      }
    } else {
      var tmp := pos;
      if tmp + 1 == endPos {
        store.Append(post, PrevLink(keyList[tmp - 1], eol));
        assert links == [PrevLink(keyList[tmp - 1], eol)];
      } else {
        store.Append(post, PrevLink(keyList[tmp - 1], eol));
        store.Append(post, NextLink(keyList[tmp + 1], eol));
        assert links == [PrevLink(keyList[tmp - 1], eol), NextLink(keyList[tmp + 1], eol)];
        assert JoinLines(links) == PrevLink(keyList[tmp - 1], eol) + NextLink(keyList[tmp + 1], eol);
        ConcatAssoc(before, PrevLink(keyList[tmp - 1], eol), NextLink(keyList[tmp + 1], eol));
      }
    }
  }

  /** blog_add_pre_next_links: the parent link is appended before list.index can fail,
      so a post without a title keeps that one line when the run stops. */
  method AddPrevNextLinks(post: string, titles: TitleMap, eol: string, store: FileStore)
    returns (r: Result<()>)
    modifies store
    ensures r.Err? <==> Linked(old(store.files), titles.keys, post, eol).Err?
    ensures r.Ok? ==> store.files == Linked(old(store.files), titles.keys, post, eol).value
    ensures r.Err? ==>
      && r.error == NotTitled(post)
      && store.files == old(store.files)[post := old(store.files)[post] + (ParentLink + eol)]
  {
    var present := store.Exists(post);
    if present {
      ghost var body := store.files[post];
      store.Append(post, ParentLink + eol);
      var endPos := |titles.keys|;
      var keyList := titles.keys;
      var found := titles.Index(post);
      if found.None? {
        r := Err(NotTitled(post));
        return;
      }
      var pos := found.value;
      ghost var nav := NavLines(keyList, pos, eol);
      ghost var linked := store.files[post];
      AppendNeighbourLinks(post, keyList, pos, eol, store);
      assert linked == body + nav[0];
      assert JoinLines(nav) == nav[0] + JoinLines(nav[1..]);
      assert store.files[post] == body + JoinLines(nav) by {
        ConcatAssoc(body, nav[0], JoinLines(nav[1..]));
      }
    }
    r := Ok(());
  }

  // ---------------------------------------------------------------------------
  // The index page.

  const IndexHeading: string := "# Categories"
  const HomeLink: string := "* ## [home](../README.md)"

  /** The closing text, written without an end-of-line. */
  const Trailer: string := "                           step by steop"

  function EntryLine(key: string, title: string, eol: string): string
  {
    "* ### [" + title + "](" + key + ")" + eol
  }

  /** One entry per key, in key order. */
  function Entries(keys: seq<string>, titles: map<string, string>, eol: string): (r: seq<string>)
    requires forall i :: 0 <= i < |keys| ==> keys[i] in titles
    ensures |r| == |keys|
    ensures forall i :: 0 <= i < |keys| ==> r[i] == EntryLine(keys[i], titles[keys[i]], eol)
  {
    if keys == [] then []
    else Entries(keys[..|keys| - 1], titles, eol) + [EntryLine(keys[|keys| - 1], titles[keys[|keys| - 1]], eol)]
  }

  /** The pieces write_base_markdown writes, in order. */
  function IndexPage(category: string, t: Table, eol: string): seq<string>
    requires forall i :: 0 <= i < |t.keys| ==> t.keys[i] in t.titles
  {
    IndexHead(category, eol) + Entries(t.keys, t.titles, eol) + [Trailer]
  }

  /** The index page: the heading with the category, the home link, one entry per post in
      the order the posts were first given a title, each with its latest title, and
      the trailing text with no end-of-line. */
  lemma IndexPageShape(category: string, t: Table, eol: string)
    requires t.Valid()
    ensures var page := IndexPage(category, t, eol);
      && |page| == |t.keys| + 3
      && page[0] == "# Categories " + category + eol
      && page[1] == "* ## [home](../README.md)" + eol
      && (forall i :: 0 <= i < |t.keys| ==>
            page[i + 2] == "* ### [" + t.titles[t.keys[i]] + "](" + t.keys[i] + ")" + eol)
      && page[|page| - 1] == "                           step by steop"
  {
  }

  /** After the script clears the map, the next directory's index starts empty. */
  lemma EmptyIndexPage(category: string, eol: string)
    ensures JoinLines(IndexPage(category, Empty, eol))
            == "# Categories " + category + eol + "* ## [home](../README.md)" + eol
               + "                           step by steop"
  {
    var page := IndexPage(category, Empty, eol);
    assert page == [page[0], page[1], page[2]];
    JoinLinesShort(page);
  }

  /** write_base_markdown: opens `path` for writing and writes the page piece by piece. */
  method WriteBaseMarkdown(path: string, titles: TitleMap, category: string, eol: string,
                           store: FileStore)
    requires titles.Valid()
    modifies store
    ensures store.files == old(store.files)[path := JoinLines(IndexPage(category, titles.Value(), eol))]
  {
    ghost var start := store.files;
    WriteIndexHead(path, category, eol, store);
    var keys := titles.keys;
    var names := titles.titles;
    assert forall j :: 0 <= j < |keys| ==> keys[j] in names by {
      assert titles.Value().Valid();
    }
    ghost var head := JoinLines(IndexHead(category, eol));
    ghost var entries := JoinLines(Entries(keys, names, eol));
    WriteEntries(path, keys, names, eol, store);
    UpdatedTwice(start, path, head, head + entries);
    assert store.files == start[path := head + entries];
    store.Append(path, Trailer);
    UpdatedTwice(start, path, head + entries, head + entries + Trailer);
    assert JoinLines(IndexPage(category, titles.Value(), eol)) == head + entries + Trailer by {
      assert titles.Value() == Table(keys, names);
      WrittenPage(category, Table(keys, names), eol);
      JoinLinesAppend(IndexHead(category, eol), Entries(keys, names, eol));
    }
  }

  /** The loop over blog_map.items(): one entry line per key, appended in key order. */
  method WriteEntries(path: string, keys: seq<string>, names: map<string, string>, eol: string,
                      store: FileStore)
    requires path in store.files
    requires forall j :: 0 <= j < |keys| ==> keys[j] in names
    modifies store
    ensures store.files == old(store.files)[path := old(store.files)[path] + JoinLines(Entries(keys, names, eol))]
  {
    ghost var init := store.files;
    ghost var start := init[path];
    ghost var written: string := [];
    assert Entries(keys[..0], names, eol) == [];
    assert store.files == init[path := start + written] by {
      assert start + written == start;
    }
    var i := 0;
    while i < |keys|
      invariant 0 <= i <= |keys|
      invariant written == JoinLines(Entries(keys[..i], names, eol))
      invariant store.files == init[path := start + written]
    {
      var entry := EntryLine(keys[i], names[keys[i]], eol);
      store.Append(path, entry);
      UpdatedTwice(init, path, start + written, start + written + entry);
      ConcatAssoc(start, written, entry);
      WrittenSnoc(keys, names, eol, i);
      written := written + entry;
      i := i + 1;
    }
    assert keys[..i] == keys;
  }

  /** The heading and home link pieces. */
  function IndexHead(category: string, eol: string): seq<string>
  {
    [IndexHeading + " " + category + eol, HomeLink + eol]
  }

  /** The first three writes of write_base_markdown, after opening the file. */
  method WriteIndexHead(path: string, category: string, eol: string, store: FileStore)
    modifies store
    ensures store.files == old(store.files)[path := JoinLines(IndexHead(category, eol))]
  {
    ghost var start := store.files;
    store.Truncate(path);
    store.Append(path, IndexHeading);
    UpdatedTwice(start, path, "", "" + IndexHeading);
    store.Append(path, " " + category + eol);
    UpdatedTwice(start, path, "" + IndexHeading, "" + IndexHeading + (" " + category + eol));
    store.Append(path, HomeLink + eol);
    UpdatedTwice(start, path, "" + IndexHeading + (" " + category + eol),
                 "" + IndexHeading + (" " + category + eol) + (HomeLink + eol));
    JoinLinesShort(IndexHead(category, eol));
    assert "" + IndexHeading + (" " + category + eol) + (HomeLink + eol)
           == JoinLines(IndexHead(category, eol));
  }

  lemma WrittenSnoc(keys: seq<string>, titles: map<string, string>, eol: string, i: nat)
    requires i < |keys| && forall j :: 0 <= j < |keys| ==> keys[j] in titles
    ensures JoinLines(Entries(keys[..i + 1], titles, eol))
            == JoinLines(Entries(keys[..i], titles, eol)) + EntryLine(keys[i], titles[keys[i]], eol)
  {
    var entry := EntryLine(keys[i], titles[keys[i]], eol);
    assert keys[..i + 1][..i] == keys[..i];
    assert Entries(keys[..i + 1], titles, eol) == Entries(keys[..i], titles, eol) + [entry];
    JoinLinesAppend(Entries(keys[..i], titles, eol), [entry]);
    JoinLinesShort([entry]);
  }

  lemma WrittenPage(category: string, t: Table, eol: string)
    requires forall i :: 0 <= i < |t.keys| ==> t.keys[i] in t.titles
    ensures JoinLines(IndexPage(category, t, eol))
            == JoinLines(IndexHead(category, eol) + Entries(t.keys, t.titles, eol)) + Trailer
  {
    JoinLinesAppend(IndexHead(category, eol) + Entries(t.keys, t.titles, eol), [Trailer]);
    JoinLinesShort([Trailer]);
  }
}
