# auto_tools in Dafny

`auto_tools.py` maintains a directory-per-category Markdown blog. It handles each
configured directory in four steps:

1. **List.** It lists the posts: every file that `os.walk` reports for the directory
   itself, except `README.md`. The folder test skips any walked folder whose name is
   longer than two characters and starts with '.'. Because the walk starts at `.`,
   that skips every sub-folder (`./drafts` too), not only hidden ones. It sorts the
   posts with `cmp_items`. That comparison puts names with a numeric `NNN_` prefix
   first, in prefix order, and sorts the rest as strings.
2. **Rewrite.** It rewrites every post line by line (`open_blog_clear_tail_links`):
   - it records the title of line 1 in the shared `blog_map`;
   - each line where `addimage` is followed by a digit becomes an embed line. The
     image number `N` is the first run of digits anywhere in that line, so
     `1. addimage 5` names image 1. Image `N` is renamed into `../images/` under a
     time-stamped name;
   - everything from the first `[上一级]` back-link line on is dropped.
3. **Link.** It appends the navigation to every post (`blog_add_pre_next_links`): a
   link to the index, then links to the previous and next post in `blog_map` order.
4. **Index.** It writes the directory's `README.md` index page (`write_base_markdown`)
   and clears the map.

The model follows the script's structure, one module per concern:

| module | models |
|---|---|
| `Wrappers` | `Option` and `Result`. The failures the script can hit become error values: a comparison with no answer, a missing file, a heading with no title text, and a post with no title-map entry. |
| `Text` | Python's string order, `in` on strings, slice bounds, `int()` of digits, and the lines that iterating a text file yields. |
| `NameOrder` | `cmp_items`, as a function that can return no answer. |
| `Listing` | `get_dir_file`, as a specification function and as a method with the script's loops. |
| `Images` | The paths of `regex_match_replace_img` and the embed line. |
| `Titles` | `blog_map`: an insertion-ordered dict, modelled as a class whose methods update it in place, plus `list.index`. |
| `Rewriter` | `open_blog_clear_tail_links`, as a line state machine. It is given a closed form, and the loop itself is a method. |
| `Store` | The directory's files, as a map from path to content, behind a class with `open`/`write`/`os.remove`/`os.rename`. |
| `Links` | `blog_add_pre_next_links` and `write_base_markdown`. |
| `Driver` | One directory (list, pass 1, pass 2, index page, clear) and the loop over the configured directories. Each is both a specification function and a method over the mutable title map and file store. |

Paths in source cells are relative to the repository root.

## Model

| member | source | states |
|---|---|---|
| Text.LexLessIsFirstDifference | auto_tools.py:61-64 | Python's `a < b` on strings holds iff a is a proper prefix of b, or the first position where they differ has the smaller character in a. |
| Text.LexLessTotal | auto_tools.py:61-64 | Two different strings are always ordered one way or the other. |
| Text.LexLessTransitive | auto_tools.py:61-64 | String order is transitive. |
| Text.JoinSplitLines | auto_tools.py:125 | Writing back every line that file iteration yields reproduces the text exactly; this matches the script for text without '\r'. |
| Text.SplitJoinLines | auto_tools.py:125 | Whole lines (no '\n' before the end) that are written out and read back come back as the same lines, for text without '\r'. |
| NameOrder.NumericPrefixIsMatch | auto_tools.py:42-49 | A name has a numeric prefix iff `^\d+_` matches it, and the prefix value is `int()` of the matched digits. |
| NameOrder.Compare | auto_tools.py:41-64 | Whenever `cmp_items` answers, the answer is -1 or 1. |
| NameOrder.CompareByPrefixValue | auto_tools.py:47-55 | Two prefixed names are ordered by the numeric value of their prefixes, and get no answer when the values are equal. |
| NameOrder.TwoBeforeTen | auto_tools.py:47-55 | `2_x` sorts before `10_x`, although `10_x` is smaller as a string. |
| NameOrder.PrefixedFirst | auto_tools.py:56-59 | A prefixed name sorts before an unprefixed one, from either side. |
| NameOrder.UnprefixedByString | auto_tools.py:60-64 | Two unprefixed names compare as strings, and get no answer only when they are equal. |
| NameOrder.CompareUndefinedIffTied | auto_tools.py:52-64 | `cmp_items` falls off its end exactly for equal prefix values or for identical unprefixed names. |
| NameOrder.CompareSelfUndefined | auto_tools.py:60-64 | No name compares with itself. |
| NameOrder.CompareAntisymmetric | auto_tools.py:41-64 | Swapping the arguments negates the answer and keeps a missing answer missing. |
| NameOrder.BeforeTransitive | auto_tools.py:41-64 | The order `cmp_items` defines is transitive. |
| Listing.KeptMembers | auto_tools.py:76-79 | A filename is kept from a folder iff it is in the folder and is not `README.md`. |
| Listing.EligibleMembers | auto_tools.py:68-79 | A name is collected iff some walked folder that is not skipped (name longer than two characters starting with '.') lists it, and it is not `README.md`. |
| Listing.Insert | auto_tools.py:80 | Inserting a name adds exactly that name to the multiset of names. |
| Listing.SortNames | auto_tools.py:80 | Sorting permutes the names. |
| Listing.SortNamesSorted | auto_tools.py:80 | When every pair of names compares, the sort leaves them in strictly increasing `cmp_items` order. |
| Listing.SortedUnique | auto_tools.py:80 | Two strictly sorted arrangements of the same names are equal, so the sorted listing is determined by its names. |
| Listing.ListFilesCorrect | auto_tools.py:66-82 | The listing succeeds iff every pair of collected names compares. It is then sorted, is a permutation of the collected names, and holds no `README.md`. A name is listed iff some folder that is not skipped holds it. |
| Listing.ListedNamesDistinct | auto_tools.py:80 | A listing that succeeded names no file twice. |
| Listing.GetDirFile | auto_tools.py:66-82 | The loops over the walk and the sort compute the listing. |
| Images.Stem | auto_tools.py:91 | `name[0:len(name)-3]` removes the last three characters of a name of length at least 3. A name of length 2 keeps its first character, and a shorter name gives "". |
| Images.EmbedTargetsMoveIff | auto_tools.py:140-142 | The embed line points at the renamed image iff the configured image suffix is `.png`. |
| Images.ImageMoveExample | auto_tools.py:90-98 | Image 7 of `foo.md` stamped T moves from `dir/prefix7.png` to `../images/foo_T_7.png`. |
| Images.EmbedLineExample | auto_tools.py:140-142 | The embed line for image 7 of `foo.md` stamped T is `![](../images/foo_T_7.png)` followed by the end of line. |
| Titles.IndexIn | auto_tools.py:159-160 | `list.index` gives the first position holding the key, and gives none iff the key is absent. |
| Titles.IndexInAppend | auto_tools.py:159-160 | Appending keys does not move the first occurrence of a key already present. |
| Titles.PutKeepsOrder | auto_tools.py:131 | `d[k] = v` keeps the dict well formed and maps k to v. Its keys afterwards are exactly the old keys and k, so the key list grows by one only for a new k. It leaves every other entry alone and moves no existing key. A new key goes last. |
| Titles.TitleMap.constructor | auto_tools.py:188 | A new map is empty and well formed. |
| Titles.TitleMap.Put | auto_tools.py:131 | The map becomes its old value with k set to v. |
| Titles.TitleMap.Clear | auto_tools.py:206 | The map becomes empty. |
| Titles.TitleMap.Index | auto_tools.py:159-160 | The loop finds the key's first position in insertion order, or reports that it is absent. |
| Rewriter.TitleStart | auto_tools.py:129 | `re.search('[^# ].+')` finds the leftmost position where the pattern matches, or reports that none matches. |
| Rewriter.LeadLength | auto_tools.py:129 | The run of '#' and ' ' at the start of a line is maximal. |
| Rewriter.TitleIsRestOfLine | auto_tools.py:128-130 | For a line read from a file, the title is the rest of the line after its leading '#' and ' ' characters. There is none when fewer than two characters remain, which is where `.group()` fails. |
| Rewriter.FirstDigit | auto_tools.py:137-138 | The search finds the leftmost digit of the line, or reports that there is none. |
| Rewriter.ImageLineNumber | auto_tools.py:134-138 | On a line that `.*addimage.*\d+` matches, the number search always finds a non-empty run of digits. |
| Rewriter.ScanSettled | auto_tools.py:125-146 | Once the loop has failed or broken off, later lines change nothing. |
| Rewriter.StopFrom | auto_tools.py:144-145 | It finds the first back-link line that is neither the title line nor an image line. |
| Rewriter.StepKeepsClosedForm | auto_tools.py:125-146 | One pass of the loop body over a line before the first back-link line keeps the output, the moves, the clock count and the title in closed form. |
| Rewriter.ScanUpToStop | auto_tools.py:125-146 | Up to the first back-link line, the loop neither fails nor stops, and its state is the closed form. |
| Rewriter.RewriteShape | auto_tools.py:125-146 | The rewrite fails iff line 1 has a '#' but no title text. Otherwise it keeps the lines before the first back-link line, each verbatim or, for an image line, as its embed line with the next clock reading. Each image requests one move, in order, and the title is line 1's. |
| Rewriter.PlainPostUnchanged | auto_tools.py:125-146 | A titled post with no image reference and no back-link line is written back unchanged and requests no move. |
| Rewriter.ImageLineRewritten | auto_tools.py:134-143 | An image line becomes the embed line of its first digit run and its clock reading, and requests the matching move at its position among the moves. |
| Rewriter.ScanLinesPrefix | auto_tools.py:125 | Lines after the first n do not affect the state after n lines. |
| Rewriter.StopLineEndsRewrite | auto_tools.py:144-145 | A back-link line ends the rewrite: lines after it are never looked at. |
| Rewriter.ScanBodyLine | auto_tools.py:134-146 | The loop body for a non-title line is one step of the state machine. |
| Rewriter.ClearTailLinks | auto_tools.py:113-146 | The loop computes the rewrite, failing exactly where it fails. The title map gets the post's title when line 1 carried one, and is otherwise unchanged. |
| Store.Renamed | auto_tools.py:151 | In the map model, where every folder exists, `os.rename` fails iff the source is missing. Otherwise the destination gets the source's content, the source is gone, and no other file changes. |
| Store.Removed | auto_tools.py:150 | `os.remove` fails iff the file is missing. Otherwise it deletes that file and nothing else. |
| Store.ApplyMovesFrame | auto_tools.py:98 | Image renames leave every path they do not name untouched. |
| Store.ApplyMovesSucceeds | auto_tools.py:98 | Renames of existing images to fresh, distinct destinations all succeed. |
| Store.FileStore.constructor | auto_tools.py:193 | The store starts with the directory's files. |
| Store.FileStore.Exists | auto_tools.py:12-13 | It reports whether the file exists. |
| Store.FileStore.Read | auto_tools.py:119 | It returns the file's content, or fails iff the file is missing. |
| Store.FileStore.Truncate | auto_tools.py:121 | Opening for writing makes the file empty. |
| Store.FileStore.Append | auto_tools.py:155-156 | Opening for appending adds the text to the end, creating a missing file. |
| Store.FileStore.Remove | auto_tools.py:150 | It removes the file as `Removed` says, and fails on a missing file with no change. |
| Store.FileStore.Rename | auto_tools.py:151 | It renames as `Renamed` says, and fails on a missing source with no change. |
| Store.FileStore.MoveAll | auto_tools.py:98 | The post's image renames are applied in order, and it stops at the first that fails. |
| Links.NavLines | auto_tools.py:156-180 | A post gets one to three navigation lines. |
| Links.NavLinesCases | auto_tools.py:165-180 | All navigation starts with the parent link. The first post links only forward (and not at all when it is alone), the last only back, and the others both ways. |
| Links.NavLinesChain | auto_tools.py:165-180 | Neighbours link to each other: the post at i names the one at i+1 as next, and that one names the post at i as previous. |
| Links.LinkedAppends | auto_tools.py:153-181 | Linking fails iff the post exists but has no title-map key. Otherwise it only appends to the post and leaves every other file alone. |
| Links.AppendNeighbourLinks | auto_tools.py:165-180 | The script's three position cases append exactly the neighbour links. |
| Links.AddPrevNextLinks | auto_tools.py:153-181 | It computes the link step, and fails exactly where it fails. On failure the post keeps the parent link, which was already written. |
| Links.Entries | auto_tools.py:107-108 | There is one entry line per key, in key order, with that key's title. |
| Links.IndexPageShape | auto_tools.py:102-110 | The index page is the heading with the category, the home link, one entry per post in insertion order with its latest title, and the trailer with no end-of-line. |
| Links.EmptyIndexPage | auto_tools.py:102-110 | With an empty map, the page is the heading, the home link and the trailer. |
| Links.WriteBaseMarkdown | auto_tools.py:102-110 | The file holds exactly the index page afterwards. No other file changes. |
| Links.WriteEntries | auto_tools.py:107-108 | The loop appends the entry lines in key order. |
| Links.WriteIndexHead | auto_tools.py:103-106 | The file is truncated and holds the heading and the home link. |
| Links.WrittenSnoc | auto_tools.py:107-108 | Writing one more entry appends that entry's line. |
| Driver.DirectoryRun | auto_tools.py:192-206 | A directory that runs to the end has its index page and leaves the title map empty. |
| Driver.RewritePostValid | auto_tools.py:197-198 | Rewriting a post keeps the title map well formed. |
| Driver.RewriteAllValid | auto_tools.py:197-198 | Pass 1 keeps the title map well formed. |
| Driver.RewritePostEffect | auto_tools.py:119-151 | A rewritten post holds exactly the rewrite's output and `tmp.md` is gone. The map gains the post's title if it has one, and the clock count grows by its images. Every file not named by the post, `tmp.md` or a move is unchanged. |
| Driver.RewritePostKeys | auto_tools.py:131 | Rewriting a post adds at most that post to the map's keys, at the end. |
| Driver.InListingOrderListed | auto_tools.py:197-198 | Keys in listing order are listed posts. |
| Driver.InListingOrderMeaning | auto_tools.py:197-198 | With distinct posts, keys in listing order are listed posts whose listing positions strictly increase. |
| Driver.KeysGrowInOrder | auto_tools.py:197-198 | Adding at most the current post keeps the keys in listing order. |
| Driver.TitleKeysStep | auto_tools.py:197-198 | Rewriting the next listed post keeps the map's keys in listing order. |
| Driver.TitleKeysFollowListing | auto_tools.py:197-198 | Pass 1 from an empty map leaves its keys in listing order, so neighbour links follow the sorted listing. |
| Driver.RewriteAllKeys | auto_tools.py:197-198 | Each post of pass 1 adds at most itself to the keys. |
| Driver.LinkAllEffect | auto_tools.py:199-201 | Pass 2 over distinct posts appends to each existing listed post its own navigation. No other file changes. |
| Driver.UntitledPostStopsLinking | auto_tools.py:160 | Pass 2 succeeds iff every existing listed post has a title. When it fails, the error names such a post. |
| Driver.DirectoryRunIndex | auto_tools.py:196-206 | After a successful directory run, `README.md` holds the index page of the map that pass 1 built. The map's keys are listed posts in listing order, every listed post still present after pass 1 is among them, and the map ends empty. |
| Driver.LinkedPostsTitled | auto_tools.py:199-201 | When pass 2 over distinct posts runs to the end, every listed post that exists has a title-map key. |
| Driver.NavigationStops | auto_tools.py:144-145 | The parent link line is neither a heading nor an image line, and it holds the back-link marker. |
| Driver.NavigationSplits | auto_tools.py:156 | Read back, a post with navigation appended yields its own lines followed by one line per navigation line. |
| Driver.NavigationDroppedOnRerun | auto_tools.py:144-145 | Running the script again drops the navigation appended to a '\n'-terminated post, so the rerun sees only the post's own lines. |
| Driver.UnterminatedLastLineLost | auto_tools.py:125-146 | For a post not ending in '\n', the rerun also loses the last line, which the parent link is glued onto. This holds unless the glued line is an image line, or it is line 1 and holds a '#'. |
| Driver.HeadingLastLineKeepsLink | auto_tools.py:125-131 | A one-line heading post not ending in '\n' keeps its line on the rerun, with the parent link glued on. Its recorded title becomes the heading text followed by the parent link, and the neighbour links after it are copied when they are neither image lines nor back links. |
| Driver.GluedParentLinkStops | auto_tools.py:144-145 | A line of plain text with the parent link glued onto it ends the rewrite. |
| Driver.GluedLinkSplits | auto_tools.py:155-156 | Read back, the post's last line (any text without '\n') and the glued parent link form one line, between the post's whole lines and the other navigation lines. |
| Driver.RewriteAllFails | auto_tools.py:197-198 | After pass 1 fails, later posts change nothing. |
| Driver.LinkAllFails | auto_tools.py:199-201 | After pass 2 fails, later posts change nothing. |
| Driver.RunDirsFails | auto_tools.py:192-206 | After a directory fails, later directories change nothing. |
| Driver.RunDirs | auto_tools.py:192-206 | A successful run leaves one file set per directory, each with its index page. |
| Driver.RewriteFile | auto_tools.py:113-151 | It computes `RewritePost` on the store and the map, failing exactly where it fails. |
| Driver.RewriteLoaded | auto_tools.py:125-151 | It computes the rewrite, the moves and the swap for the lines read. |
| Driver.Commit | auto_tools.py:139-151 | It applies the image renames, then swaps `tmp.md` in for the post. |
| Driver.SwapIn | auto_tools.py:147-151 | `tmp.md` holds the output, and then the post is removed and `tmp.md` is renamed to it. |
| Driver.ProcessDirectory | auto_tools.py:196-206 | The body of the main loop computes `DirectoryRun`, failing exactly where it fails. |
| Driver.RewritePass | auto_tools.py:197-198 | The loop computes pass 1. |
| Driver.LinkPass | auto_tools.py:199-201 | The loop computes pass 2 and only reads the map. |
| Driver.Run | auto_tools.py:192-206 | The main loop computes `RunDirs`, with one map shared by all directories and cleared after each. |

## Left out

- `read_config` (lines 15-39) is not modelled. Its XML parsing and the choice of end-of-line by platform become a `Settings` parameter. On a platform other than Windows or Linux the script never sets `end_of_line_seq`, and that case is not modelled.
- The deletion sweep of the original images (lines 209-213) is not modelled. It needs the `delete_ori_img_regex` setting, which is a general regular expression.
- Text.SplitLines: does not model text-mode newline translation or decoding. Posts are opened in text mode, so Python decodes UTF-8 and turns "\r\n" and a lone "\r" into "\n" before the loop sees a line. The model splits only on '\n', so it agrees with the script on text without '\r'. A post with CRLF endings keeps "\r" in the model (and in a title read from it) where the script drops it, and a UTF-8 decoding error is not modelled.
- Text.JoinSplitLines: the round trip is exact on the model's text, which equals the script's only for text without '\r'. A post with "\r\n" endings is written back with "\n" endings by the script, which the model does not capture.
- Regular expressions are modelled only as the four fixed patterns the core uses, each written out as a predicate.
- `os.walk` is a parameter: the list of (folder, filenames) entries it would report. Sub-folder names are left out because the script only logs them.
- Files are a map from path to content. There is no path normalisation, so `../images/x` and `dir/x` are distinct keys. Renaming over an existing file replaces it, as on POSIX systems. Folders are not modelled: `../images` is assumed to exist, although the script never creates it and `os.rename` into it fails when it is missing.
- Store.FileStore.constructor: each configured directory is processed against its own file map, given as input. Image files are therefore not shared between directories, and `chdir` is not modelled.
- Rewriter.ClearTailLinks: it returns the image renames in order, and `Driver.Commit` applies them after the loop. The script renames each image inside the loop, while `tmp.md` is still open. The end result is the same when every rename succeeds. When one fails, the model reports the error but not the half-written `tmp.md` the script would leave behind.
- Driver.RewriteFile: on any error, only the error is modelled, not the files at the moment the script raises.
- The clock (`current_data_time`, lines 84-87) is a function from the number of readings taken so far to a stamp, so two image lines may get equal or different stamps.
- Logging is left out.
- Listing.ListFiles: the outcome of `sorted` with a comparison that can return None is abstracted. The listing is an error iff some pair of collected names gets no answer from `cmp_items`. That happens for two names with equal numeric prefixes, and for a name collected twice. Python's sort raises a TypeError when it happens to compare such a pair. It always does so here, because the order is otherwise total and the tied names end up adjacent.
- Rewriter.IsImageLine and Rewriter.FirstDigit treat only the ASCII digits as digits. Python's `\d` on `str` also matches other Unicode decimal digits.
- Links.AddPrevNextLinks: the check `pos >= endPos` (lines 161-163) cannot fire, because `list.index` either returns a valid position or raises. It is therefore not modelled. The raising case is the `NotTitled` error.
- Links.WriteBaseMarkdown: a category whose text is None is not modelled.
