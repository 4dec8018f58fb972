/** open_blog_clear_tail_links: the line-by-line rewrite of one post. It records the
    title of line 1, turns image references into embed lines (requesting one image
    move each), and drops everything from the first back-link line on. */
module Rewriter {
  import opened Wrappers
  import opened Text
  import opened Images
  import opened Titles

  /** The back-link the link pass appends; a line holding it ends the post body. */
  const BackLinkMarker: string := "[上一级]"

  /** The word that marks an image reference. */
  const ImageWord: string := "addimage"

  // ---------------------------------------------------------------------------
  // The four fixed regular expressions, as string predicates and extractors.
  // `.` never matches '\n', so the match-anchored ones only see the text before
  // the first '\n'.

  /** The text of the line before its first '\n'. */
  function Segment(line: string): string
  {
    line[..NewlineFrom(line, 0)]
  }

  /** re.match('(.*#.*)', line) succeeds. */
  predicate HasHeadingMark(line: string)
  {
    '#' in Segment(line)
  }

  /** '[^# ].+' matches at k: a character other than '#' and ' ' (a '\n' included)
      followed by at least one character other than '\n'. */
  predicate TitleStartsAt(line: string, k: nat)
  {
    k + 1 < |line| && line[k] != '#' && line[k] != ' ' && line[k + 1] != '\n'
  }

  /** The leftmost position at or after `from` where '[^# ].+' matches. */
  function TitleStart(line: string, from: nat): (r: Option<nat>)
    requires from <= |line|
    ensures r.Some? ==> from <= r.value && TitleStartsAt(line, r.value)
    ensures r.Some? ==> forall m :: from <= m < r.value ==> !TitleStartsAt(line, m)
    ensures r.None? ==> forall m: nat :: from <= m ==> !TitleStartsAt(line, m)
    decreases |line| - from
  {
    if from + 1 >= |line| then None
    else if TitleStartsAt(line, from) then Some(from)
    else TitleStart(line, from + 1)
  }

  /** re.search('[^# ].+', line).group(); None where the script's `.group()` fails. */
  function TitleText(line: string): Option<string>
  {
    match TitleStart(line, 0)
    case None => None
    case Some(k) => Some(line[k..NewlineFrom(line, k + 1)])
  }

  /** The line without its trailing '\n'. */
  function Chomp(line: string): string
  {
    if line != [] && line[|line| - 1] == '\n' then line[..|line| - 1] else line
  }

  /** Number of '#' and ' ' characters that start s. */
  function LeadLength(s: string): (n: nat)
    ensures n <= |s|
    ensures forall k :: 0 <= k < n ==> s[k] == '#' || s[k] == ' '
    ensures n < |s| ==> s[n] != '#' && s[n] != ' '
  {
    if s != [] && (s[0] == '#' || s[0] == ' ') then 1 + LeadLength(s[1..]) else 0
  }

  /** For a line as Python's file iteration yields it ('\n' at most at its end), the
      title is the line from its first character other than '#' and ' ' to the end of
      line, and there is none when that leaves fewer than two characters. */
  lemma TitleIsRestOfLine(line: string)
    requires forall k :: 0 <= k < |line| - 1 ==> line[k] != '\n'
    ensures var body := Chomp(line); var lead := LeadLength(body);
      TitleText(line) == if |body| - lead >= 2 then Some(body[lead..]) else None
  {
    var body := Chomp(line);
    var lead := LeadLength(body);
    assert body == line[..|body|];
    assert forall k :: 0 <= k < |body| ==> body[k] == line[k] && body[k] != '\n';
    assert |body| == |line| || (|body| == |line| - 1 && line[|body|] == '\n');
    if |body| - lead >= 2 {
      assert TitleStartsAt(line, lead);
      forall m | 0 <= m < lead ensures !TitleStartsAt(line, m) {
        assert line[m] == body[m];
      }
      var k := TitleStart(line, 0).value;
      assert k == lead;
      var e := NewlineFrom(line, k + 1);
      assert e == |body|;
      assert line[k..e] == body[lead..];
    } else {
      forall m: nat ensures !TitleStartsAt(line, m) {
        if m < lead { assert line[m] == body[m]; }
      }
    }
  }

  /** "addimage" occurs at i in s. */
  predicate WordAt(s: string, i: nat)
  {
    OccursAt(s, ImageWord, i)
  }

  /** re.match('.*addimage.*\d+', line) succeeds: before the first '\n', "addimage"
      is followed, somewhere later, by a digit. */
  predicate IsImageLine(line: string)
  {
    var seg := Segment(line);
    exists i: nat, k: nat :: i + |ImageWord| <= k < |seg| && WordAt(seg, i) && IsDigit(seg[k])
  }

  /** The leftmost digit at or after `from`. */
  function FirstDigit(line: string, from: nat): (r: Option<nat>)
    requires from <= |line|
    ensures r.Some? ==> from <= r.value < |line| && IsDigit(line[r.value])
    ensures r.Some? ==> forall m :: from <= m < r.value ==> !IsDigit(line[m])
    ensures r.None? ==> forall m :: from <= m < |line| ==> !IsDigit(line[m])
    decreases |line| - from
  {
    if from == |line| then None
    else if IsDigit(line[from]) then Some(from)
    else FirstDigit(line, from + 1)
  }

  /** re.search('\d+', line).group(): the first run of digits anywhere in the line. */
  function Number(line: string): string
  {
    match FirstDigit(line, 0)
    case None => []
    case Some(d) => line[d..d + DigitRunLength(line[d..])]
  }

  /** An image line always yields a number: a non-empty run of digits. (FirstDigit
      and DigitRunLength make it the leftmost digit run, taken whole.) */
  lemma ImageLineNumber(line: string)
    requires IsImageLine(line)
    ensures FirstDigit(line, 0).Some?
    ensures Number(line) != []
    ensures forall k :: 0 <= k < |Number(line)| ==> IsDigit(Number(line)[k])
  {
    var seg := Segment(line);
    var i: nat, k: nat :| i + |ImageWord| <= k < |seg| && WordAt(seg, i) && IsDigit(seg[k]);
    assert seg[k] == line[k];
    var d := FirstDigit(line, 0).value;
    var tail := line[d..];
    assert tail[0] == line[d];
    var run := DigitRunLength(tail);
    assert run >= 1;
    assert Number(line) == tail[..run];
  }

  /** `'[上一级]' in str(line)` */
  predicate HasMarker(line: string)
  {
    Contains(line, BackLinkMarker)
  }

  // ---------------------------------------------------------------------------
  // The state machine, one line at a time.

  /** The rewrite so far: lines written to the temporary file, the title recorded,
      the image moves requested, the clock readings taken, and whether the loop
      has broken off. */
  datatype Scan = Scan(out: seq<string>, title: Option<string>, moves: seq<Move>, images: nat, stopped: bool)

  /** The title branch fires only on line 1 (index 0) and only when it has a '#'. */
  predicate IsTitleLine(i: nat, line: string)
  {
    i == 0 && HasHeadingMark(line)
  }

  /** One pass of the loop body over line i. The k-th image line of the whole run
      (counting from `base`) gets the clock reading clock(k). */
  function Step(st: Scan, i: nat, line: string, post: string, settings: Settings,
                clock: nat -> string, base: nat): Result<Scan>
  {
    if IsTitleLine(i, line) then
      match TitleText(line)
      case None => Err(NoTitleText(post))
      case Some(t) => Ok(st.(out := st.out + [line], title := Some(t)))
    else if IsImageLine(line) then
      var stamp := clock(base + st.images);
      var number := Number(line);
      Ok(st.(out := st.out + [EmbedLine(post, stamp, number, settings.eol)],
             moves := st.moves + [ImageMove(number, stamp, post, settings)],
             images := st.images + 1))
    else if HasMarker(line) then
      Ok(st.(stopped := true))
    else
      Ok(st.(out := st.out + [line]))
  }

  /** The state after the loop has looked at lines[..n]. */
  function ScanLines(post: string, lines: seq<string>, n: nat, settings: Settings,
                     clock: nat -> string, base: nat): Result<Scan>
    requires n <= |lines|
  {
    if n == 0 then Ok(Scan([], None, [], 0, false))
    else
      match ScanLines(post, lines, n - 1, settings, clock, base)
      case Err(e) => Err(e)
      case Ok(st) =>
        if st.stopped then Ok(st) else Step(st, n - 1, lines[n - 1], post, settings, clock, base)
  }

  /** The rewrite of the whole post. */
  function Rewritten(post: string, lines: seq<string>, settings: Settings,
                     clock: nat -> string, base: nat): Result<Scan>
  {
    ScanLines(post, lines, |lines|, settings, clock, base)
  }

  /** Once the loop has failed or broken off, later lines change nothing. */
  lemma {:induction false} ScanSettled(post: string, lines: seq<string>, n: nat, m: nat,
                                       settings: Settings, clock: nat -> string, base: nat)
    requires n <= m <= |lines|
    requires ScanLines(post, lines, n, settings, clock, base).Err? ||
             ScanLines(post, lines, n, settings, clock, base).value.stopped
    ensures ScanLines(post, lines, m, settings, clock, base) == ScanLines(post, lines, n, settings, clock, base)
    decreases m - n
  {
    if m > n {
      ScanSettled(post, lines, n, m - 1, settings, clock, base);
    }
  }

  // ---------------------------------------------------------------------------
  // A closed-form description of the rewrite, and the proof that the loop meets it.

  /** Line i is rewritten as an image embed. */
  predicate IsImageAt(lines: seq<string>, i: nat)
    requires i < |lines|
  {
    !IsTitleLine(i, lines[i]) && IsImageLine(lines[i])
  }

  /** Line i ends the post: a back-link line that is neither the title nor an image. */
  predicate IsStopAt(lines: seq<string>, i: nat)
    requires i < |lines|
  {
    !IsTitleLine(i, lines[i]) && !IsImageLine(lines[i]) && HasMarker(lines[i])
  }

  /** The first line at or after `from` that ends the post, or |lines|. */
  function StopFrom(lines: seq<string>, from: nat): (s: nat)
    requires from <= |lines|
    ensures from <= s <= |lines|
    ensures forall j :: from <= j < s ==> !IsStopAt(lines, j)
    ensures s < |lines| ==> IsStopAt(lines, s)
    decreases |lines| - from
  {
    if from == |lines| || IsStopAt(lines, from) then from else StopFrom(lines, from + 1)
  }

  /** How many image embeds precede line j. */
  function ImagesBefore(lines: seq<string>, j: nat): nat
    requires j <= |lines|
  {
    if j == 0 then 0 else ImagesBefore(lines, j - 1) + (if IsImageAt(lines, j - 1) then 1 else 0)
  }

  /** Line 1 has a '#' but no title text: the script fails on it. */
  predicate TitleFails(lines: seq<string>)
  {
    |lines| > 0 && HasHeadingMark(lines[0]) && TitleText(lines[0]).None?
  }

  /** The title the post gets, if any. */
  function TitleOf(lines: seq<string>): Option<string>
  {
    if |lines| > 0 && HasHeadingMark(lines[0]) then TitleText(lines[0]) else None
  }

  /** What line j becomes. */
  function OutLine(post: string, lines: seq<string>, j: nat, settings: Settings,
                   clock: nat -> string, base: nat): string
    requires j < |lines|
  {
    if IsImageAt(lines, j)
    then EmbedLine(post, clock(base + ImagesBefore(lines, j)), Number(lines[j]), settings.eol)
    else lines[j]
  }

  /** The move image line j requests. */
  function MoveOf(post: string, lines: seq<string>, j: nat, settings: Settings,
                  clock: nat -> string, base: nat): Move
    requires j < |lines|
  {
    ImageMove(Number(lines[j]), clock(base + ImagesBefore(lines, j)), post, settings)
  }

  /** The output lines after n lines, for n up to the first stop line. */
  predicate OutForm(post: string, lines: seq<string>, n: nat, settings: Settings,
                    clock: nat -> string, base: nat, out: seq<string>)
    requires n <= |lines|
  {
    |out| == n && forall j :: 0 <= j < n ==> out[j] == OutLine(post, lines, j, settings, clock, base)
  }

  /** The moves requested after n lines, for n up to the first stop line. */
  predicate MovesForm(post: string, lines: seq<string>, n: nat, settings: Settings,
                      clock: nat -> string, base: nat, moves: seq<Move>)
    requires n <= |lines|
  {
    && |moves| == ImagesBefore(lines, n)
    && forall j :: 0 <= j < n && IsImageAt(lines, j) ==>
         ImagesBefore(lines, j) < |moves| &&
         moves[ImagesBefore(lines, j)] == MoveOf(post, lines, j, settings, clock, base)
  }

  /** The scan state after n lines, for n up to the first stop line, is the closed form. */
  predicate ClosedForm(post: string, lines: seq<string>, n: nat, settings: Settings,
                       clock: nat -> string, base: nat, st: Scan)
    requires n <= |lines|
  {
    && OutForm(post, lines, n, settings, clock, base, st.out)
    && MovesForm(post, lines, n, settings, clock, base, st.moves)
    && st.images == ImagesBefore(lines, n)
    && st.title == (if n > 0 then TitleOf(lines) else None)
  }

  lemma {:induction false} ImagesBeforeMonotone(lines: seq<string>, j: nat, n: nat)
    requires j < n <= |lines| && IsImageAt(lines, j)
    ensures ImagesBefore(lines, j) < ImagesBefore(lines, n)
    decreases n - j
  {
    if n > j + 1 {
      ImagesBeforeMonotone(lines, j, n - 1);
    }
  }

  lemma OutFormExtend(post: string, lines: seq<string>, n: nat, settings: Settings,
                      clock: nat -> string, base: nat, out: seq<string>)
    requires n < |lines| && OutForm(post, lines, n, settings, clock, base, out)
    ensures OutForm(post, lines, n + 1, settings, clock, base,
                    out + [OutLine(post, lines, n, settings, clock, base)])
  {
  }

  lemma MovesFormExtend(post: string, lines: seq<string>, n: nat, settings: Settings,
                        clock: nat -> string, base: nat, moves: seq<Move>)
    requires n < |lines| && MovesForm(post, lines, n, settings, clock, base, moves)
    ensures IsImageAt(lines, n) ==>
      MovesForm(post, lines, n + 1, settings, clock, base,
                moves + [MoveOf(post, lines, n, settings, clock, base)])
    ensures !IsImageAt(lines, n) ==> MovesForm(post, lines, n + 1, settings, clock, base, moves)
  {
    if IsImageAt(lines, n) {
      MovesFormImage(post, lines, n, settings, clock, base, moves);
    } else {
      MovesFormPlain(post, lines, n, settings, clock, base, moves);
    }
  }

  lemma MovesFormImage(post: string, lines: seq<string>, n: nat, settings: Settings,
                       clock: nat -> string, base: nat, moves: seq<Move>)
    requires n < |lines| && IsImageAt(lines, n)
    requires MovesForm(post, lines, n, settings, clock, base, moves)
    ensures MovesForm(post, lines, n + 1, settings, clock, base,
                      moves + [MoveOf(post, lines, n, settings, clock, base)])
  {
    var moves' := moves + [MoveOf(post, lines, n, settings, clock, base)];
    forall j | 0 <= j < n + 1 && IsImageAt(lines, j)
      ensures ImagesBefore(lines, j) < |moves'|
      ensures moves'[ImagesBefore(lines, j)] == MoveOf(post, lines, j, settings, clock, base)
    {
      MoveKeptAt(post, lines, n, settings, clock, base, moves, j);
    }
  }

  /** The move of image line j <= n, once image line n's move is appended. */
  lemma MoveKeptAt(post: string, lines: seq<string>, n: nat, settings: Settings,
                   clock: nat -> string, base: nat, moves: seq<Move>, j: nat)
    requires j <= n < |lines| && IsImageAt(lines, n) && IsImageAt(lines, j)
    requires MovesForm(post, lines, n, settings, clock, base, moves)
    ensures ImagesBefore(lines, j) < |moves| + 1
    ensures (moves + [MoveOf(post, lines, n, settings, clock, base)])[ImagesBefore(lines, j)]
            == MoveOf(post, lines, j, settings, clock, base)
  {
    var m := MoveOf(post, lines, n, settings, clock, base);
    if j < n {
      MoveBefore(post, lines, n, settings, clock, base, moves, j);
      SnocIndex(moves, m, ImagesBefore(lines, j));
    } else {
      assert ImagesBefore(lines, j) == |moves|;
    }
  }

  /** An image line before n has its move among the first n lines' moves. */
  lemma MoveBefore(post: string, lines: seq<string>, n: nat, settings: Settings,
                   clock: nat -> string, base: nat, moves: seq<Move>, j: nat)
    requires j < n <= |lines| && IsImageAt(lines, j)
    requires MovesForm(post, lines, n, settings, clock, base, moves)
    ensures ImagesBefore(lines, j) < |moves|
    ensures moves[ImagesBefore(lines, j)] == MoveOf(post, lines, j, settings, clock, base)
  {
    ImagesBeforeMonotone(lines, j, n);
  }

  lemma SnocIndex<T>(s: seq<T>, x: T, i: nat)
    requires i < |s|
    ensures (s + [x])[i] == s[i]
  {
  }

  lemma MovesFormPlain(post: string, lines: seq<string>, n: nat, settings: Settings,
                       clock: nat -> string, base: nat, moves: seq<Move>)
    requires n < |lines| && !IsImageAt(lines, n)
    requires MovesForm(post, lines, n, settings, clock, base, moves)
    ensures MovesForm(post, lines, n + 1, settings, clock, base, moves)
  {
    forall j | 0 <= j < n + 1 && IsImageAt(lines, j)
      ensures ImagesBefore(lines, j) < |moves|
      ensures moves[ImagesBefore(lines, j)] == MoveOf(post, lines, j, settings, clock, base)
    {
      assert j < n;
    }
  }

  /** One loop pass over a line before the first stop line keeps the closed form. */
  lemma StepKeepsClosedForm(post: string, lines: seq<string>, i: nat, settings: Settings,
                            clock: nat -> string, base: nat, st: Scan)
    requires i < |lines| && !IsStopAt(lines, i) && !TitleFails(lines)
    requires ClosedForm(post, lines, i, settings, clock, base, st) && !st.stopped
    ensures Step(st, i, lines[i], post, settings, clock, base).Ok?
    ensures !Step(st, i, lines[i], post, settings, clock, base).value.stopped
    ensures ClosedForm(post, lines, i + 1, settings, clock, base,
                       Step(st, i, lines[i], post, settings, clock, base).value)
  {
    var line := lines[i];
    var next := Step(st, i, line, post, settings, clock, base);
    var out' := st.out + [OutLine(post, lines, i, settings, clock, base)];
    OutFormExtend(post, lines, i, settings, clock, base, st.out);
    MovesFormExtend(post, lines, i, settings, clock, base, st.moves);
    if IsTitleLine(i, line) {
      var t := TitleText(line).value;
      assert next == Ok(st.(out := out', title := Some(t)));
    } else if IsImageLine(line) {
      assert IsImageAt(lines, i) && st.images == ImagesBefore(lines, i);
      var stamp := clock(base + st.images);
      assert OutLine(post, lines, i, settings, clock, base) == EmbedLine(post, stamp, Number(line), settings.eol);
      assert MoveOf(post, lines, i, settings, clock, base) == ImageMove(Number(line), stamp, post, settings);
      assert next == Ok(st.(out := out',
                            moves := st.moves + [MoveOf(post, lines, i, settings, clock, base)],
                            images := st.images + 1));
    } else {
      assert !HasMarker(line);
      assert next == Ok(st.(out := out'));
    }
  }

  lemma {:induction false} ScanUpToStop(post: string, lines: seq<string>, n: nat, settings: Settings,
                                        clock: nat -> string, base: nat)
    requires n <= StopFrom(lines, 0)
    requires !TitleFails(lines)
    ensures ScanLines(post, lines, n, settings, clock, base).Ok?
    ensures !ScanLines(post, lines, n, settings, clock, base).value.stopped
    ensures ClosedForm(post, lines, n, settings, clock, base, ScanLines(post, lines, n, settings, clock, base).value)
  {
    if n > 0 {
      ScanUpToStop(post, lines, n - 1, settings, clock, base);
      var st := ScanLines(post, lines, n - 1, settings, clock, base).value;
      assert ScanLines(post, lines, n, settings, clock, base)
             == Step(st, n - 1, lines[n - 1], post, settings, clock, base);
      StepKeepsClosedForm(post, lines, n - 1, settings, clock, base, st);
    }
  }

  /** The rewrite, in closed form. It fails exactly when line 1 has a '#' but no title
      text. Otherwise the output keeps the lines before the first back-link line (a
      line that is neither the title nor an image line), each copied verbatim unless
      it is an image line, which becomes the embed of its first digit run with the
      next clock reading; each image line requests one move, in order; and the title
      comes from line 1 alone. */
  lemma RewriteShape(post: string, lines: seq<string>, settings: Settings,
                     clock: nat -> string, base: nat)
    ensures Rewritten(post, lines, settings, clock, base).Err? <==> TitleFails(lines)
    ensures TitleFails(lines) ==> Rewritten(post, lines, settings, clock, base) == Err(NoTitleText(post))
    ensures Rewritten(post, lines, settings, clock, base).Ok? ==>
      ClosedForm(post, lines, StopFrom(lines, 0), settings, clock, base,
                 Rewritten(post, lines, settings, clock, base).value.(title := TitleOf(lines)))
    ensures Rewritten(post, lines, settings, clock, base).Ok? ==>
      Rewritten(post, lines, settings, clock, base).value.title == TitleOf(lines)
  {
    if TitleFails(lines) {
      assert !IsStopAt(lines, 0);
      assert ScanLines(post, lines, 1, settings, clock, base) == Err(NoTitleText(post));
      ScanSettled(post, lines, 1, |lines|, settings, clock, base);
    } else {
      var s := StopFrom(lines, 0);
      ScanUpToStop(post, lines, s, settings, clock, base);
      if s < |lines| {
        var st := ScanLines(post, lines, s, settings, clock, base).value;
        assert ScanLines(post, lines, s + 1, settings, clock, base) == Ok(st.(stopped := true));
        ScanSettled(post, lines, s + 1, |lines|, settings, clock, base);
        if s == 0 {
          assert !HasHeadingMark(lines[0]);
        }
      }
    }
  }

  /** A post whose line 1 is a heading with a title, and with no image reference and
      no back-link line after it, is written back unchanged; it gets line 1's title
      and requests no move. */
  lemma PlainPostUnchanged(post: string, lines: seq<string>, settings: Settings,
                           clock: nat -> string, base: nat)
    requires |lines| > 0 && HasHeadingMark(lines[0]) && TitleText(lines[0]).Some?
    requires forall j :: 1 <= j < |lines| ==> !IsImageLine(lines[j]) && !HasMarker(lines[j])
    ensures Rewritten(post, lines, settings, clock, base)
            == Ok(Scan(lines, TitleText(lines[0]), [], 0, false))
  {
    RewriteShape(post, lines, settings, clock, base);
    var s := StopFrom(lines, 0);
    assert s == |lines|;
    var st := Rewritten(post, lines, settings, clock, base).value;
    ScanUpToStop(post, lines, s, settings, clock, base);
    assert st.out == lines;
    assert forall j :: 0 < j <= |lines| ==> ImagesBefore(lines, j) == 0 by {
      forall j | 0 < j <= |lines| ensures ImagesBefore(lines, j) == 0 {
        NoImagesBefore(lines, j);
      }
    }
  }

  lemma {:induction false} NoImagesBefore(lines: seq<string>, j: nat)
    requires 0 < j <= |lines|
    requires forall i :: 1 <= i < |lines| ==> !IsImageLine(lines[i])
    requires HasHeadingMark(lines[0])
    ensures ImagesBefore(lines, j) == 0
  {
    if j > 1 { NoImagesBefore(lines, j - 1); }
  }

  /** An image line before the first back-link line is replaced by the embed line of
      its first digit run n and its clock reading t, and requests the move of image n
      stamped t; n is never empty. */
  lemma ImageLineRewritten(post: string, lines: seq<string>, j: nat, settings: Settings,
                           clock: nat -> string, base: nat)
    requires j < StopFrom(lines, 0) && IsImageAt(lines, j)
    requires Rewritten(post, lines, settings, clock, base).Ok?
    ensures var st := Rewritten(post, lines, settings, clock, base).value;
      var t := clock(base + ImagesBefore(lines, j));
      var n := Number(lines[j]);
      && n != []
      && j < |st.out| && ImagesBefore(lines, j) < |st.moves|
      && st.out[j] == EmbedLine(post, t, n, settings.eol)
      && st.moves[ImagesBefore(lines, j)] == ImageMove(n, t, post, settings)
  {
    var st := Rewritten(post, lines, settings, clock, base).value;
    RewriteShape(post, lines, settings, clock, base);
    ClosedFormImage(post, lines, StopFrom(lines, 0), settings, clock, base, st.out, st.moves, j);
  }

  /** In the closed form, image line j's output and move are its embed line and rename. */
  lemma ClosedFormImage(post: string, lines: seq<string>, n: nat, settings: Settings,
                        clock: nat -> string, base: nat, out: seq<string>, moves: seq<Move>, j: nat)
    requires j < n <= |lines| && IsImageAt(lines, j)
    requires OutForm(post, lines, n, settings, clock, base, out)
    requires MovesForm(post, lines, n, settings, clock, base, moves)
    ensures var t := clock(base + ImagesBefore(lines, j));
      var num := Number(lines[j]);
      && num != []
      && j < |out| && ImagesBefore(lines, j) < |moves|
      && out[j] == EmbedLine(post, t, num, settings.eol)
      && moves[ImagesBefore(lines, j)] == ImageMove(num, t, post, settings)
  {
    ImageLineNumber(lines[j]);
    var t := clock(base + ImagesBefore(lines, j));
    ImageOutAt(post, lines, n, settings, clock, base, out, j, t);
    ImageMoveAt(post, lines, n, settings, clock, base, moves, j, t);
  }

  lemma ImageOutAt(post: string, lines: seq<string>, n: nat, settings: Settings,
                   clock: nat -> string, base: nat, out: seq<string>, j: nat, t: string)
    requires j < n <= |lines| && IsImageAt(lines, j)
    requires OutForm(post, lines, n, settings, clock, base, out)
    requires t == clock(base + ImagesBefore(lines, j))
    ensures j < |out|
    ensures out[j] == EmbedLine(post, t, Number(lines[j]), settings.eol)
  {
    assert out[j] == OutLine(post, lines, j, settings, clock, base);
    OutLineOfImage(post, lines, j, settings, clock, base);
  }

  lemma OutLineOfImage(post: string, lines: seq<string>, j: nat, settings: Settings,
                       clock: nat -> string, base: nat)
    requires j < |lines| && IsImageAt(lines, j)
    ensures OutLine(post, lines, j, settings, clock, base)
            == EmbedLine(post, clock(base + ImagesBefore(lines, j)), Number(lines[j]), settings.eol)
  {
  }

  lemma ImageMoveAt(post: string, lines: seq<string>, n: nat, settings: Settings,
                    clock: nat -> string, base: nat, moves: seq<Move>, j: nat, t: string)
    requires j < n <= |lines| && IsImageAt(lines, j)
    requires MovesForm(post, lines, n, settings, clock, base, moves)
    requires t == clock(base + ImagesBefore(lines, j))
    ensures ImagesBefore(lines, j) < |moves|
    ensures moves[ImagesBefore(lines, j)] == ImageMove(Number(lines[j]), t, post, settings)
  {
    assert MoveOf(post, lines, j, settings, clock, base) == ImageMove(Number(lines[j]), t, post, settings);
    assert moves[ImagesBefore(lines, j)] == MoveOf(post, lines, j, settings, clock, base);
  }

  /** Lines appended after the first n do not change the state after n lines. */
  lemma {:induction false} ScanLinesPrefix(post: string, a: seq<string>, b: seq<string>, n: nat,
                                           settings: Settings, clock: nat -> string, base: nat)
    requires n <= |a|
    ensures ScanLines(post, a + b, n, settings, clock, base) == ScanLines(post, a, n, settings, clock, base)
  {
    if n > 0 {
      ScanLinesPrefix(post, a, b, n - 1, settings, clock, base);
      assert (a + b)[n - 1] == a[n - 1];
    }
  }

  /** Lines that follow a back-link line are never looked at: the rewrite of
      `lines + extra`, where extra starts with such a line, is the rewrite of `lines`
      broken off there. */
  lemma StopLineEndsRewrite(post: string, lines: seq<string>, extra: seq<string>,
                            settings: Settings, clock: nat -> string, base: nat)
    requires Rewritten(post, lines, settings, clock, base).Ok?
    requires !Rewritten(post, lines, settings, clock, base).value.stopped
    requires extra != [] && !IsTitleLine(|lines|, extra[0])
    requires !IsImageLine(extra[0]) && HasMarker(extra[0])
    ensures Rewritten(post, lines + extra, settings, clock, base)
            == Ok(Rewritten(post, lines, settings, clock, base).value.(stopped := true))
  {
    var all := lines + extra;
    var st := Rewritten(post, lines, settings, clock, base).value;
    ScanLinesPrefix(post, lines, extra, |lines|, settings, clock, base);
    assert all[|lines|] == extra[0];
    assert ScanLines(post, all, |lines| + 1, settings, clock, base) == Ok(st.(stopped := true));
    ScanSettled(post, all, |lines| + 1, |all|, settings, clock, base);
  }

  lemma ScanLinesNext(post: string, lines: seq<string>, i: nat, settings: Settings,
                      clock: nat -> string, base: nat, st: Scan)
    requires i < |lines| && ScanLines(post, lines, i, settings, clock, base) == Ok(st) && !st.stopped
    ensures ScanLines(post, lines, i + 1, settings, clock, base) == Step(st, i, lines[i], post, settings, clock, base)
  {
  }

  // ---------------------------------------------------------------------------
  // The loop itself.

  /** What the rewrite hands back to the caller: the lines for the temporary file,
      the moves it requested, and how many clock readings it took. */
  datatype Rewrite = Rewrite(out: seq<string>, moves: seq<Move>, images: nat)

  /** The loop body for a line that is not the title: an image reference becomes an
      embed line and one move, a back-link line breaks off, anything else is copied. */
  method ScanBodyLine(st: Scan, i: nat, line: string, post: string, settings: Settings,
                      clock: nat -> string, base: nat) returns (next: Scan)
    requires !IsTitleLine(i, line)
    ensures Step(st, i, line, post, settings, clock, base) == Ok(next)
  {
    var found := IsImageLine(line);
    if found {
      var stamp := clock(base + st.images);
      var number := Number(line);
      next := st.(out := st.out + [EmbedLine(post, stamp, number, settings.eol)],
                  moves := st.moves + [ImageMove(number, stamp, post, settings)],
                  images := st.images + 1);
    } else if HasMarker(line) {
      next := st.(stopped := true);
    } else {
      next := st.(out := st.out + [line]);
    }
  }

  /** open_blog_clear_tail_links over the lines of `post`; the title goes into
      `titles` as `blog_map[post] = title`. */
  method ClearTailLinks(post: string, lines: seq<string>, settings: Settings,
                        clock: nat -> string, base: nat, titles: TitleMap)
    returns (r: Result<Rewrite>)
    requires titles.Valid()
    modifies titles
    ensures titles.Valid()
    ensures r == match Rewritten(post, lines, settings, clock, base)
                 case Err(e) => Err(e)
                 case Ok(st) => Ok(Rewrite(st.out, st.moves, st.images))
    ensures titles.Value() ==
      match Rewritten(post, lines, settings, clock, base)
      case Ok(Scan(_, Some(t), _, _, _)) => old(titles.Value()).Put(post, t)
      case _ => old(titles.Value())
  {
    var out: seq<string> := [];
    var moves: seq<Move> := [];
    var images: nat := 0;
    var title: Option<string> := None;
    var found := false;
    var counter := 0;
    var i := 0;
    while i < |lines|
      invariant 0 <= i <= |lines| && counter == i
      invariant ScanLines(post, lines, i, settings, clock, base) == Ok(Scan(out, title, moves, images, false))
      invariant titles.Valid()
      invariant titles.Value() ==
        if title.Some? then old(titles.Value()).Put(post, title.value) else old(titles.Value())
      invariant i > 0 || title.None?
    {
      var line := lines[i];
      var before := Scan(out, title, moves, images, false);
      ScanLinesNext(post, lines, i, settings, clock, base, before);
      found := HasHeadingMark(line);
      counter := counter + 1;
      if found && counter == 1 {
        var searched := TitleText(line);
        if searched.None? {
          assert ScanLines(post, lines, 1, settings, clock, base) == Err(NoTitleText(post));
          ScanSettled(post, lines, 1, |lines|, settings, clock, base);
          r := Err(NoTitleText(post));
          return;
        }
        titles.Put(post, searched.value);
        title := searched;
        out := out + [line];
        assert Step(before, i, line, post, settings, clock, base) == Ok(Scan(out, title, moves, images, false));
      } else {
        var next := ScanBodyLine(before, i, line, post, settings, clock, base);
        if next.stopped {
          ScanSettled(post, lines, i + 1, |lines|, settings, clock, base);
          break;
        }
        out, moves, images := next.out, next.moves, next.images;
      }
      i := i + 1;
    }
    assert Rewritten(post, lines, settings, clock, base).Ok?;
    assert Rewritten(post, lines, settings, clock, base).value.title == title;
    r := Ok(Rewrite(out, moves, images));
  }
}
