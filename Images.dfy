/** regex_match_replace_img: where an embedded image is moved from and to, and the
    markdown line that replaces the embed reference. */
module Images {
  import opened Text

  /** The configuration the rewriter reads: the image source directory, the source
      image file prefix and suffix, and the end-of-line string. */
  datatype Settings = Settings(imgSrcDir: string, imgSrcPrefix: string, imgSrcSuffix: string, eol: string)

  /** One os.rename request. */
  datatype Move = Move(src: string, dst: string)

  /** The shared destination folder, relative to the post directory. */
  const ImagesDir: string := "../images/"

  /** blog_file_name[0:len(blog_file_name)-3]: the name without its last three
      characters (".md"); Python's negative stop makes a two-character name keep its
      first character and a shorter one give "". */
  function Stem(name: string): (r: string)
    ensures |name| >= 3 ==> name == r + name[|name| - 3..]
    ensures |name| == 2 ==> r == name[..1]
    ensures |name| < 2 ==> r == []
  {
    SliceTo(name, |name| - 3)
  }

  /** The rename regex_match_replace_img performs for image `number` of `post`, with
      the clock reading `stamp`. */
  function ImageMove(number: string, stamp: string, post: string, settings: Settings): Move
  {
    var relocated := Stem(post) + "_" + stamp + "_" + number + settings.imgSrcSuffix;
    Move(settings.imgSrcDir + "/" + settings.imgSrcPrefix + number + settings.imgSrcSuffix,
         ImagesDir + relocated)
  }

  /** The line written in place of an image reference; its extension is always ".png". */
  function EmbedLine(post: string, stamp: string, number: string, eol: string): string
  {
    "![](" + ImagesDir + Stem(post) + "_" + stamp + "_" + number + ".png)" + eol
  }

  lemma CancelAround(p: string, x: string, y: string, q: string)
    ensures p + x + q == p + y + q <==> x == y
  {
    if p + x + q == p + y + q {
      assert |x| == |y|;
      assert x == (p + x + q)[|p|..|p| + |x|];
      assert y == (p + y + q)[|p|..|p| + |y|];
    }
  }

  /** The rewritten post points at the moved image exactly when the configured suffix
      is ".png"; for any other suffix the link is broken. */
  lemma EmbedTargetsMoveIff(number: string, stamp: string, post: string, settings: Settings)
    ensures EmbedLine(post, stamp, number, settings.eol)
            == "![](" + ImageMove(number, stamp, post, settings).dst + ")" + settings.eol
            <==> settings.imgSrcSuffix == ".png"
  {
    var p := "![](" + ImagesDir + Stem(post) + "_" + stamp + "_" + number;
    var q := ")" + settings.eol;
    assert EmbedLine(post, stamp, number, settings.eol) == p + ".png" + q;
    assert "![](" + ImageMove(number, stamp, post, settings).dst + ")" + settings.eol
           == p + settings.imgSrcSuffix + q;
    CancelAround(p, ".png", settings.imgSrcSuffix, q);
  }

  /** Image 7 of foo.md at clock reading T moves from dir/prefix7.png to
      ../images/foo_T_7.png. */
  lemma ImageMoveExample()
    ensures ImageMove("7", "T", "foo.md", Settings("dir", "prefix", ".png", "\n"))
            == Move("dir/prefix7.png", "../images/foo_T_7.png")
  {
    assert Stem("foo.md") == "foo";
    assert "foo" + "_" + "T" + "_" + "7" + ".png" == "foo_T_7.png";
    assert ImagesDir + "foo_T_7.png" == "../images/foo_T_7.png";
    assert "dir" + "/" + "prefix" + "7" + ".png" == "dir/prefix7.png";
  }

  /** Its reference line then reads ![](../images/foo_T_7.png). */
  lemma EmbedLineExample()
    ensures EmbedLine("foo.md", "T", "7", "\n") == "![](../images/foo_T_7.png)\n"
  {
    assert Stem("foo.md") == "foo";
    assert "![](" + ImagesDir == "![](../images/";
    assert "![](../images/" + "foo" + "_" + "T" + "_" + "7" + ".png)" + "\n"
        == "![](../images/foo_T_7.png)\n";
  }
}
