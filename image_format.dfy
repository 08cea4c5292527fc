/** get_format of chiki/utils.py: the image format named by a file name's extension. */
module ImageFormat {
  import opened Text

  /** `name.split('.')[-1]`: the text after the last dot, or all of it. */
  function Extension(name: string): (ext: string)
    ensures '.' !in ext
  {
    var parts := Split(name, '.');
    parts[|parts| - 1]
  }

  lemma DotBeforeTail(front: string, ext: string)
    ensures (front + ['.'] + ext)[|front + ['.'] + ext| - |ext|..] == ext
    ensures (front + ['.'] + ext)[|front + ['.'] + ext| - |ext| - 1] == '.'
  {
  }

  /**
   * The extension is the dot-free tail of the name, and it is preceded by a
   * dot exactly when the name has one.
   */
  lemma ExtensionIsLastSegment(name: string)
    ensures '.' !in Extension(name)
    ensures |Extension(name)| <= |name| && name[|name| - |Extension(name)|..] == Extension(name)
    ensures '.' in name <==> |Extension(name)| < |name| && name[|name| - |Extension(name)| - 1] == '.'
    ensures '.' !in name ==> Extension(name) == name
  {
    var ext := Extension(name);
    if |Split(name, '.')| == 1 {
      JoinSplit(name, '.');
      assert name == ext;
    } else {
      var front := FrontOf(name);
      DotBeforeTail(front, ext);
      assert name[|front|] == '.';
    }
  }

  /** A name that splits into two or more pieces is some text, a dot and its extension. */
  lemma FrontOf(name: string) returns (front: string)
    requires |Split(name, '.')| >= 2
    ensures name == front + ['.'] + Extension(name)
  {
    var parts := Split(name, '.');
    JoinSplit(name, '.');
    JoinLast(parts, '.');
    front := Join(parts[..|parts| - 1], '.');
  }

  /** A dot-free tail after a dot is the extension, whatever precedes the dot. */
  lemma {:induction false} ExtensionAfterLastDot(front: string, ext: string)
    requires '.' !in ext
    ensures Extension(front + ['.'] + ext) == ext
    decreases |front|
  {
    var name := front + ['.'] + ext;
    if front == [] {
      assert name[1..] == ext;
      SplitNoSep(ext, '.');
    } else {
      assert name[1..] == front[1..] + ['.'] + ext;
      ExtensionAfterLastDot(front[1..], ext);
      var rest := Split(name[1..], '.');
      assert |rest| >= 2 by {
        JoinSplit(name[1..], '.');
        assert '.' in name[1..] by { assert name[1..][|front| - 1] == '.'; }
      }
    }
  }

  /** `jpg` and `jpeg` are `jpg`; `gif`, `bmp`, `png` and `ico` are themselves; all else is ''. */
  function GetFormat(image: string): (format: string)
    ensures format in ["jpg", "gif", "bmp", "png", "ico", ""]
    ensures format == "jpg" <==> Extension(image) in ["jpg", "jpeg"]
    ensures Extension(image) in ["gif", "bmp", "png", "ico"] ==> format == Extension(image)
    ensures format != "" && format != "jpg" ==> format == Extension(image)
  {
    var ext := Extension(image);
    if ext in ["jpg", "jpeg"] then "jpg"
    else if ext in ["gif", "bmp", "png", "ico"] then ext
    else ""
  }

  /** `jpeg` is reported as `jpg`, whatever precedes the last dot. */
  lemma GetFormatJpeg(front: string)
    ensures GetFormat(front + ".jpeg") == "jpg"
  {
    ExtensionAfterLastDot(front, "jpeg");
    assert front + ['.'] + "jpeg" == front + ".jpeg";
  }

  /** A name without a dot is its own extension. */
  lemma GetFormatNoDotExample()
    ensures GetFormat("png") == "png"
  {
    SplitNoSep("png", '.');
  }

  /** Only the text after the last dot counts: `x.tar.gz` is a `gz`. */
  lemma GetFormatLastDot(front: string)
    ensures GetFormat(front + ".tar.gz") == ""
  {
    ExtensionAfterLastDot(front + ".tar", "gz");
    assert front + ".tar" + ['.'] + "gz" == front + ".tar.gz";
  }

  /** The comparison is exact: case is not folded. */
  lemma GetFormatUpperCase(front: string)
    ensures GetFormat(front + ".PNG") == ""
  {
    ExtensionAfterLastDot(front, "PNG");
    assert front + ['.'] + "PNG" == front + ".PNG";
  }

  /** The comparison is exact: trailing query text is not cut off. */
  lemma GetFormatQuery(front: string)
    ensures GetFormat(front + ".png?x=1") == ""
  {
    ExtensionAfterLastDot(front, "png?x=1");
    assert front + ['.'] + "png?x=1" == front + ".png?x=1";
  }
}
