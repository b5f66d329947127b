/** `lessons/kmath.js`: the browser script that turns each lesson of
    `kmath.json` into a link on the page and a downloaded HTML file, both named
    `lesson-<title, each whitespace run replaced by '-', lower-cased>.html`. */
module LessonSlug {
  import opened Content

  /** A lesson record of `kmath.json`. */
  datatype SiteLesson = SiteLesson(
    title: string,
    browserTitle: string,
    intro: string,
    videoLink: string,
    lessonContent: string,
    keyPoints: seq<string>)

  /** The parts of a generated page that come from the lesson record. */
  datatype SitePage = SitePage(
    title: string,
    heading: string,
    intro: string,
    video: string,
    content: string,
    keyPoints: string)

  /** A page the script makes the browser download, and the file name it gets. */
  datatype Download = Download(fileName: string, page: SitePage)

  // ---------------------------------------------------------------------------
  // The slug

  /** The characters the regular-expression class `\s` matches: the ECMAScript
      white space and line terminators. */
  predicate IsJsSpace(c: char)
  {
    var n := c as int;
    || 0x09 <= n <= 0x0D || n == 0x20 || n == 0xA0 || n == 0x1680
    || 0x2000 <= n <= 0x200A || n == 0x2028 || n == 0x2029
    || n == 0x202F || n == 0x205F || n == 0x3000 || n == 0xFEFF
  }

  predicate NoSpace(s: string)
  {
    forall i | 0 <= i < |s| :: !IsJsSpace(s[i])
  }

  predicate IsUpper(c: char) { 'A' <= c <= 'Z' }

  predicate NoUpper(s: string)
  {
    forall i | 0 <= i < |s| :: !IsUpper(s[i])
  }

  /** `s` without its leading run of white space. */
  function DropSpaces(s: string): (r: string)
    ensures |r| <= |s| && r == s[|s| - |r|..]
    ensures forall i | 0 <= i < |s| - |r| :: IsJsSpace(s[i])
    ensures |r| > 0 ==> !IsJsSpace(r[0])
  {
    if |s| > 0 && IsJsSpace(s[0]) then DropSpaces(s[1..]) else s
  }

  /** The global replacement of `\s+` by '-': every maximal run of white space becomes one
      '-'; the result holds no white space and is never longer. */
  function ReplaceSpaceRuns(s: string): (r: string)
    ensures NoSpace(r) && |r| <= |s|
    decreases |s|
  {
    if |s| == 0 then ""
    else if IsJsSpace(s[0]) then "-" + ReplaceSpaceRuns(DropSpaces(s[1..]))
    else [s[0]] + ReplaceSpaceRuns(s[1..])
  }

  function LowerChar(c: char): (d: char)
  {
    if IsUpper(c) then (c as int - 'A' as int + 'a' as int) as char else c
  }

  /** `toLowerCase()` restricted to the ASCII letters: each capital becomes the
      small letter at the same place in the alphabet, every other character
      stays. */
  function ToLower(s: string): (r: string)
    ensures |r| == |s| && NoUpper(r)
    ensures forall i | 0 <= i < |s| ::
      && (!IsUpper(s[i]) ==> r[i] == s[i])
      && (IsUpper(s[i]) ==> 'a' <= r[i] <= 'z' && r[i] as int - 'a' as int == s[i] as int - 'A' as int)
    ensures forall i | 0 <= i < |s| :: IsJsSpace(r[i]) == IsJsSpace(s[i])
    ensures NoUpper(s) ==> r == s
  {
    seq(|s|, i requires 0 <= i < |s| => LowerChar(s[i]))
  }

  /** The title with its white-space runs replaced and then lower-cased. */
  function Normalize(title: string): (r: string)
    ensures NoSpace(r) && NoUpper(r)
  {
    ToLower(ReplaceSpaceRuns(title))
  }

  /** The link target and the download name of a lesson page. */
  function Slug(title: string): (r: string)
    ensures NoSpace(r)
    ensures |r| >= 12 && r[..7] == "lesson-" && r[|r| - 5..] == ".html"
  {
    "lesson-" + Normalize(title) + ".html"
  }

  // ---------------------------------------------------------------------------
  // What the replacement does, piece by piece

  lemma {:induction false} DropSpacesSplit(a: string, c: char, b: string)
    requires !IsJsSpace(c)
    ensures DropSpaces(a + [c] + b) == DropSpaces(a) + [c] + b
  {
    var s := a + [c] + b;
    if |a| == 0 {
      assert s[0] == c;
    } else if IsJsSpace(a[0]) {
      assert s[0] == a[0] && s[1..] == a[1..] + [c] + b;
      DropSpacesSplit(a[1..], c, b);
    } else {
      assert s[0] == a[0];
    }
  }

  /** A character that is not white space ends every run: the text on either
      side of it is replaced independently. */
  lemma {:induction false} ReplaceSplit(a: string, c: char, b: string)
    requires !IsJsSpace(c)
    ensures ReplaceSpaceRuns(a + [c] + b) == ReplaceSpaceRuns(a) + [c] + ReplaceSpaceRuns(b)
    decreases |a|, 1
  {
    if |a| == 0 {
      var s := a + [c] + b;
      assert s[0] == c && s[1..] == b;
    } else if IsJsSpace(a[0]) {
      ReplaceSplitAfterRun(a, c, b);
    } else {
      ReplaceSplitAfterChar(a, c, b);
    }
  }

  lemma {:induction false} ReplaceSplitAfterRun(a: string, c: char, b: string)
    requires !IsJsSpace(c) && |a| > 0 && IsJsSpace(a[0])
    ensures ReplaceSpaceRuns(a + [c] + b) == ReplaceSpaceRuns(a) + [c] + ReplaceSpaceRuns(b)
    decreases |a|, 0
  {
    var rest := DropSpaces(a[1..]);
    RunThenChar(a, c, b);
    ReplaceSplit(rest, c, b);
    RunAlone(a);
    DashConcat(ReplaceSpaceRuns(rest), c, ReplaceSpaceRuns(b));
  }

  /** The run that opens `a` ends at `c`: it becomes '-' and the replacement
      goes on after it. */
  lemma RunThenChar(a: string, c: char, b: string)
    requires !IsJsSpace(c) && |a| > 0 && IsJsSpace(a[0])
    ensures ReplaceSpaceRuns(a + [c] + b) == "-" + ReplaceSpaceRuns(DropSpaces(a[1..]) + [c] + b)
  {
    var s := a + [c] + b;
    assert s[0] == a[0] && s[1..] == a[1..] + [c] + b;
    DropSpacesSplit(a[1..], c, b);
  }

  lemma RunAlone(a: string)
    requires |a| > 0 && IsJsSpace(a[0])
    ensures ReplaceSpaceRuns(a) == "-" + ReplaceSpaceRuns(DropSpaces(a[1..]))
  {
  }

  lemma DashConcat(x: string, c: char, y: string)
    ensures "-" + (x + [c] + y) == ("-" + x) + [c] + y
  {
  }

  lemma {:induction false} ReplaceSplitAfterChar(a: string, c: char, b: string)
    requires !IsJsSpace(c) && |a| > 0 && !IsJsSpace(a[0])
    ensures ReplaceSpaceRuns(a + [c] + b) == ReplaceSpaceRuns(a) + [c] + ReplaceSpaceRuns(b)
    decreases |a|, 0
  {
    var s := a + [c] + b;
    assert s[0] == a[0] && s[1..] == a[1..] + [c] + b;
    ReplaceSplit(a[1..], c, b);
    var x, y := ReplaceSpaceRuns(a[1..]), ReplaceSpaceRuns(b);
    assert ReplaceSpaceRuns(s) == [a[0]] + (x + [c] + y);
    assert [a[0]] + (x + [c] + y) == ([a[0]] + x) + [c] + y;
  }

  /** A run of white space, however long, becomes a single '-'. */
  lemma {:induction false} ReplaceRun(w: string)
    requires |w| > 0 && forall i | 0 <= i < |w| :: IsJsSpace(w[i])
    ensures ReplaceSpaceRuns(w) == "-"
  {
    AllSpacesDropped(w[1..]);
  }

  lemma {:induction false} AllSpacesDropped(w: string)
    requires forall i | 0 <= i < |w| :: IsJsSpace(w[i])
    ensures DropSpaces(w) == []
  {
    if |w| > 0 {
      AllSpacesDropped(w[1..]);
    }
  }

  /** The replacement leaves a string unchanged exactly when it holds no white
      space. */
  lemma {:induction false} ReplaceFixedPoint(s: string)
    ensures ReplaceSpaceRuns(s) == s <==> NoSpace(s)
  {
    if NoSpace(s) && |s| > 0 {
      ReplaceFixedPoint(s[1..]);
      assert s == [s[0]] + s[1..];
    }
  }

  /** Normalising a normalised title changes nothing. */
  lemma NormalizeIdempotent(title: string)
    ensures Normalize(Normalize(title)) == Normalize(title)
  {
    ReplaceFixedPoint(Normalize(title));
  }

  /** The titles that normalise to themselves are exactly those without white
      space and without upper-case letters. */
  lemma NormalizeFixedPoint(title: string)
    ensures Normalize(title) == title <==> NoSpace(title) && NoUpper(title)
  {
    ReplaceFixedPoint(title);
  }

  // ---------------------------------------------------------------------------
  // Links and downloaded pages

  /** `createLessonLink`: an anchor showing the title and leading to the file
      the same lesson is downloaded as. */
  function LessonLink(lesson: SiteLesson): (link: Link)
    ensures link.text == lesson.title
    ensures link.href == LessonDownload(lesson).fileName && NoSpace(link.href)
  {
    Link(Slug(lesson.title), lesson.title)
  }

  /** `createLessonPage`: the page downloaded under the slug. */
  function LessonDownload(lesson: SiteLesson): (d: Download)
    ensures d.page.heading == lesson.title
    ensures PlainTexts(lesson.keyPoints) ==> ParseListItems(d.page.keyPoints) == Some(lesson.keyPoints)
  {
    Download(Slug(lesson.title),
             SitePage(lesson.browserTitle, lesson.title, lesson.intro, lesson.videoLink,
                      lesson.lessonContent, KeyPointsHtml(lesson.keyPoints)))
  }

  /** The loop over `data.lessons`: one link and one download per
      lesson, in the order of `data.lessons`; each link leads to the file name
      of the page downloaded for the same lesson. */
  method CreateLessonLinks(lessons: seq<SiteLesson>) returns (links: seq<Link>, downloads: seq<Download>)
    ensures |links| == |lessons| && |downloads| == |lessons|
    ensures forall i | 0 <= i < |lessons| ::
      && links[i] == LessonLink(lessons[i])
      && downloads[i] == LessonDownload(lessons[i])
    ensures forall i | 0 <= i < |lessons| ::
      && links[i].href == downloads[i].fileName
      && links[i].text == downloads[i].page.heading == lessons[i].title
      && NoSpace(links[i].href)
  {
    links, downloads := [], [];
    for i := 0 to |lessons|
      invariant |links| == i && |downloads| == i
      invariant forall k | 0 <= k < i :: links[k] == LessonLink(lessons[k]) && downloads[k] == LessonDownload(lessons[k])
    {
      links := links + [LessonLink(lessons[i])];
      downloads := downloads + [LessonDownload(lessons[i])];
    }
  }
}
