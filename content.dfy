/** Shared vocabulary of the lesson site: the parsed JSON records, the outcome
    of reading a data file, the HTTP responses the handlers send, JavaScript's
    array-index property names, the key-point list and the `/lesson/:id`
    lookup that every route module repeats. */
module Content {

  datatype Option<T> = None | Some(value: T)

  /** Outcome of `fs.readFile` followed by `JSON.parse`: the parsed value, or
      the error passed to the callback. */
  datatype ReadResult<T> = Read(data: T) | ReadFailed

  /** One record of a lessons file (`lessons.json`, `kmathlessons.json`, ...). */
  datatype Lesson = Lesson(
    pageTitle: string,
    lessonTitle: string,
    intro: string,
    videoCode: string,
    videoLink: string,
    lessonContent: string,
    keyPoints: seq<string>,
    group: string)

  /** One record of a groups file. Orders are assumed to be integers. */
  datatype Group = Group(name: string, order: int)

  /** An anchor or button on a rendered page: where it leads and what it shows. */
  datatype Link = Link(href: string, text: string)

  /** What a handler sends back. `Throws` is an exception escaping the
      callback, so no response is sent at all. */
  datatype Response<P> =
    | Ok(page: P)
    | NotFound(message: string)
    | ServerError(message: string)
    | Throws(error: string)

  /** The parts of a generated lesson page that come from the lesson record. */
  datatype LessonPage = LessonPage(
    title: string,
    heading: string,
    intro: string,
    video: string,
    content: string,
    keyPoints: string,
    back: string)

  const LessonsReadError := "Error reading lessons file"
  const GroupsReadError := "Error reading groups file"
  const LessonMissing := "Lesson not found"

  /** 2^32 - 1: the largest array length, and one past the largest array index. */
  const MaxArrayLength: nat := 4294967295

  // ---------------------------------------------------------------------------
  // Array-index property names

  predicate IsDigit(c: char) { '0' <= c <= '9' }

  predicate AllDigits(s: string) { forall i | 0 <= i < |s| :: IsDigit(s[i]) }

  function DigitChar(d: nat): (c: char)
    requires d < 10
    ensures IsDigit(c) && c as int - '0' as int == d
  {
    ('0' as int + d) as char
  }

  /** The value of a string of decimal digits, most significant first. */
  function DigitsValue(s: string): nat
    requires AllDigits(s)
  {
    if |s| == 0 then 0 else DigitsValue(s[..|s| - 1]) * 10 + (s[|s| - 1] as int - '0' as int)
  }

  /** `String(n)` for a non-negative integer. */
  function NatToString(n: nat): (s: string)
    ensures |s| > 0 && AllDigits(s)
    ensures s[0] == '0' <==> n == 0
  {
    if n < 10 then [DigitChar(n)] else NatToString(n / 10) + [DigitChar(n % 10)]
  }

  /** A canonical decimal string: what `String(i)` gives for some integer `i`. */
  predicate Canonical(s: string)
  {
    0 < |s| && AllDigits(s) && (s[0] != '0' || |s| == 1)
  }

  /** The array index that the property name `s` denotes, if any: a canonical
      decimal string whose value is below 2^32 - 1. Any other name ("03",
      "+1", "1.0", "abc") is not an index. */
  function ArrayIndex(s: string): (r: Option<nat>)
    ensures r.Some? ==> r.value < MaxArrayLength && NatToString(r.value) == s
  {
    if Canonical(s) && DigitsValue(s) < MaxArrayLength then
      CanonicalIsNatToString(s);
      Some(DigitsValue(s))
    else
      None
  }

  lemma {:induction false} LeadingDigitPositive(s: string)
    requires 0 < |s| && AllDigits(s) && s[0] != '0'
    ensures DigitsValue(s) > 0
  {
    if |s| > 1 {
      LeadingDigitPositive(s[..|s| - 1]);
    }
  }

  lemma {:induction false} CanonicalIsNatToString(s: string)
    requires Canonical(s)
    ensures NatToString(DigitsValue(s)) == s
  {
    if |s| > 1 {
      var p := s[..|s| - 1];
      assert Canonical(p);
      CanonicalIsNatToString(p);
      LeadingDigitPositive(p);
      var v := DigitsValue(s);
      assert v / 10 == DigitsValue(p) && v % 10 == s[|s| - 1] as int - '0' as int;
      assert s == p + [s[|s| - 1]];
    }
  }

  lemma {:induction false} NatToStringValue(n: nat)
    ensures DigitsValue(NatToString(n)) == n
  {
    if n >= 10 {
      NatToStringValue(n / 10);
      var s := NatToString(n);
      assert s[..|s| - 1] == NatToString(n / 10);
    }
  }

  /** `String(i)` names element `i` again: the round trip between rendering an
      index into a URL and reading it back as a property name. */
  lemma NatToStringIsIndex(n: nat)
    requires n < MaxArrayLength
    ensures ArrayIndex(NatToString(n)) == Some(n)
  {
    NatToStringValue(n);
  }

  /** Distinct indices give distinct property names. */
  lemma NatToStringInjective(m: nat, n: nat)
    requires NatToString(m) == NatToString(n)
    ensures m == n
  {
    NatToStringValue(m);
    NatToStringValue(n);
  }

  // ---------------------------------------------------------------------------
  // Key points: one `<li>` item per point, concatenated

  function ListItem(text: string): string { "<li>" + text + "</li>" }

  /** The longest prefix of `s` without a '<'. */
  function TextBefore(s: string): (t: string)
    ensures |t| <= |s| && t == s[..|t|] && '<' !in t
    ensures |t| < |s| ==> s[|t|] == '<'
  {
    if |s| == 0 || s[0] == '<' then "" else [s[0]] + TextBefore(s[1..])
  }

  /** Reads a run of `<li>...</li>` items back into their texts. */
  function ParseListItems(html: string): Option<seq<string>>
    decreases |html|
  {
    if |html| == 0 then Some([])
    else if |html| < 4 || html[..4] != "<li>" then None
    else
      var text := TextBefore(html[4..]);
      var rest := html[4 + |text|..];
      if |rest| < 5 || rest[..5] != "</li>" then None
      else match ParseListItems(rest[5..])
        case None => None
        case Some(more) => Some([text] + more)
  }

  lemma TextBeforeStops(p: string, rest: string)
    requires '<' !in p && 0 < |rest| && rest[0] == '<'
    ensures TextBefore(p + rest) == p
  {
    if |p| > 0 {
      assert (p + rest)[1..] == p[1..] + rest;
      TextBeforeStops(p[1..], rest);
    }
  }

  /** Texts without '<', which therefore carry no markup of their own. */
  predicate PlainTexts(points: seq<string>)
  {
    forall i | 0 <= i < |points| :: '<' !in points[i]
  }

  /** Parsing an item whose text holds no '<' reads back that text, then
      whatever the rest reads back. */
  lemma ListItemParse(p: string, tail: string)
    ensures '<' !in p && ParseListItems(tail).Some? ==>
      ParseListItems(ListItem(p) + tail) == Some([p] + ParseListItems(tail).value)
  {
    if '<' !in p && ParseListItems(tail).Some? {
      var html := ListItem(p) + tail;
      assert html == "<li>" + (p + ("</li>" + tail));
      assert html[4..] == p + ("</li>" + tail);
      TextBeforeStops(p, "</li>" + tail);
      assert html[4 + |p|..] == "</li>" + tail;
      assert ("</li>" + tail)[5..] == tail;
    }
  }

  /** The key-point list: one `<li>` item per point, concatenated. It holds
      exactly one item per point, in the original order: parsing it back gives
      the points. Points containing '<' are inserted unescaped and may carry
      markup of their own. */
  function KeyPointsHtml(points: seq<string>): (html: string)
    ensures PlainTexts(points) ==> ParseListItems(html) == Some(points)
  {
    if |points| == 0 then ""
    else
      var tail := KeyPointsHtml(points[1..]);
      ListItemParse(points[0], tail);
      assert [points[0]] + points[1..] == points;
      ListItem(points[0]) + tail
  }

  // ---------------------------------------------------------------------------
  // `/lesson/:id`

  /** The lookup shared by every `/lesson/:id` handler: a failed read is a 500,
      an id that does not name an element of the lessons array is a 404, and
      otherwise the page is rendered from exactly the selected lesson. */
  function ServeLesson(file: ReadResult<seq<Lesson>>, id: string, render: Lesson -> LessonPage): (r: Response<LessonPage>)
    ensures file.ReadFailed? ==> r == ServerError(LessonsReadError)
    ensures file.Read? ==>
      (r.Ok? <==> ArrayIndex(id).Some? && ArrayIndex(id).value < |file.data|)
    ensures file.Read? && !r.Ok? ==> r == NotFound(LessonMissing)
    ensures r.Ok? ==> file.Read? && r.page == render(file.data[ArrayIndex(id).value])
  {
    match file
    case ReadFailed => ServerError(LessonsReadError)
    case Read(lessons) =>
      match ArrayIndex(id)
      case Some(i) => if i < |lessons| then Ok(render(lessons[i])) else NotFound(LessonMissing)
      case None => NotFound(LessonMissing)
  }

  /** Following a link to `/lesson/<i>` for an element `i` of the array the
      handler reads yields that element's page. */
  lemma ServeIndexedLesson(lessons: seq<Lesson>, i: nat, render: Lesson -> LessonPage)
    requires i < |lessons| <= MaxArrayLength
    ensures ServeLesson(Read(lessons), NatToString(i), render) == Ok(render(lessons[i]))
  {
    NatToStringIsIndex(i);
  }
}
