/** `api/index.js`: the serverless entry point, which reads `lessons.json` and
    lists every lesson on `/kmath` without grouping. */
module ApiIndex {
  import opened Content

  const LessonPath := "/lesson/"

  /** The lesson page: `pageTitle` as title, `lessonTitle` as heading, a link
      to `videoLink`, the key points, and a link back to `/kmath`. */
  function RenderLesson(lesson: Lesson): (page: LessonPage)
    ensures page.heading == lesson.lessonTitle && page.video == lesson.videoLink && page.back == "/kmath"
    ensures PlainTexts(lesson.keyPoints) ==> ParseListItems(page.keyPoints) == Some(lesson.keyPoints)
  {
    LessonPage(lesson.pageTitle, lesson.lessonTitle, lesson.intro, lesson.videoLink,
               lesson.lessonContent, KeyPointsHtml(lesson.keyPoints), "/kmath")
  }

  /** `GET /lesson/:id` */
  function LessonRoute(file: ReadResult<seq<Lesson>>, id: string): (r: Response<LessonPage>)
    ensures file.ReadFailed? ==> r == ServerError(LessonsReadError)
    ensures file.Read? ==>
      (r.Ok? <==> ArrayIndex(id).Some? && ArrayIndex(id).value < |file.data|)
    ensures file.Read? && !r.Ok? ==> r == NotFound(LessonMissing)
    ensures r.Ok? ==> r.page == RenderLesson(file.data[ArrayIndex(id).value])
  {
    ServeLesson(file, id, RenderLesson)
  }

  /** `GET /kmath`: one list item per lesson, in array order, item `i` linking
      to `/lesson/i` and labelled with the lesson's title. */
  function KmathRoute(file: ReadResult<seq<Lesson>>): (r: Response<seq<Link>>)
    ensures file.ReadFailed? ==> r == ServerError(LessonsReadError)
    ensures file.Read? ==> r.Ok? && |r.page| == |file.data|
    ensures file.Read? && |file.data| <= MaxArrayLength ==>
      forall i | 0 <= i < |r.page| ::
        && r.page[i].text == file.data[i].lessonTitle
        && |LessonPath| <= |r.page[i].href| && r.page[i].href[..|LessonPath|] == LessonPath
        && ArrayIndex(r.page[i].href[|LessonPath|..]) == Some(i)
  {
    match file
    case ReadFailed => ServerError(LessonsReadError)
    case Read(lessons) =>
      var items := seq(|lessons|, i requires 0 <= i < |lessons| => Link(LessonPath + NatToString(i), lessons[i].lessonTitle));
      assert forall i | 0 <= i < |items| :: items[i].href[|LessonPath|..] == NatToString(i);
      assert |lessons| <= MaxArrayLength ==> forall i | 0 <= i < |items| :: ArrayIndex(NatToString(i)) == Some(i) by {
        forall i | 0 <= i < |items| && |lessons| <= MaxArrayLength ensures ArrayIndex(NatToString(i)) == Some(i) {
          NatToStringIsIndex(i);
        }
      }
      Ok(items)
  }

  /** Following item `i` of `/kmath` gives the page of lesson `i`, whose heading
      is the item's label, and no two items lead to the same lesson. */
  lemma KmathLinksResolve(lessons: seq<Lesson>, i: nat)
    requires |lessons| <= MaxArrayLength
    requires i < |lessons|
    ensures
      var items := KmathRoute(Read(lessons)).page;
      && LessonRoute(Read(lessons), items[i].href[|LessonPath|..]) == Ok(RenderLesson(lessons[i]))
      && RenderLesson(lessons[i]).heading == items[i].text
      && forall i' | 0 <= i' < |items| && i' != i :: items[i'].href != items[i].href
  {
    var items := KmathRoute(Read(lessons)).page;
    forall i' | 0 <= i' < |items| && i' != i ensures items[i'].href != items[i].href {
      assert ArrayIndex(items[i'].href[|LessonPath|..]) == Some(i');
    }
  }
}
