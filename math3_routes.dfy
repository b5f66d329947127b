/** `public/math3/math3Routes.js`: the third-grade router, whose
    `contentType` is "math3" and whose data files are `math3lessons.json` and
    `math3groups.json`. Its links assume the router is mounted at `/math3`. */
module Math3Routes {
  import opened Content
  import opened Grouping
  import StableSort

  /** The lesson page: `pageTitle` as title, `lessonTitle` as heading, the
      embedded video, the key points, and a link back to `/math3`. */
  function RenderLesson(lesson: Lesson): (page: LessonPage)
    ensures page.heading == lesson.lessonTitle && page.back == "/math3"
    ensures PlainTexts(lesson.keyPoints) ==> ParseListItems(page.keyPoints) == Some(lesson.keyPoints)
  {
    LessonPage(lesson.pageTitle, lesson.lessonTitle, lesson.intro, lesson.videoCode,
               lesson.lessonContent, KeyPointsHtml(lesson.keyPoints), "/math3")
  }

  /** `GET /lesson/:id` */
  function LessonRoute(file: ReadResult<seq<Lesson>>, id: string): (r: Response<LessonPage>)
    ensures file.ReadFailed? ==> r == ServerError(LessonsReadError)
    ensures file.Read? ==>
      (r.Ok? <==> ArrayIndex(id).Some? && ArrayIndex(id).value < |file.data|)
    ensures file.Read? && !r.Ok? ==> r == NotFound(LessonMissing)
    ensures r.Ok? ==> r.page == RenderLesson(file.data[ArrayIndex(id).value])
  {
    ServeLesson(file, id, RenderLesson)
  }

  /** `GET /`: one block per group, in sorted order, each listing its lessons
      as links to `/math3/lesson/<index>`. */
  method IndexRoute(lessonsFile: ReadResult<seq<Lesson>>, groupsFile: ReadResult<seq<Group>>)
    returns (r: Response<seq<GroupBlock>>)
    ensures lessonsFile.ReadFailed? ==> r == ServerError(LessonsReadError)
    ensures lessonsFile.Read? && groupsFile.ReadFailed? ==> r == ServerError(GroupsReadError)
    ensures lessonsFile.Read? && groupsFile.Read? ==>
      r == Ok(GroupListing("/math3", groupsFile.data, lessonsFile.data))
  {
    match lessonsFile
    case ReadFailed =>
      r := ServerError(LessonsReadError);
    case Read(lessons) =>
      match groupsFile
      case ReadFailed =>
        r := ServerError(GroupsReadError);
      case Read(groups) =>
        var keys, groupMap := BuildGroupMap(groups, lessons);
        var sortedGroups := StableSort.Sort(ObjectKeys(keys), OrderFromMap(groupMap));
        SortByMapOrder(groups, lessons);
        SortedGroupsNames(groups);
        r := Ok(GroupBlocks("/math3", groupMap, sortedGroups));
  }

  lemma LessonPath(id: string)
    ensures "/math3" + "/lesson/" + id == "/math3/lesson/" + id
  {
    assert "/math3" + "/lesson/" == "/math3/lesson/";
  }

  /** Every lesson link on the index page is served by `/lesson/:id` with the
      page of a lesson of that block's group, titled as the link is labelled. */
  lemma IndexLinksResolve(groups: seq<Group>, lessons: seq<Lesson>, i: nat, k: nat)
    requires |lessons| <= MaxArrayLength
    requires i < |GroupListing("/math3", groups, lessons)|
    requires k < |GroupListing("/math3", groups, lessons)[i].links|
    ensures
      var block := GroupListing("/math3", groups, lessons)[i];
      exists j :: && 0 <= j < |lessons|
                  && block.links[k].href == "/math3/lesson/" + NatToString(j)
                  && lessons[j].group == block.heading
                  && LessonRoute(Read(lessons), NatToString(j)) == Ok(RenderLesson(lessons[j]))
                  && RenderLesson(lessons[j]).heading == block.links[k].text
  {
    GroupListingLinkAt("/math3", groups, lessons, i, k);
    var block := GroupListing("/math3", groups, lessons)[i];
    MembersOfSound(lessons, block.heading);
    var j := MembersOf(lessons, block.heading)[k].index;
    assert block.links[k] == Link(LessonHref("/math3", j), lessons[j].lessonTitle);
    assert LessonHref("/math3", j) == "/math3" + "/lesson/" + NatToString(j);
    LessonPath(NatToString(j));
    ServeIndexedLesson(lessons, j, RenderLesson);
    assert block.links[k].href == "/math3/lesson/" + NatToString(j);
  }
}
