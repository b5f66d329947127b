/** `server.js`: the top-level application, reading `lessons.json` and
    `groups.json` from the working directory. */
module Server {
  import opened Content
  import opened Grouping
  import StableSort

  /** The lesson page: `pageTitle` as title, `lessonTitle` as heading, the
      embedded video, the key points, and a link back to `/kmath`. */
  function RenderLesson(lesson: Lesson): (page: LessonPage)
    ensures page.heading == lesson.lessonTitle && page.back == "/kmath"
    ensures PlainTexts(lesson.keyPoints) ==> ParseListItems(page.keyPoints) == Some(lesson.keyPoints)
  {
    LessonPage(lesson.pageTitle, lesson.lessonTitle, lesson.intro, lesson.videoCode,
               lesson.lessonContent, KeyPointsHtml(lesson.keyPoints), "/kmath")
  }

  /** `GET /lesson/:id` */
  function LessonRoute(file: ReadResult<seq<Lesson>>, id: string): (r: Response<LessonPage>)
    ensures file.ReadFailed? ==> r == ServerError(LessonsReadError)
    ensures file.Read? ==>
      (r.Ok? <==> ArrayIndex(id).Some? && ArrayIndex(id).value < |file.data|)
    ensures file.Read? && !r.Ok? ==> r == NotFound(LessonMissing)
    ensures r.Ok? ==> r.page == RenderLesson(file.data[ArrayIndex(id).value])
  {
    ServeLesson(file, id, RenderLesson)
  }

  /** `GET /kmath`: one block per group, in sorted order, each listing its
      lessons as links to `/lesson/<index>`, with no grade prefix. */
  method KmathRoute(lessonsFile: ReadResult<seq<Lesson>>, groupsFile: ReadResult<seq<Group>>)
    returns (r: Response<seq<GroupBlock>>)
    ensures lessonsFile.ReadFailed? ==> r == ServerError(LessonsReadError)
    ensures lessonsFile.Read? && groupsFile.ReadFailed? ==> r == ServerError(GroupsReadError)
    ensures lessonsFile.Read? && groupsFile.Read? ==>
      r == Ok(GroupListing("", groupsFile.data, lessonsFile.data))
  {
    match lessonsFile
    case ReadFailed =>
      r := ServerError(LessonsReadError);
    case Read(lessons) =>
      match groupsFile
      case ReadFailed =>
        r := ServerError(GroupsReadError);
      case Read(groups) =>
        var keys, groupMap := BuildGroupMap(groups, lessons);
        var sortedGroups := StableSort.Sort(ObjectKeys(keys), OrderFromMap(groupMap));
        SortByMapOrder(groups, lessons);
        SortedGroupsNames(groups);
        r := Ok(GroupBlocks("", groupMap, sortedGroups));
  }

  lemma LessonPath(id: string)
    ensures "" + "/lesson/" + id == "/lesson/" + id
  {
    assert "" + "/lesson/" == "/lesson/";
  }

  /** Every lesson link on `/kmath` is `/lesson/<j>` for the lesson's position
      `j` in `lessons.json`, and `/lesson/:id` serves that lesson's page, titled
      as the link is labelled (both handlers read the same file). */
  lemma KmathLinksResolve(groups: seq<Group>, lessons: seq<Lesson>, i: nat, k: nat)
    requires |lessons| <= MaxArrayLength
    requires i < |GroupListing("", groups, lessons)|
    requires k < |GroupListing("", groups, lessons)[i].links|
    ensures
      var block := GroupListing("", groups, lessons)[i];
      exists j :: && 0 <= j < |lessons|
                  && block.links[k].href == "/lesson/" + NatToString(j)
                  && lessons[j].group == block.heading
                  && LessonRoute(Read(lessons), NatToString(j)) == Ok(RenderLesson(lessons[j]))
                  && RenderLesson(lessons[j]).heading == block.links[k].text
  {
    GroupListingLinkAt("", groups, lessons, i, k);
    var block := GroupListing("", groups, lessons)[i];
    MembersOfSound(lessons, block.heading);
    var j := MembersOf(lessons, block.heading)[k].index;
    assert block.links[k] == Link(LessonHref("", j), lessons[j].lessonTitle);
    assert LessonHref("", j) == "" + "/lesson/" + NatToString(j);
    LessonPath(NatToString(j));
    ServeIndexedLesson(lessons, j, RenderLesson);
    assert block.links[k].href == "/lesson/" + NatToString(j);
  }
}
