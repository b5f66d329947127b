/** `public/kmath/kmathRoutes.js`: the kindergarten router, whose
    `contentType` is "kmath" and whose data files are `kmathlessons.json` and
    `kmathgroups.json`. Its paths (the buttons' `/kmath/group/<name>`, the back
    link `/kmath`) assume the router is mounted at `/kmath`; `server.js` does
    not mount it, so that mount is an assumption of this model. */
module KmathRoutes {
  import opened Content
  import opened Grouping
  import StableSort

  const GroupMissing := "Group not found"
  const GroupNameUndeclared := "ReferenceError: groupName is not defined"

  /** The lesson page: `pageTitle` as title, `lessonTitle` as heading, the
      embedded video, the key points, and a link back to `/kmath`. */
  function RenderLesson(lesson: Lesson): (page: LessonPage)
    ensures page.heading == lesson.lessonTitle && page.back == "/kmath"
    ensures PlainTexts(lesson.keyPoints) ==> ParseListItems(page.keyPoints) == Some(lesson.keyPoints)
  {
    LessonPage(lesson.pageTitle, lesson.lessonTitle, lesson.intro, lesson.videoCode,
               lesson.lessonContent, KeyPointsHtml(lesson.keyPoints), "/kmath")
  }

  /** `GET /lesson/:id` */
  function LessonRoute(file: ReadResult<seq<Lesson>>, id: string): (r: Response<LessonPage>)
    ensures file.ReadFailed? ==> r == ServerError(LessonsReadError)
    ensures file.Read? ==>
      (r.Ok? <==> ArrayIndex(id).Some? && ArrayIndex(id).value < |file.data|)
    ensures file.Read? && !r.Ok? ==> r == NotFound(LessonMissing)
    ensures r.Ok? ==> r.page == RenderLesson(file.data[ArrayIndex(id).value])
  {
    ServeLesson(file, id, RenderLesson)
  }

  /** One button per sorted group, labelled with its name and leading to
      `/kmath/group/<name>`. */
  function GroupButtons(sortedGroups: seq<string>): (buttons: seq<Link>)
    ensures |buttons| == |sortedGroups|
    ensures forall i | 0 <= i < |buttons| ::
      && buttons[i].text == sortedGroups[i]
      && |buttons[i].href| >= 13 && buttons[i].href[..13] == "/kmath/group/"
      && buttons[i].href[13..] == buttons[i].text
  {
    seq(|sortedGroups|, i requires 0 <= i < |sortedGroups| => Link("/kmath/group/" + sortedGroups[i], sortedGroups[i]))
  }

  /** `GET /`: the buttons page. The lessons file must be readable, but what it
      holds never reaches the page: each group's lesson list is built and then
      dropped. */
  method IndexRoute(lessonsFile: ReadResult<seq<Lesson>>, groupsFile: ReadResult<seq<Group>>)
    returns (r: Response<seq<Link>>)
    ensures lessonsFile.ReadFailed? ==> r == ServerError(LessonsReadError)
    ensures lessonsFile.Read? && groupsFile.ReadFailed? ==> r == ServerError(GroupsReadError)
    ensures lessonsFile.Read? && groupsFile.Read? ==>
      r == Ok(GroupButtons(SortedGroups(groupsFile.data)))
  {
    match lessonsFile
    case ReadFailed =>
      r := ServerError(LessonsReadError);
    case Read(lessons) =>
      match groupsFile
      case ReadFailed =>
        r := ServerError(GroupsReadError);
      case Read(groups) =>
        var keys, groupMap := BuildGroupMap(groups, lessons);
        var sortedGroups := StableSort.Sort(ObjectKeys(keys), OrderFromMap(groupMap));
        SortByMapOrder(groups, lessons);
        SortedGroupsNames(groups);
        var unusedLessonLists := GroupBlocks("/kmath", groupMap, sortedGroups);
        r := Ok(GroupButtons(sortedGroups));
  }

  /** The buttons page names every distinct group exactly once, in
      non-decreasing order, each button targeting `/kmath/group/<name>`. */
  lemma GroupButtonsCoverGroups(groups: seq<Group>)
    ensures
      var buttons := GroupButtons(SortedGroups(groups));
      && (forall n :: (exists i :: 0 <= i < |buttons| && buttons[i].text == n) <==> n in Names(groups))
      && (forall i, j | 0 <= i < j < |buttons| :: buttons[i].text != buttons[j].text)
      && (forall i, j | 0 <= i < j < |buttons| :: OrderOf(groups, buttons[i].text) <= OrderOf(groups, buttons[j].text))
      && (forall i | 0 <= i < |buttons| :: buttons[i].href == "/kmath/group/" + buttons[i].text)
  {
    SortedGroupsNames(groups);
    SortedGroupsOrdered(groups);
    ButtonsFollowNames(groups, SortedGroups(groups));
  }

  /** One button per name of `sorted`, labelled with it: what holds of the
      names holds of the labels. */
  lemma ButtonsFollowNames(groups: seq<Group>, sorted: seq<string>)
    requires forall n :: n in sorted <==> n in Names(groups)
    requires Distinct(sorted)
    requires forall i, j | 0 <= i < j < |sorted| :: OrderOf(groups, sorted[i]) <= OrderOf(groups, sorted[j])
    ensures
      var buttons := GroupButtons(sorted);
      && (forall n :: (exists i :: 0 <= i < |buttons| && buttons[i].text == n) <==> n in Names(groups))
      && (forall i, j | 0 <= i < j < |buttons| :: buttons[i].text != buttons[j].text)
      && (forall i, j | 0 <= i < j < |buttons| :: OrderOf(groups, buttons[i].text) <= OrderOf(groups, buttons[j].text))
      && (forall i | 0 <= i < |buttons| :: buttons[i].href == "/kmath/group/" + buttons[i].text)
  {
    var buttons := GroupButtons(sorted);
    forall n ensures (exists i :: 0 <= i < |buttons| && buttons[i].text == n) <==> n in Names(groups) {
      if n in Names(groups) {
        var i :| 0 <= i < |sorted| && sorted[i] == n;
        assert buttons[i].text == n;
      }
    }
  }

  /** `GET /group/:id`: `groups[id]` on the groups array. An id that selects
      an element reaches the page template, which uses the undeclared
      `groupName` and throws; any other id is a 404. No page is ever sent. */
  function GroupRoute(groupsFile: ReadResult<seq<Group>>, id: string): (r: Response<()>)
    ensures groupsFile.ReadFailed? ==> r == ServerError(GroupsReadError)
    ensures groupsFile.Read? ==>
      (r == NotFound(GroupMissing) <==> !(ArrayIndex(id).Some? && ArrayIndex(id).value < |groupsFile.data|))
    ensures groupsFile.Read? && r != NotFound(GroupMissing) ==> r == Throws(GroupNameUndeclared)
    ensures !r.Ok?
  {
    match groupsFile
    case ReadFailed => ServerError(GroupsReadError)
    case Read(groups) =>
      match ArrayIndex(id)
      case Some(i) => if i < |groups| then Throws(GroupNameUndeclared) else NotFound(GroupMissing)
      case None => NotFound(GroupMissing)
  }

  /** Following a group button never shows a group page: a group whose name is
      not an array index gets 404 "Group not found". */
  lemma GroupButtonsDeadEnd(groups: seq<Group>, i: nat)
    requires i < |GroupButtons(SortedGroups(groups))|
    ensures
      var button := GroupButtons(SortedGroups(groups))[i];
      var id := button.href[|"/kmath/group/"|..];
      && id == button.text
      && !GroupRoute(Read(groups), id).Ok?
      && (ArrayIndex(id).None? ==> GroupRoute(Read(groups), id) == NotFound(GroupMissing))
  {
    var button := GroupButtons(SortedGroups(groups))[i];
    assert button.href == "/kmath/group/" + button.text;
    assert button.href[|"/kmath/group/"|..] == button.text;
  }

  // ---------------------------------------------------------------------------
  // The group page as evidently intended

  /** The parts of a group page that depend on the group. */
  datatype GroupPage = GroupPage(heading: string, back: string)

  /** The first group named `name`, if any. */
  function FindGroup(groups: seq<Group>, name: string): (r: Option<Group>)
    ensures r.Some? ==> r.value in groups && r.value.name == name
    ensures r.None? <==> name !in Names(groups)
  {
    if |groups| == 0 then None
    else if groups[0].name == name then Some(groups[0])
    else
      var rest := FindGroup(groups[1..], name);
      assert Names(groups) == {groups[0].name} + Names(groups[1..]) by {
        assert groups == [groups[0]] + groups[1..];
      }
      rest
  }

  /** `GET /group/:id` with the group looked up by the name its button
      carries, and its page headed "<name> Group" with a link back to `/kmath`. */
  function GroupRouteByName(groupsFile: ReadResult<seq<Group>>, id: string): (r: Response<GroupPage>)
    ensures groupsFile.ReadFailed? ==> r == ServerError(GroupsReadError)
    ensures groupsFile.Read? ==> (r.Ok? <==> id in Names(groupsFile.data))
    ensures groupsFile.Read? && !r.Ok? ==> r == NotFound(GroupMissing)
    ensures r.Ok? ==> r.page == GroupPage(id + " Group", "/kmath")
  {
    match groupsFile
    case ReadFailed => ServerError(GroupsReadError)
    case Read(groups) =>
      match FindGroup(groups, id)
      case Some(group) => Ok(GroupPage(group.name + " Group", "/kmath"))
      case None => NotFound(GroupMissing)
  }

  /** With the lookup by name, every button of the buttons page opens the page
      of the group it is labelled with. */
  lemma GroupButtonsReachGroupPages(groups: seq<Group>, i: nat)
    requires i < |GroupButtons(SortedGroups(groups))|
    ensures
      var button := GroupButtons(SortedGroups(groups))[i];
      GroupRouteByName(Read(groups), button.href[|"/kmath/group/"|..]) == Ok(GroupPage(button.text + " Group", "/kmath"))
  {
    SortedGroupsNames(groups);
    var button := GroupButtons(SortedGroups(groups))[i];
    assert button.href == "/kmath/group/" + button.text;
    assert button.href[|"/kmath/group/"|..] == button.text;
    assert button.text in SortedGroups(groups);
  }
}
