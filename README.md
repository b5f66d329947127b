# NKeducation lesson site: a Dafny model of its routes

The site serves math lessons kept in JSON files. Several handlers do the work:

- `server.js` (top level): `/lesson/:id` and `/kmath`.
- `public/kmath/kmathRoutes.js`: the kindergarten router. Its own links assume it is mounted at `/kmath`; `server.js` does not mount it, so this model takes that mount as given.
- `public/math3/math3Routes.js`: the third-grade router, likewise taken as mounted at `/math3`.
- `api/index.js`: a serverless variant.
- `lessons/kmath.js`: a browser script that turns `kmath.json` into a list of links and downloaded lesson pages.

This project models the logic of these handlers. Each handler is modelled as a function or method that takes the outcome of reading its data files. What the page shows is modelled as values rather than HTML:

- the links and headings it shows;
- the responses it sends: `200`, a `404` or `500` with its fixed message, or an exception that escapes the callback.

Modules:

- `Content` (`content.dfy`): the shared pieces.
  - The lesson and group records, and the file-read outcome.
  - The responses.
  - JavaScript array-index property names: which strings `lessons[id]` selects an element with.
  - The key-point list. Each point becomes one `<li>` item; a parser reads the items back.
  - The `/lesson/:id` lookup that every router repeats.
- `StableSort` (`stable_sort.dfy`): `Array.prototype.sort` with a numeric comparator, which is stable since ECMAScript 2019.
  - Modelled as an insertion sort.
  - Proved sorted, a permutation and stable.
  - Proved unique: any stable sorted permutation equals it, so the model gives the same result as the built-in sort.
- `Grouping` (`grouping.dfy`): the group-and-order aggregation the three grouped listings share.
  - The two loops that build `groupMap` are methods: the first registers the groups, the second files each lesson under its group.
  - Both loops are proved against specification functions.
  - `Object.keys` order is modelled: array-index keys first, ascending, then insertion order.
  - Also covered: the sort by `order` and the per-group lesson lists.
- `KmathRoutes`, `Math3Routes`, `Server`, `ApiIndex`: one module per router, with its own prefix, back link and page shape.
- `LessonSlug` (`lesson_slug.dfy`):
  - the file name `lesson-<title with white-space runs replaced by '-', lower-cased>.html`;
  - the loop that creates one link and one downloaded page per lesson.

## Model

| member | source | states |
|---|---|---|
| Content.ArrayIndex | public/kmath/kmathRoutes.js:31 | `lessons[id]` selects element `i` only when `id` is the canonical decimal string of `i` and `i < 2^32-1`; "01", "+1", "1.0" select nothing |
| Content.NatToString | public/math3/math3Routes.js:130 | `String(index)` is a non-empty run of decimal digits, starting with '0' only for 0 |
| Content.NatToStringIsIndex | public/math3/math3Routes.js:130 | the index written into a lesson link, read back as a property name, selects that same index |
| Content.NatToStringInjective | server.js:135 | different lesson positions give different link ids |
| Content.KeyPointsHtml | public/kmath/kmathRoutes.js:87 | the key-point markup holds exactly one `<li>` item per point, in the original order: parsing it gives the points back (for points without '<') |
| Content.ListItemParse | public/kmath/kmathRoutes.js:87 | an item whose text has no '<' parses back to that text, followed by what the rest parses to |
| Content.ServeLesson | public/kmath/kmathRoutes.js:24-35 | a failed read is 500 "Error reading lessons file"; the page is sent iff the id selects an existing element, and is built from exactly that lesson; otherwise 404 "Lesson not found" |
| Content.ServeIndexedLesson | server.js:29-40 | the id `String(i)` of an element `i` is always served with that element's page |
| StableSort.Sort | public/kmath/kmathRoutes.js:124-126 | the sorted names are non-decreasing by order and a permutation of the keys |
| StableSort.SortStable | public/kmath/kmathRoutes.js:124-126 | names with equal order keep their relative key order |
| StableSort.SortUnique | public/kmath/kmathRoutes.js:124-126 | two sorted sequences that agree on the order of each order value's elements are equal: a stable sort has one possible result |
| StableSort.SortKeyCongruence | public/kmath/kmathRoutes.js:125 | the sort depends only on the orders of the elements being sorted |
| Grouping.RegisterGroups | public/kmath/kmathRoutes.js:113-116 | after the first loop the keys in insertion order are the first occurrences of the names, and each name maps to an empty lesson list with the order of its last group |
| Grouping.FileLessons | public/kmath/kmathRoutes.js:118-122 | the second loop keeps the key set and appends to each group exactly its lessons, in array order, as (title, index) |
| Grouping.BuildGroupMap | server.js:115-125 | both loops together yield `GroupMapOf(groups, lessons)` and the keys in insertion order |
| Grouping.KeysOfDistinctNames | public/kmath/kmathRoutes.js:113-116 | the keys of `groupMap` are exactly the distinct group names, each once |
| Grouping.OrderOfLastWins | public/kmath/kmathRoutes.js:114-116 | with duplicate names the order of the last group of that name is stored |
| Grouping.MembersOfSound | public/math3/math3Routes.js:118-122 | every filed entry is the lesson at its index, of that group, with that lesson's title, and indices strictly increase within a group |
| Grouping.MembersOfComplete | public/math3/math3Routes.js:118-122 | every lesson whose group is a given name is filed under it |
| Grouping.LessonFiledOnce | public/kmath/kmathRoutes.js:118-122 | a lesson is filed iff its group is a known name, and then at exactly one (group, position) |
| Grouping.ObjectKeys | public/kmath/kmathRoutes.js:124 | `Object.keys(groupMap)` is a permutation of the keys in insertion order |
| Grouping.ObjectKeysOrder | public/kmath/kmathRoutes.js:124 | array-index keys come before the others, in ascending order; the other keys keep their insertion order; with no array-index key the insertion order is kept unchanged |
| Grouping.SortByMapOrder | server.js:128-130 | sorting the keys by the orders stored in `groupMap` gives a result that depends on the groups alone, not on the lessons |
| Grouping.SortedGroups | public/kmath/kmathRoutes.js:124-126 | `sortedGroups` is non-decreasing in order and a permutation of the `groupMap` keys |
| Grouping.SortedGroupsNames | public/kmath/kmathRoutes.js:113-126 | `sortedGroups` holds every distinct group name, each once |
| Grouping.SortedGroupsOrdered | public/kmath/kmathRoutes.js:124-126 | `sortedGroups` is non-decreasing in the groups' orders |
| Grouping.SortedGroupsSpec | public/math3/math3Routes.js:124-126 | `sortedGroups` holds every distinct name exactly once, is non-decreasing in order, and keeps `Object.keys` order among equal orders |
| Grouping.LessonHref | public/math3/math3Routes.js:130 | a lesson link is `prefix/lesson/` followed by an id that selects exactly the lesson's index |
| Grouping.LessonHrefInjective | public/math3/math3Routes.js:130 | different lessons get different link targets |
| Grouping.GroupBlocks | public/math3/math3Routes.js:128-140 | one block per given name, in the given order, headed by the name and listing that group's lessons by title, in order |
| Grouping.GroupListing | public/math3/math3Routes.js:128-140 | block `i` of the listing is headed by the `i`-th sorted group |
| Grouping.GroupListingShape | public/math3/math3Routes.js:128-134 | block `i` links, in order, the lessons `groupMap` files under the `i`-th sorted group, and every group has a block |
| Grouping.HeadingsFollowNames | public/math3/math3Routes.js:128-134 | blocks headed by distinct, ordered group names cover exactly those names, each once, in that order |
| Grouping.GroupListingBlocks | public/math3/math3Routes.js:128-140 | there is one block per distinct group name, each name once, in non-decreasing order |
| Grouping.GroupListingLinkAt | public/math3/math3Routes.js:129-131 | link `k` of a block is the `k`-th lesson filed under that block's group |
| Grouping.GroupListingLinksSound | public/math3/math3Routes.js:129-131 | each link leads to `prefix/lesson/<j>` for a lesson `j` of the block's group and shows that lesson's title |
| Grouping.GroupListingLinksOrdered | public/math3/math3Routes.js:129-131 | within a block the links follow the lessons' array order |
| Grouping.GroupListingLinkFiles | public/math3/math3Routes.js:128-131 | a link to lesson `j` sits where `groupMap` files `j` under the block's group |
| Grouping.FiledLessonLinked | public/math3/math3Routes.js:128-131 | in blocks laid out by `groupMap`, every lesson the map files is linked from some block |
| Grouping.GroupListingLessonLinked | public/math3/math3Routes.js:118-131 | a lesson of a known group is linked from some block |
| Grouping.GroupListingLinksLessonOnce | public/math3/math3Routes.js:118-140 | a lesson is linked iff its group is known, and then from exactly one place on the page |
| KmathRoutes.RenderLesson | public/kmath/kmathRoutes.js:37-95 | the page is headed by the lesson title, links back to `/kmath`, and lists the key points one per item in order |
| KmathRoutes.LessonRoute | public/kmath/kmathRoutes.js:24-35 | 500 on a read error; the page iff the id selects a lesson, built from that lesson; 404 "Lesson not found" otherwise |
| KmathRoutes.IndexRoute | public/kmath/kmathRoutes.js:100-135 | 500 with the file-specific message when either read fails; otherwise the buttons for the sorted groups, the lesson lists being built and dropped |
| KmathRoutes.GroupButtons | public/kmath/kmathRoutes.js:128-135 | one button per sorted group, in order, labelled with the name, whose target ends in that same name after `/kmath/group/` |
| KmathRoutes.ButtonsFollowNames | public/kmath/kmathRoutes.js:128-135 | buttons for distinct, ordered group names cover exactly those names, each once, in that order |
| KmathRoutes.GroupButtonsCoverGroups | public/kmath/kmathRoutes.js:128-135 | one button per distinct group, in non-decreasing order, each targeting `/kmath/group/<name>` |
| KmathRoutes.GroupRoute | public/kmath/kmathRoutes.js:227-246 | 500 on a read error; 404 "Group not found" iff the id selects no element of the groups array; otherwise the undeclared `groupName` throws; never a page |
| KmathRoutes.GroupButtonsDeadEnd | public/kmath/kmathRoutes.js:133 | following any group button never yields a page, and a group whose name is not an array index gets 404 |
| KmathRoutes.FindGroup | public/kmath/kmathRoutes.js:234 | the group found carries the requested name; none is found iff no group has it |
| KmathRoutes.GroupRouteByName | public/kmath/kmathRoutes.js:227-246 | corrected handler: the page iff a group has the requested name, headed "<name> Group"; 404 otherwise |
| KmathRoutes.GroupButtonsReachGroupPages | public/kmath/kmathRoutes.js:133 | with the corrected handler every group button opens the page of the group it names |
| Math3Routes.RenderLesson | public/math3/math3Routes.js:37-95 | the page is headed by the lesson title, links back to `/math3`, and lists the key points one per item in order |
| Math3Routes.LessonRoute | public/math3/math3Routes.js:24-35 | 500 on a read error; the page iff the id selects a lesson; 404 "Lesson not found" otherwise |
| Math3Routes.IndexRoute | public/math3/math3Routes.js:100-140 | 500 with the file-specific message when either read fails; otherwise the grouped listing with links under `/math3` |
| Math3Routes.IndexLinksResolve | public/math3/math3Routes.js:130 | every link `/math3/lesson/<j>` names a lesson of the block's group, and `/lesson/:id` serves that lesson, headed by the link's label |
| Server.RenderLesson | server.js:42-94 | the page is headed by the lesson title, links back to `/kmath`, and lists the key points one per item in order |
| Server.LessonRoute | server.js:29-40 | 500 on a read error; the page iff the id selects a lesson; 404 "Lesson not found" otherwise |
| Server.KmathRoute | server.js:99-145 | 500 with the file-specific message when either read fails; otherwise the grouped listing with links `/lesson/<index>`, no grade prefix |
| Server.KmathLinksResolve | server.js:133-136 | every link `/lesson/<j>` names a lesson of the block's group at position `j`, and `/lesson/:id` serves that lesson, headed by the link's label |
| ApiIndex.RenderLesson | api/index.js:36-57 | the page is headed by the lesson title, links to `videoLink` and back to `/kmath`, and lists the key points in order |
| ApiIndex.LessonRoute | api/index.js:23-34 | 500 on a read error; the page iff the id selects a lesson; 404 "Lesson not found" otherwise |
| ApiIndex.KmathRoute | api/index.js:62-70 | 500 on a read error; otherwise exactly one item per lesson in array order, item `i` labelled with lesson `i`'s title and linking to an id that selects `i` |
| ApiIndex.KmathLinksResolve | api/index.js:68-70 | following item `i` serves lesson `i`'s page, headed by the item's label, and no two items lead to the same place |
| LessonSlug.ReplaceSpaceRuns | lessons/kmath.js:18 | the replacement leaves no white space and never lengthens the title |
| LessonSlug.DropSpaces | lessons/kmath.js:18 | the rest of the title after its leading white-space run: a suffix, all dropped characters white space, not starting with white space |
| LessonSlug.DropSpacesSplit | lessons/kmath.js:18 | a non-space character stops the dropping of leading white space |
| LessonSlug.ReplaceSplit | lessons/kmath.js:18 | a non-space character ends every run: the parts on either side are replaced independently |
| LessonSlug.ReplaceRun | lessons/kmath.js:18 | a white-space run of any length becomes a single '-' |
| LessonSlug.ReplaceFixedPoint | lessons/kmath.js:18 | the replacement leaves a string unchanged iff it has no white space |
| LessonSlug.ToLower | lessons/kmath.js:18 | each ASCII capital becomes the small letter at the same place in the alphabet and every other character is kept, so length and white space are kept and no ASCII capital is left |
| LessonSlug.Normalize | lessons/kmath.js:18 | the normalised title holds neither white space nor ASCII capitals |
| LessonSlug.NormalizeIdempotent | lessons/kmath.js:18 | normalising a normalised title changes nothing |
| LessonSlug.NormalizeFixedPoint | lessons/kmath.js:18 | a title normalises to itself iff it has no white space and no ASCII capitals |
| LessonSlug.Slug | lessons/kmath.js:56 | the file name starts with "lesson-", ends with ".html" and holds no white space |
| LessonSlug.LessonLink | lessons/kmath.js:16-19 | the link shows the title and leads to the file name under which the same lesson's page is downloaded, which holds no white space |
| LessonSlug.LessonDownload | lessons/kmath.js:28-62 | the downloaded page is headed by the title and lists the key points one per item, in order |
| LessonSlug.CreateLessonLinks | lessons/kmath.js:10-26 | one link and one download per lesson, in lesson order; each link's target is the file name of the page downloaded for the same lesson, and its text is the title |

## Findings

| source | as written | input that shows it | evidently intended | confidence | as-written member | corrected member |
|---|---|---|---|---|---|---|
| public/kmath/kmathRoutes.js:133, 234, 246 | buttons send the group's name as `:id`, the handler indexes the groups array by position, and the template reads an undeclared `groupName` | groups `[{name: "Counting", order: 1}]`: the button leads to `/kmath/group/Counting`, which gets 404 "Group not found"; `/kmath/group/0` throws a ReferenceError | look the group up by the name the button carries and render "<name> Group" | not executed; high | KmathRoutes.GroupButtonsDeadEnd | KmathRoutes.GroupButtonsReachGroupPages |

## Left out

- Express routing, `fs.readFile` callbacks, `res.send`/`res.json` and `app.listen` are left out. Each file read followed by `JSON.parse` is an input value: the parsed records, or a failed read.
- Malformed JSON and malformed records are left out; records are modelled as already parsed and never `null`. A missing `keyPoints` makes `.map` throw when the page is rendered. A `null` element of a lessons array is answered 404 by `/lesson/:id`, through the `if (!lesson)` check (public/kmath/kmathRoutes.js:33, server.js:38, api/index.js:32). The listings throw on it when they read `lesson.group` (public/kmath/kmathRoutes.js:119, server.js:122) or `lesson.lessonTitle` (api/index.js:69).
- The exact HTML, CSS, headers and navigation menus are left out. Pages are modelled by the fields that come from the records and by their links. This also leaves out two markup slips: the space in the kindergarten video URL (`embed /`, public/kmath/kmathRoutes.js:82) and the unclosed `<div` in server.js:84.
- Property names inherited by arrays ("length", "map", ...) are left out as lesson or group ids. `lessons["length"]` is a number, so the handler throws when it reaches `keyPoints.map` (or answers 404 for an empty array). Only array-index names are modelled as selecting an element.
- Group names that `Object.prototype` already has ("toString", "constructor", "__proto__") are left out. With such a name, `groupMap[lesson.group]` is truthy before any group is registered.
- Non-integer `order` values are left out: orders are modelled as integers. A fractional order would still sort by its value. A missing or non-numeric order makes the comparator return NaN, and the resulting order is then up to the engine.
- Server.KmathLinksResolve: assumes that the separate reads of `lessons.json` by `/kmath` and by `/lesson/:id` return the same data.
- The JSON endpoints `/lessons` and `/groups` are left out: they forward the parsed file unchanged. In public/kmath/kmathRoutes.js:219, `/groups` reports "Error reading lessons file" when the groups file fails to read.
- LessonSlug.ToLower: lower-cases ASCII letters only. JavaScript's `toLowerCase` also maps other Unicode capitals, some of them to two characters.
- Links are not percent-encoded: group names and titles appear in links as they are. The browser's encoding and Express's decoding of `:id` are taken to cancel out.
- The DOM work in lessons/kmath.js is left out: element creation, `<br>` separators, `Blob`, `URL.createObjectURL` and `click`. The script's `fetch` of `kmath.json` is left out too. Links and downloads are modelled as two sequences, not as their interleaving in time.
- updates.js is not part of this model: it renders fetched JSON into the DOM.
- announcements.js is not part of this model: it begins with two lines that are not JavaScript, and the rest is DOM event wiring.
