# LMS admin front end — a Dafny model

This project models the logic of a multi-tenant learning-management front end. The front end has three roles:

- the **super admin** runs clients (tenant organisations), partners, courses, tracks and platform dashboards;
- the **client admin** manages a client's learners and their assignments;
- the **learner** follows assigned courses and tracks, watches videos, takes quizzes and earns certificates.

Every page works on in-memory arrays seeded from one mock data module, and nothing is persisted.

**Entities.** The records become Dafny datatypes:

- clients, users, courses, videos, quizzes, questions, quiz attempts, tracks, track–course links, assignments, progress rows;
- a `Store` that holds one collection of each.

The seed data is a set of constants, and `WellFormed` states the invariants the data promises.

**Pages with state.** The pages whose handlers replace component state become classes:

- the client admin's assignments and users pages;
- the super admin's courses, tracks, clients and partners pages.

Each state array is a `seq` field. Every handler becomes a method. The method states when the handler rejects its input: it then leaves the whole state unchanged. It also states exactly what it appends, filters or maps, and that every other field stays as it was.

**Pages that only compute.** The learner pages and the three dashboards only compute. They become functions over a `Store`, with lemmas relating them to each other:

- a learner's rate in the client admin's table equals that learner's own dashboard figure;
- the super admin's `NaN || 0` rate equals the guarded rate the other pages use;
- the analytics page's per-client rate equals the super admin's activity bar.

**Arithmetic.**

- Ids are natural numbers, because the pages always build them as `String(k)`. A null reference becomes `Option`.
- Timestamps are an opaque `now` parameter.
- `Math.round((c / t) * 100)` is modelled as exact half-up rounding on integers (`Rounding.RoundDiv`), an idealisation of the page's double arithmetic (see "Left out").
- `Number.parseInt` follows section 19.2.5 of the ECMAScript 2024 Language Specification, over unbounded integers (`Numbers.ParseInt`).

## Model

| member | source | states |
|---|---|---|
| Entities.VideosOf | app/super-admin/courses/page.tsx:139 | keeps exactly the videos of course `c` |
| Entities.VideosOfCons | app/learner/dashboard/page.tsx:94 | the videos of a course in a list with one more video in front: that video if it belongs, then the rest |
| Entities.FilterUniqueBy | lib/mock-data.ts:101-323 | a filtered list keeps its ids distinct |
| Entities.WellFormed | lib/mock-data.ts:1-100 | the consistency rules of the data model: distinct ids per collection, roles against client ids, one content per assignment, positions 1..k per course, valid answer indices, one quiz per course, `passed` against the threshold, progress videos in their course, one row per user and video, a course at most once per track |
| Seed.SeedRoles | lib/mock-data.ts:112-163 | in the seed, only user 1 is a super admin and has no client; every other user belongs to client 1 |
| Seed.SeedVideosByCourse | lib/mock-data.ts:184-212 | the seed videos of course 1 are the first two and those of course 2 the third |
| Seed.SeedVideoPositions | lib/mock-data.ts:184-212 | within each course, the seed video positions are exactly 1..k |
| Seed.SeedAttemptPassed | lib/mock-data.ts:314-323 | the seed attempt's `passed` flag agrees with its score against quiz 1's threshold of 70 |
| Seed.SeedTrackOne | lib/mock-data.ts:257-268 | track 1 links course 1 at position 1 and course 2 at position 2 |
| Seed.SeedUserIdsUnique | lib/mock-data.ts:112-163 | the seed users have distinct ids |
| Seed.SeedAssignmentsHaveOneContent | lib/mock-data.ts:270-291 | every seed assignment is filed under client 1 and names exactly one of a course and a track |
| Seed.SeedReferencesValid | lib/mock-data.ts:101-323 | the seed records refer to one another consistently: roles against client ids, one content per assignment, valid answer indices, one quiz per course, progress rows on videos of their course, one row per user and video |
| Seed.SeedIdsUnique | lib/mock-data.ts:101-323 | every seed collection has distinct ids |
| Seed.SeedWellFormed | lib/mock-data.ts:101-323 | the seed store satisfies every `WellFormed` invariant: roles against client ids, exactly one content per assignment, sequential positions, valid `correct_index`, one quiz per course, `passed` against threshold, progress videos inside their course |
| Assignments.NewAssignments | app/client-admin/assignments/page.tsx:48-59 | one row per selected user, in selection order, numbered on from the list length; each carries the client, the admin, no due date, and the content in the field its kind names |
| Assignments.CourseRows | app/client-admin/assignments/page.tsx:104 | exactly the user's progress rows of the course |
| Assignments.StatusByCounts | app/client-admin/assignments/page.tsx:102-109 | status is Pending iff the course has no rows (or there is no course), Completed iff there are rows and all are completed, In Progress iff some row is open |
| Assignments.AssignmentStatus | app/client-admin/assignments/page.tsx:98-109 | Pending iff the row has no course or the learner has no progress row of that course; Completed iff it has a course, the learner has a row of it and every such row is completed |
| Assignments.TrackAlwaysPending | app/client-admin/assignments/page.tsx:101-103 | a track assignment is Pending whatever progress exists |
| Assignments.ContentTitle | app/client-admin/assignments/page.tsx:113 | the title of the named course when it is in the list; otherwise the title of the named track when that is in the list; otherwise "Unknown", also for an id that names nothing |
| Assignments.ContentTitleOfUniqueCourse | app/client-admin/assignments/page.tsx:100 | with distinct course ids, the title is the title of the one course with the named id |
| Assignments.UserAssignments | app/client-admin/assignments/page.tsx:97 | exactly the assignments of the user |
| Assignments.UserAssignmentDetails | app/client-admin/assignments/page.tsx:96-120 | one detail per assignment of the user, in list order, with its id, its `ContentTitle`, its kind (Course iff it has a course) and its `AssignmentStatus` |
| Assignments.CourseAndTrackCountsPartition | app/client-admin/assignments/page.tsx:239-255 | with one content per row, "Course" and "Track" counts add up to the total |
| Assignments.CourseAssignmentCount | app/client-admin/assignments/page.tsx:247 | at most the rows; all rows iff every row has a course; non-zero iff some row has a course |
| Assignments.TrackAssignmentCount | app/client-admin/assignments/page.tsx:255 | at most the rows; all rows iff every row has a track; non-zero iff some row has a track |
| Assignments.UniqueLearners | app/client-admin/assignments/page.tsx:263 | the number of different assignees among the rows, however often each repeats; at most the rows, and at least one when there are rows |
| Assignments.RepeatLearnerNotCounted | app/client-admin/assignments/page.tsx:263 | a further row for a learner who already has one, at either end, leaves "Unique Learners" unchanged |
| Assignments.NewLearnerCounted | app/client-admin/assignments/page.tsx:263 | a row for a learner with no row yet raises "Unique Learners" by one |
| Assignments.IdReusedAfterRemoval | app/client-admin/assignments/page.tsx:50 | removing row 1 of two and assigning again creates a second row with id 2 |
| Assignments.AssignmentsPage.constructor | app/client-admin/assignments/page.tsx:27-33 | starts on the seed assignments of client 1 with nothing selected |
| Assignments.AssignmentsPage.Assign | app/client-admin/assignments/page.tsx:38-73 | rejected, state unchanged, unless users and content are selected; otherwise appends exactly `NewAssignments` after the old rows and clears the selection |
| Assignments.AssignmentsPage.RemoveAssignment | app/client-admin/assignments/page.tsx:75-76 | keeps exactly the rows with another id, in order |
| Assignments.AssignmentsPage.ToggleUser | app/client-admin/assignments/page.tsx:83-84 | flips the user's membership of the selection and nothing else |
| Assignments.AssignmentsPage.ToggleContent | app/client-admin/assignments/page.tsx:87-88 | selects the content iff it was not selected, so at most one content is selected |
| Assignments.AssignmentsPage.ChooseType | app/client-admin/assignments/page.tsx:148 | switches the content kind only |
| Users.FilteredUsers | app/client-admin/users/page.tsx:39-44 | keeps a user iff the lower-cased query occurs in the lower-cased first name, last name or e-mail |
| Users.EmptySearchKeepsAll | app/client-admin/users/page.tsx:39-44 | an empty query keeps every user |
| Users.SearchIgnoresQueryCase | app/client-admin/users/page.tsx:39-44 | lower-casing the query first changes nothing |
| Users.BulkLines | app/client-admin/users/page.tsx:78 | a line is kept iff it is a newline-separated piece of the text that does not trim to nothing; kept lines contain no newline and are no more than the pieces |
| Users.BulkUsers | app/client-admin/users/page.tsx:88-97 | one learner per kept line, in order, with id `first + i`, the trimmed line as e-mail and the name "New User" |
| Users.NewLearner | app/client-admin/users/page.tsx:56-65 | an added user is an active learner of the page's client, which satisfies the role-against-client rule |
| Users.BulkExample | app/client-admin/users/page.tsx:78 | two addresses with a blank line between them and a trailing newline invite exactly those two, in order |
| Users.BulkExampleSplit | app/client-admin/users/page.tsx:78 | splitting such a text on newlines keeps the empty pieces, which the filter then drops |
| Users.TrimUnspaced | app/client-admin/users/page.tsx:91 | trimming a line without outer white space gives the line |
| Users.Deactivated | app/client-admin/users/page.tsx:110 | same length; only the rows with that id become inactive; every other field of every row is unchanged |
| Users.DeactivateIdempotent | app/client-admin/users/page.tsx:110 | deactivating twice is deactivating once |
| Users.ActiveInactiveTotal | app/client-admin/users/page.tsx:238-254 | active and inactive counts add up to the total |
| Users.ActiveCount | app/client-admin/users/page.tsx:246 | at most the users; all of them iff every user is active; non-zero iff some user is active |
| Users.InactiveCount | app/client-admin/users/page.tsx:254 | at most the users; all of them iff every user is inactive; non-zero iff some user is inactive |
| Users.AppendKeepsValid | app/client-admin/users/page.tsx:57 | appending learners of the client numbered on from the length keeps ids distinct and numbered |
| Users.UsersPage.constructor | app/client-admin/users/page.tsx:27-36 | starts on the seed learners of client 1 with empty forms |
| Users.UsersPage.EditSearch | app/client-admin/users/page.tsx:281 | sets the query only |
| Users.UsersPage.EditNewUser | app/client-admin/users/page.tsx:188-213 | sets the add form only |
| Users.UsersPage.EditBulkEmails | app/client-admin/users/page.tsx:150 | sets the bulk text only |
| Users.UsersPage.AddUser | app/client-admin/users/page.tsx:46-75 | rejected, state unchanged, iff a field is empty; otherwise appends one active learner of the client with id length + 100 and clears the form |
| Users.UsersPage.BulkAdd | app/client-admin/users/page.tsx:77-107 | rejected iff no line survives the trim filter; otherwise appends `BulkUsers` of the kept lines and clears the text |
| Users.UsersPage.DeactivateUser | app/client-admin/users/page.tsx:109-110 | the user list becomes `Deactivated`; nothing else changes |
| Courses.ParsedOr | app/super-admin/courses/page.tsx:283 | `parseInt(text) \|\| d`: the parsed value unless it is NaN or 0, then `d` |
| Courses.ThresholdNotRangeChecked | app/super-admin/courses/page.tsx:283 | any non-zero typed number is taken as the threshold, negative ones included; "0" and a blank field give 70 |
| Courses.RemoveAt | app/super-admin/courses/page.tsx:56 | drops exactly the element at the index, or nothing when the index is out of range |
| Courses.NewCourseVideos | app/super-admin/courses/page.tsx:87-95 | one video per draft, in order, numbered on from the video count, in the new course, at position i + 1, with minutes × 60 seconds |
| Courses.NewCourseDuration | app/super-admin/courses/page.tsx:94 | the new videos' seconds are 60 × the drafts' minutes |
| Courses.TotalDuration | app/super-admin/courses/page.tsx:401 | the card's total over the position-sorted videos equals the total over all the course's videos in any order |
| Courses.PublishedCourseDuration | app/super-admin/courses/page.tsx:401-439 | for a course just published onto a valid catalogue, the card's total is 60 × the drafted minutes and the rounded minutes shown are exactly the drafted minutes |
| Courses.NewQuestions | app/super-admin/courses/page.tsx:107-115 | one question per draft with a prompt, in order, keeping only non-empty options; none exactly when no prompt is filled |
| Courses.CorrectIndexNotRechecked | app/super-admin/courses/page.tsx:113-114 | an answer index that pointed at a dropped option is kept and then lies outside the options |
| Courses.CourseVideos | app/super-admin/courses/page.tsx:138-139 | exactly the course's videos, as a permutation of the filter, sorted by position |
| Courses.CourseQuiz | app/super-admin/courses/page.tsx:142-143 | a quiz of the course when one exists, none otherwise |
| Courses.CourseQuizUnique | app/super-admin/courses/page.tsx:142-143 | with one quiz per course, the lookup finds that quiz |
| Courses.DurationMinutes | app/learner/courses/page.tsx:95 | the rounded minutes lie within half a minute of the seconds |
| Courses.WholeMinutesShownExactly | app/super-admin/courses/page.tsx:439 | whole minutes are shown exactly |
| Courses.AppendCourseKeepsPositions | app/super-admin/courses/page.tsx:87-95 | appending a fresh course's videos at positions 1..k keeps every course's positions sequential |
| Courses.Published | app/super-admin/courses/page.tsx:76-124 | the course list gains exactly course `n + 1` with the form's title and description, the thumbnail, creator 1 and `now`; the videos gain exactly `NewCourseVideos` of the drafts; when some card has a prompt, quiz `m + 1` of that course with the typed threshold and exactly `NewQuestions` of the cards are appended, otherwise quizzes and questions are unchanged |
| Courses.PublishKeepsCatalogValid | app/super-admin/courses/page.tsx:66-136 | publishing keeps the catalogue invariant: sequential ids, links to existing rows, sequential positions, one quiz per course |
| Courses.PublishedCoursesAndVideos | app/super-admin/courses/page.tsx:76-95 | after publishing, course and video ids are 1..n and every video's course exists |
| Courses.AppendedQuizValid | app/super-admin/courses/page.tsx:98-120 | after appending the quiz, quiz and question ids are 1..n and link to existing rows, with one quiz per course |
| Courses.CoursesPage.constructor | app/super-admin/courses/page.tsx:34-48 | starts on the seed catalogue with an empty draft and a threshold of 70 |
| Courses.SeedCatalogValid | lib/mock-data.ts:165-246 | the seed courses, videos, quizzes and questions form a valid catalogue: ids 1..n in list order, every video and quiz in an existing course, every question in an existing quiz, sequential video positions, one quiz per course |
| Courses.CoursesPage.EditCourse | app/super-admin/courses/page.tsx:180-193 | sets the title and description draft only |
| Courses.CoursesPage.AddVideo | app/super-admin/courses/page.tsx:51-53 | appends one blank video draft |
| Courses.CoursesPage.RemoveVideo | app/super-admin/courses/page.tsx:55-57 | removes exactly the draft at the index |
| Courses.CoursesPage.EditVideoTitle | app/super-admin/courses/page.tsx:226-230 | sets one draft's title |
| Courses.CoursesPage.EditVideoUrl | app/super-admin/courses/page.tsx:237-241 | sets one draft's URL |
| Courses.CoursesPage.EditVideoDuration | app/super-admin/courses/page.tsx:248-252 | sets one draft's minutes to `parseInt(text) \|\| 0` |
| Courses.CoursesPage.EditThreshold | app/super-admin/courses/page.tsx:283 | sets the threshold to `parseInt(text) \|\| 70` |
| Courses.CoursesPage.AddQuestion | app/super-admin/courses/page.tsx:59-64 | appends one blank question |
| Courses.CoursesPage.EditQuestion | app/super-admin/courses/page.tsx:290-340 | replaces one question card |
| Courses.CoursesPage.CreateCourse | app/super-admin/courses/page.tsx:66-136 | rejected, state unchanged, iff title or description is empty or no video is drafted; otherwise the catalogue becomes `Published` and the drafts reset |
| Tracks.NewTrackLinks | app/super-admin/tracks/page.tsx:54-58 | one link per selected course, in selection order, at position i + 1 |
| Tracks.TrackCourses | app/super-admin/tracks/page.tsx:71-77 | one course per link of the track whose course is in the catalogue (no more, no fewer); each is the catalogue course of such a link, and the links they come from, read in result order, are sorted by position and are the resolving links of the track, each used exactly once |
| Tracks.ResolvedInOrder | app/super-admin/tracks/page.tsx:74-76 | looking up position-sorted links and dropping misses gives one course per resolving link, each the course of a link read in position order |
| Tracks.TrackResolutionsAgree | app/learner/dashboard/page.tsx:129-132 | with distinct course ids, the admin's position-ordered resolution and the learner's membership resolution list the same courses |
| Tracks.SwappedTrackByPosition | app/super-admin/tracks/page.tsx:71-77 | for a track linking the second course first, the admin page lists the courses swapped |
| Tracks.SwappedTrackByMembership | app/learner/courses/page.tsx:111-112 | the learner pages list them in catalogue order |
| Tracks.TrackOrderDiffers | app/learner/courses/page.tsx:111-112 | so the two pages show one track's courses in different orders |
| Tracks.TotalCourseLinks | app/super-admin/tracks/page.tsx:187 | "Total Courses" counts links, at least the distinct linked courses |
| Tracks.CreateKeepsTracksValid | app/super-admin/tracks/page.tsx:46-61 | creating a track keeps track ids sequential and every link pointing at an existing track |
| Tracks.FreshTrackLinks | app/super-admin/tracks/page.tsx:54-61 | the links of a fresh track are exactly the new links |
| Tracks.CreatedTrackResolvesToSelection | app/super-admin/tracks/page.tsx:46-77 | a created track resolves to the selected courses in selection order when they all exist |
| Tracks.TracksPage.constructor | app/super-admin/tracks/page.tsx:26-33 | starts on the seed tracks and links with an empty draft |
| Tracks.TracksPage.EditDetails | app/super-admin/tracks/page.tsx:119-132 | sets the title and description draft only |
| Tracks.TracksPage.ToggleCourse | app/super-admin/tracks/page.tsx:79-86 | flips the course's selection; a newly selected course goes last |
| Tracks.TracksPage.CreateTrack | app/super-admin/tracks/page.tsx:36-69 | rejected, state unchanged, iff a field is empty or no course is selected; otherwise appends the track numbered length + 1 and its links and resets the draft |
| Clients.FilteredClients | app/super-admin/clients/page.tsx:40 | keeps a client iff the lower-cased query occurs in its lower-cased name |
| Clients.EmptyClientSearchKeepsAll | app/super-admin/clients/page.tsx:40 | an empty query keeps every client |
| Clients.NewClient | app/super-admin/clients/page.tsx:52-59 | id length + 1, active, name, logo and colour from the form |
| Clients.WithoutClient | app/super-admin/clients/page.tsx:95 | keeps exactly the clients with another id |
| Clients.ActiveClients | app/super-admin/clients/page.tsx:215 | active clients number at most the clients |
| Clients.AddRaisesCounts | app/super-admin/clients/page.tsx:52-61 | an add raises the client count and the active count by one |
| Clients.CountPresentId | app/super-admin/clients/page.tsx:95 | with distinct ids, a present id occurs once |
| Clients.DeleteRemovesOne | app/super-admin/clients/page.tsx:94-95 | with distinct ids, deleting a present id removes exactly one client, and an absent id removes none |
| Clients.ClientIdReusedAfterDelete | app/super-admin/clients/page.tsx:53 | adding, deleting client 1 and adding again creates a second client 2 |
| Clients.GetClientStats | app/super-admin/clients/page.tsx:107-113 | the client's learners and admins together number at most its users |
| Clients.TotalLearners | app/super-admin/clients/page.tsx:224 | the platform's learners number at most its users |
| Clients.ListedLearnersCount | app/super-admin/clients/page.tsx:107-113 | with distinct client ids, the learners column sums to the learners of the listed clients |
| Clients.ListedLearnersBounded | app/super-admin/clients/page.tsx:224 | so the column never sums above "Total Learners"; learners of deleted clients keep counting on the card |
| Clients.ClientsPage.constructor | app/super-admin/clients/page.tsx:26-37 | starts on the seed clients, empty search, default form, no selection |
| Clients.ClientsPage.EditSearch | app/super-admin/clients/page.tsx:254 | sets the query only |
| Clients.ClientsPage.EditForm | app/super-admin/clients/page.tsx:146-181 | sets the add form only |
| Clients.ClientsPage.AddClient | app/super-admin/clients/page.tsx:42-69 | rejected, state unchanged, iff the name is empty; otherwise appends `NewClient` and resets the form to colour #1E3A8A |
| Clients.ClientsPage.DeleteClient | app/super-admin/clients/page.tsx:94-100 | the list becomes `WithoutClient`; nothing else changes |
| Clients.ClientsPage.OpenAssignDialog | app/super-admin/clients/page.tsx:102-105 | selects the client and opens the dialog |
| Clients.ClientsPage.SetCourseChecked | app/super-admin/clients/page.tsx:353-358 | ticking appends the course, unticking removes every copy of it |
| Clients.ClientsPage.SetTrackChecked | app/super-admin/clients/page.tsx:384-389 | the same for tracks |
| Clients.ClientsPage.AssignContent | app/super-admin/clients/page.tsx:71-92 | does nothing without a client or with nothing ticked; otherwise only closes and clears the dialog |
| Clients.ClientsPage.CancelAssign | app/super-admin/clients/page.tsx:406-411 | closes and clears the dialog |
| Partners.FilteredPartners | app/super-admin/partners/page.tsx:74-78 | keeps a partner iff the lower-cased query occurs in its lower-cased name or e-mail |
| Partners.EmptyPartnerSearchKeepsAll | app/super-admin/partners/page.tsx:74-78 | an empty query keeps every partner |
| Partners.NewPartner | app/super-admin/partners/page.tsx:90-98 | id length + 1, no clients, active, licences `parseInt` of the field |
| Partners.WithoutPartner | app/super-admin/partners/page.tsx:111 | keeps exactly the partners with another id |
| Partners.TotalLicenses | app/super-admin/partners/page.tsx:202 | the licence total is NaN iff some partner's licences are NaN |
| Partners.InitialTotals | app/super-admin/partners/page.tsx:33-61 | the initial cards show 35 clients and 1550 licences |
| Partners.TotalClients | app/super-admin/partners/page.tsx:194 | with non-negative client counts the total is non-negative and at least each partner's count; with non-positive counts it is non-positive |
| Partners.AddKeepsTotalClients | app/super-admin/partners/page.tsx:94 | an add leaves "Total Clients" unchanged |
| Partners.LicensesAppend | app/super-admin/partners/page.tsx:202 | appending a partner adds its licences to the total, NaN absorbing |
| Partners.LeadingPointLicencesGiveNaN | app/super-admin/partners/page.tsx:81-95 | a licence quota written as a decimal with no integer part (`.5`, which the number input accepts) passes the guard, becomes NaN, and turns "Total Licenses" into NaN |
| Partners.DeleteNeverRaisesTotalClients | app/super-admin/partners/page.tsx:111 | deleting never raises "Total Clients" |
| Partners.PartnersPage.constructor | app/super-admin/partners/page.tsx:64-71 | starts on the initial partners with an empty search and form |
| Partners.PartnersPage.EditSearch | app/super-admin/partners/page.tsx:221 | sets the query only |
| Partners.PartnersPage.EditForm | app/super-admin/partners/page.tsx:145-165 | sets the add form only |
| Partners.PartnersPage.AddPartner | app/super-admin/partners/page.tsx:80-108 | rejected, state unchanged, iff a field is empty; otherwise appends `NewPartner` and clears the form |
| Partners.PartnersPage.DeletePartner | app/super-admin/partners/page.tsx:110-111 | the list becomes `WithoutPartner` |
| Numbers.ParseInt | app/super-admin/partners/page.tsx:95 | NaN exactly when no digit of the chosen base follows the white space, sign and prefix |
| Numbers.Show | app/super-admin/courses/page.tsx:283 | decimal digits of a natural number, no leading zero |
| Numbers.ParseShow | app/super-admin/courses/page.tsx:283 | parsing the decimal form of `n` gives `n` |
| Numbers.ParseShown | app/super-admin/partners/page.tsx:95 | parsing stops at the first non-digit after the number |
| Numbers.ParseNegativeShown | app/super-admin/courses/page.tsx:283 | "-n" parses to -n |
| Numbers.ParseBlank | app/super-admin/partners/page.tsx:95 | a blank field parses to NaN |
| Numbers.ParseLeadingPoint | app/super-admin/partners/page.tsx:95 | text that starts with a decimal point (`.5`) parses to NaN, since no digit comes before the point |
| Rounding.RoundDiv | app/learner/dashboard/page.tsx:27 | the integer nearest `a / b`, halves rounded up |
| Rounding.RoundDivUnique | app/learner/dashboard/page.tsx:27 | that integer is the only one in the half-open window |
| Rounding.RoundDivMonotone | app/learner/certificates/page.tsx:52 | rounding preserves order |
| Rounding.RoundDivExact | app/learner/certificates/page.tsx:52 | a whole mean is returned unchanged |
| Rounding.Percent | app/learner/dashboard/page.tsx:27 | 0 for no items; otherwise the nearest percentage, at most 100 when the count does not exceed the total |
| Rounding.PercentOfAll | app/learner/dashboard/page.tsx:98 | all items done gives 100 |
| Rounding.PercentMonotone | app/learner/dashboard/page.tsx:98 | more items done never lowers the percentage |
| Rounding.PercentFullOnlyIfAll | app/learner/courses/page.tsx:102 | below 200 items, 100 means all done |
| Rounding.PercentFullWithOneMissing | app/learner/courses/page.tsx:102 | 199 of 200 already shows 100 |
| Rounding.PercentZeroIffNone | app/learner/courses/page.tsx:102 | up to 200 items, 0 means none done |
| Rounding.PercentZeroWithOneItem | app/learner/courses/page.tsx:102 | 1 of 201 shows 0 |
| Metrics.UserProgress | app/learner/dashboard/page.tsx:22 | exactly the user's progress rows |
| Metrics.OpenAndCompletedPartition | app/learner/dashboard/page.tsx:25-38 | "In Progress" and "Completed" add up to the user's rows |
| Metrics.CompletionRate | app/learner/dashboard/page.tsx:25-27 | 0 without rows; otherwise the nearest percentage of completed rows, at most 100 |
| Metrics.AllCompletedIsFull | app/learner/dashboard/page.tsx:27 | all rows completed gives 100 |
| Metrics.FullRateMeansAllCompleted | app/learner/dashboard/page.tsx:27 | below 200 rows, 100 means all completed |
| Metrics.ZeroRateMeansNoneCompleted | app/learner/dashboard/page.tsx:27 | up to 200 rows, 0 means none completed |
| Metrics.CoursePercent | app/learner/dashboard/page.tsx:94-98 | 0 for a course without videos; 100 when completed rows equal the videos; at most 100 while they do not exceed them |
| Metrics.FindCourse | app/learner/dashboard/page.tsx:90 | a course with that id when one exists, none otherwise |
| Metrics.TrackLinks | app/learner/dashboard/page.tsx:130 | exactly the track's links |
| Metrics.TrackCoursesByMembership | app/learner/dashboard/page.tsx:129-132 | the catalogue filtered down to the courses some link of the track points at, so exactly those courses, each once per catalogue entry, in catalogue order |
| Learner.DashboardHeadline | app/learner/dashboard/page.tsx:21-38 | assigned count, in-progress and completed rows adding up to the user's rows, and the overall rate |
| Learner.CompletedRows | app/learner/dashboard/page.tsx:95-96 | exactly the user's completed rows of the course |
| Learner.FindTrack | app/learner/dashboard/page.tsx:91 | a track with that id when one exists |
| Learner.AssignedCourse | app/learner/dashboard/page.tsx:90 | the assignment's course when it names one that exists |
| Learner.AssignedTrack | app/learner/dashboard/page.tsx:91 | the assignment's track when it names one that exists |
| Learner.CardFor | app/learner/dashboard/page.tsx:89-140 | a course card when the course exists (completed rows, videos, percent, seconds); else a track card whose courses are the catalogue, in its order, filtered down to the courses the track links; else no card |
| Learner.CardUnlessContentMissing | app/learner/dashboard/page.tsx:89-140 | no card exactly when neither the course nor the track is found |
| Learner.CompletedRowsBounded | app/learner/dashboard/page.tsx:94-98 | with one row per user and video, and rows pointing at videos of their course, completed rows never outnumber the course's videos |
| Learner.CourseCardAtMostFull | app/learner/dashboard/page.tsx:98 | with one row per user and video, rows pointing at videos of their course, and every completed row naming a video, a course card never shows more than 100 |
| Learner.OnlyCompletedRows | app/learner/dashboard/page.tsx:95-96 | when every row is a completed row of the learner for the course, every row counts |
| Learner.VideolessStoreWellFormed | lib/mock-data.ts:94 | a store whose progress rows name no video still satisfies every rule of the data model |
| Learner.VideolessRowsOverfillCard | app/learner/dashboard/page.tsx:94-98 | completed rows without a video all count, so on that well-formed store the seed learner's card shows 3 of 2 videos, 150% |
| Learner.DashboardAction | app/learner/dashboard/page.tsx:118 | "Start" iff the percent is 0, otherwise "Continue" |
| Learner.CoursePageAction | app/learner/courses/page.tsx:102 | "Start Course" iff 0, "Review" iff 100, "Continue" otherwise |
| Learner.ActionsAgreeBelowFull | app/learner/courses/page.tsx:102 | the two pages agree except at 100, where the dashboard still says "Continue" |
| Learner.CourseActionByCompletion | app/learner/courses/page.tsx:60-64 | below 200 videos, "Start Course" iff nothing completed and "Review" iff everything completed |
| Learner.CardMinutes | app/learner/courses/page.tsx:65 | a card's minutes lie within half a minute of its seconds |
| Learner.RecentCompleted | app/learner/dashboard/page.tsx:198-200 | the first two completed rows, or all of them when fewer |
| Learner.RowVideoTitle | app/learner/dashboard/page.tsx:202-213 | the title of the row's video when it exists |
| Learner.SeedLeeHalfway | lib/mock-data.ts:293-312 | the seed learner's course 1 card shows 1 of 2 videos, 50% |
| Learner.CnIgnoresFalsy | app/learner/dashboard/page.tsx:230-232 | falsy arguments leave the class string unchanged |
| Learner.Cn | app/learner/dashboard/page.tsx:230-232 | empty when no argument is truthy; the text of every truthy argument occurs in the result |
| Learner.CnSplits | app/learner/dashboard/page.tsx:230-232 | splitting the result on spaces gives back the truthy arguments |
| Certificates.PassedAttempts | app/learner/certificates/page.tsx:12 | exactly the user's passed attempts |
| Certificates.CompletedCourseIds | app/learner/certificates/page.tsx:15 | exactly the courses with a completed row |
| Certificates.CertifiedCourses | app/learner/certificates/page.tsx:16 | the catalogue filtered down to the courses with a completed row, so exactly those, in catalogue order, at most the catalogue |
| Certificates.SeedCertificateAtHalfway | app/learner/certificates/page.tsx:15-16 | one completed video of two already certifies course 1 for the seed learner |
| Certificates.AverageScore | app/learner/certificates/page.tsx:51-53 | 0 without attempts; otherwise the nearest integer to the mean |
| Certificates.AverageWithinScores | app/learner/certificates/page.tsx:51-53 | the average lies within the range of the scores |
| Certificates.AveragePassedReachesThreshold | app/learner/certificates/page.tsx:51-53 | when `passed` agrees with the thresholds and every attempt's quiz asks at least `floor`, the average of the passed attempts is at least `floor` |
| Certificates.CompletionDate | app/learner/certificates/page.tsx:64-65 | the update time of the first completed row of the course, or `now` |
| Certificates.CertifiedHasCompletionRow | app/learner/certificates/page.tsx:64-65 | a certified course always has that row |
| ClientDashboard.ClientLearners | app/client-admin/dashboard/page.tsx:10 | exactly the learners of the client |
| ClientDashboard.ClientProgress | app/client-admin/dashboard/page.tsx:12 | exactly the progress rows of the listed learners |
| ClientDashboard.ClientAssignments | app/client-admin/dashboard/page.tsx:11 | exactly the assignments filed under the client |
| ClientDashboard.DashboardCards | app/client-admin/dashboard/page.tsx:14-41 | learner and assignment counts; "Completion Rate" and "Avg Progress" show the one pooled rate |
| ClientDashboard.RowFor | app/client-admin/dashboard/page.tsx:89-93 | the learner's assignment count never exceeds the card; the rate is at most 100 |
| ClientDashboard.LearnerRows | app/client-admin/dashboard/page.tsx:88 | one row per learner of the client, in order |
| ClientDashboard.RowRateIsLearnerOverall | app/client-admin/dashboard/page.tsx:89-92 | a learner's rate in the table equals the overall rate on that learner's dashboard |
| ClientDashboard.RowAssignmentsAreLearnerCount | app/client-admin/dashboard/page.tsx:93 | the learner's assignment cell equals the learner's own count when all of them are filed under the client |
| ClientDashboard.PooledRateIsNotMeanOfRows | app/client-admin/dashboard/page.tsx:39 | "Avg Progress" is not the mean of the table's rates: rows at 100 and 0 give 25 |
| ClientDashboard.AssignedColumnSum | app/client-admin/dashboard/page.tsx:93 | with distinct user ids, the column sums to the filed assignments of listed learners |
| ClientDashboard.AssignedColumnBounded | app/client-admin/dashboard/page.tsx:11 | so the column never sums above "Active Assignments" |
| ClientDashboard.RowsSumIsColumn | app/client-admin/dashboard/page.tsx:88-93 | summing the rows' cells is summing per learner |
| SuperDashboard.OrZero | app/super-admin/dashboard/page.tsx:12 | `x \|\| 0`: NaN gives 0 |
| SuperDashboard.RoundedShare | app/super-admin/dashboard/page.tsx:12 | NaN exactly when there are no rows |
| SuperDashboard.PlatformRate | app/super-admin/dashboard/page.tsx:12 | the unguarded share with NaN turned into 0 equals the guarded completion rate |
| SuperDashboard.DashboardCards | app/super-admin/dashboard/page.tsx:9-12 | active clients, all learners, all courses, and a platform rate between 0 and 100 |
| SuperDashboard.ActivityFor | app/super-admin/dashboard/page.tsx:96-100 | completed of total items of the client's learners; the bar equals the client dashboard's rate |
| SuperDashboard.ClientActivity | app/super-admin/dashboard/page.tsx:96 | one entry per client, in order |
| SuperDashboard.RowOfOneClient | app/super-admin/dashboard/page.tsx:97-98 | with distinct user ids, a row of one client's learners is no other client's |
| SuperDashboard.ListedClientSplit | app/super-admin/dashboard/page.tsx:98 | a row of the listed clients is the first client's or another's |
| SuperDashboard.ListedClientExclusive | app/super-admin/dashboard/page.tsx:98 | with distinct ids it is never both |
| SuperDashboard.ActivityTotalsCount | app/super-admin/dashboard/page.tsx:98-108 | with distinct ids, the entries' items sum to the rows of listed clients' learners |
| SuperDashboard.ActivityTotalsBounded | app/super-admin/dashboard/page.tsx:108 | so the entries never claim more items than there are rows |
| SuperDashboard.EntriesSumIsItems | app/super-admin/dashboard/page.tsx:108 | summing the entries is summing per client |
| Analytics.PlatformOverview | app/super-admin/analytics/page.tsx:11-14 | all learners, completed of all rows, and an average completion equal to the super admin's dashboard rate |
| Analytics.LearnerAssignments | app/super-admin/analytics/page.tsx:33 | exactly the assignments whose assignee is a listed learner |
| Analytics.MetricFor | app/super-admin/analytics/page.tsx:28-48 | learners as on the clients page, active at most all, "courses assigned" the number of different content keys among the learners' assignments (at most the assignments, at least one when there are any), rate equal to the super admin's activity bar |
| Analytics.ClientMetrics | app/super-admin/analytics/page.tsx:28 | one row per client, in order |
| Analytics.CourseAndTrackWithSameIdCountOnce | app/super-admin/analytics/page.tsx:34 | a course and a track with the same id count as one assigned item |
| Analytics.AssignmentScopesAgree | app/super-admin/analytics/page.tsx:33 | with distinct user ids, scoping by assignee equals the client dashboard's scoping by `client_id` when every assignment goes to a learner of its client |
| Text.Lower | app/super-admin/clients/page.tsx:40 | ASCII lower-casing, character by character |
| Text.LowerIdempotent | app/client-admin/users/page.tsx:39-44 | lower-casing twice is lower-casing once |
| Text.ContainsIff | app/super-admin/clients/page.tsx:40 | `includes` holds iff the query occurs at some index |
| Text.Trim | app/client-admin/users/page.tsx:78 | a slice with only white space cut off at both ends; empty iff all white space |
| Text.Split | app/client-admin/users/page.tsx:78 | at least one piece, none containing the separator |
| Text.JoinSplit | app/client-admin/users/page.tsx:78 | joining the pieces gives back the text |
| Text.SplitJoin | app/learner/dashboard/page.tsx:231 | splitting a join of separator-free parts gives back the parts |
| Text.JoinHasPart | app/learner/dashboard/page.tsx:231 | every piece occurs in the joined text |
| Seqs.Toggle | app/client-admin/assignments/page.tsx:84 | flips membership of `x` only, appending it when absent, keeping lists duplicate-free |
| Seqs.SetChecked | app/super-admin/clients/page.tsx:353-358 | checked appends; unchecked removes every copy |
| Seqs.CheckedIsToggle | app/super-admin/clients/page.tsx:353-358 | when the box shows the current membership, checking is toggling |
| Seqs.SortBy | app/super-admin/tracks/page.tsx:74 | a sorted permutation |
| Seqs.SortBySorted | app/super-admin/courses/page.tsx:139 | sorting a sorted list changes nothing |
| Seqs.Find | app/learner/certificates/page.tsx:64 | the first element that passes, none when nothing passes |
| Seqs.DistinctCount | app/client-admin/assignments/page.tsx:263 | `new Set(s).size`: the size of the set of the elements; at most the length, at least one for a non-empty list |
| Seqs.DistinctKeys | app/client-admin/assignments/page.tsx:263 | the distinct count of the keys of a list is the number of different keys its elements have |
| Seqs.DistinctCountNoDup | app/client-admin/assignments/page.tsx:263 | a duplicate-free list counts its length |
| Seqs.Values | app/super-admin/tracks/page.tsx:76 | `filter(Boolean)` on lookups: the found values |
| Seqs.ValuesOfMap | app/super-admin/tracks/page.tsx:76-77 | mapping a lookup and dropping misses gives one value per element that resolves, in order, each that element's value |
| Seqs.SumPermutation | app/super-admin/courses/page.tsx:401 | a sum does not depend on the order of its terms |
| Seqs.CountPermutation | app/super-admin/tracks/page.tsx:72-74 | a count does not depend on the order of the elements |
| Seqs.FilterMultiplicity | app/super-admin/tracks/page.tsx:72-74 | a filter keeps every copy of a value it keeps and no copy of one it drops |
| Seqs.FilterPermutation | app/super-admin/tracks/page.tsx:72-74 | filtering a rearrangement gives a rearrangement of the filtered sequence |
| Seqs.Take | app/learner/dashboard/page.tsx:200 | `slice(0, n)`: the prefix of length n, or the whole list when it is shorter |

## Left out

- Rendering is not modelled: JSX markup, styling, badges, icons, dialogs' open state where no handler reads it, and toasts.
- The layouts, the login page, the landing page and the settings pages are not modelled; they hold only navigation, `localStorage` and toasts.
- Timestamps are opaque values; `new Date().toISOString()`, `toLocaleDateString` and `split("T")` are not modelled.
- The course thumbnail URL built with `encodeURIComponent` is a parameter of `CreateCourse`.
- Floating point is not modelled: `Math.round((c / t) * 100)` becomes exact half-up rounding of 100 · c / t. The page rounds a double quotient before multiplying by 100, so where the product lands just below an exact half the page rounds down and the model rounds up. For 23 of 40, 0.575 × 100 is 57.49999999999999 in double precision, so the page shows 57 and `Rounding.Percent(23, 40)` gives 58. 46 of 80, 69 of 120, 92 of 160, 29 of 200, 57 of 200, 113 of 200 and 115 of 200 behave the same way. `Math.round(s / 60)` is a single correctly rounded division, and for whole seconds it agrees with `Rounding.RoundDiv(s, 60)`.
- Numbers.ParseInt: works on unbounded integers, so the loss of precision past 2^53 and the `-0` result of "-0" are not modelled.
- The browser's value sanitisation of `type="number"` and `type="email"` inputs is not modelled: form fields are arbitrary strings, so some accepted inputs (a licence field of spaces) cannot be typed into the page; `Partners.LeadingPointLicencesGiveNaN` uses a value the number input does hold.
- Text.Lower: lower-cases ASCII letters only; `toLowerCase` also folds other scripts.
- Courses.CoursesPage.EditQuestion: the page mutates a question's prompt, option, answer index or explanation in place through a shallow copy, which also alters the state object it copied; the model replaces the whole question card, without that aliasing.
- Courses.CoursesPage.EditVideoTitle, Courses.CoursesPage.EditVideoUrl, Courses.CoursesPage.EditVideoDuration: the same in-place write through a shallow copy is modelled as a functional update of one draft.
- The hard-coded chart arrays of the super admin's dashboard and the analytics page, and the analytics date-range selector, are not modelled: they hold constants.
- The analytics cards that show the assignment count twice, and the "passed" count that reads a field assignments do not have (so it is always 0), are not modelled beyond `PlatformOverview.assignments`.
- Learner.CardFor: the course page's detail route and the quiz-taking flow are not modelled.
- The selection of the learner ("Lee", user 3) and of the client (client 1) is a constant, as in the pages.
