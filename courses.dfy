/**
 * The super admin's course builder: the course catalogue with its videos,
 * quizzes and questions, and the create dialog whose drafts (course details,
 * a list of videos, an optional quiz) are published in one step.
 */
module Courses {
  import opened Optional
  import opened Seqs
  import opened Text
  import opened Numbers
  import opened Rounding
  import opened Entities
  import opened Seed

  /** A video row of the create dialog; `duration` is in minutes. */
  datatype VideoDraft = VideoDraft(title: string, url: string, duration: int)

  /** A question card of the create dialog. */
  datatype QuestionDraft = QuestionDraft(prompt: string, options: seq<string>, correct_index: int,
                                         explanation: string)

  /** The course details of the create dialog. */
  datatype CourseForm = CourseForm(title: string, description: string)

  /** The quiz part of the create dialog. */
  datatype QuizDraft = QuizDraft(pass_threshold: int, questions: seq<QuestionDraft>)

  /** New courses are recorded as created by the platform admin, user 1. */
  const Creator: Id := 1

  /** The threshold a new quiz starts with and falls back to. */
  const DefaultThreshold: int := 70

  /** A new question card: empty prompt, three empty options, the first marked correct. */
  const BlankQuestion := QuestionDraft("", ["", "", ""], 0, "")

  /** The quiz draft the dialog opens with and returns to after publishing. */
  const InitialQuiz := QuizDraft(DefaultThreshold, [BlankQuestion])

  /**
   * `Number.parseInt(text) || d`: the parsed number, or `d` when parsing
   * gave NaN or 0. Any other number, negative or above 100, is kept.
   */
  function ParsedOr(text: string, d: int): (r: int)
    ensures ParseInt(text).Some? && ParseInt(text).value != 0 ==> r == ParseInt(text).value
    ensures ParseInt(text).None? || ParseInt(text).value == 0 ==> r == d
  {
    match ParseInt(text)
    case Some(n) => if n != 0 then n else d
    case None => d
  }

  /**
   * The threshold input is not range checked: any non-zero whole number
   * typed, 150 or -5 alike, is stored as typed; a blank field or 0 gives 70.
   */
  lemma ThresholdNotRangeChecked(n: nat, blank: string)
    requires n != 0 && AllSpace(blank)
    ensures ParsedOr(Show(n), DefaultThreshold) == n
    ensures ParsedOr("-" + Show(n), DefaultThreshold) == -(n as int)
    ensures ParsedOr(Show(0), DefaultThreshold) == DefaultThreshold
    ensures ParsedOr(blank, DefaultThreshold) == DefaultThreshold
  {
    assert ParsedOr(Show(n), DefaultThreshold) == n by { ParseShow(n); }
    assert ParsedOr("-" + Show(n), DefaultThreshold) == -(n as int) by { ParseNegativeShown(n); }
    assert ParsedOr(Show(0), DefaultThreshold) == DefaultThreshold by { ParseShow(0); }
    ParseBlank(blank);
  }

  /** `s.filter((_, i) => i !== k)`: `s` without the element at index `k`; unchanged when `k` is out of range. */
  function RemoveAt<T>(s: seq<T>, k: int): (r: seq<T>)
    ensures 0 <= k < |s| ==> r == s[..k] + s[k + 1..]
    ensures !(0 <= k < |s|) ==> r == s
  {
    if s == [] then []
    else if k == 0 then s[1..]
    else
      var rest := RemoveAt(s[1..], k - 1);
      assert 0 < k < |s| ==> [s[0]] + s[1..][..k - 1] + s[1..][k..] == s[..k] + s[k + 1..];
      [s[0]] + rest
  }

  /**
   * The video rows of a new course: draft `i` becomes the video numbered
   * `existing + i + 1` at position `i + 1`, its minutes turned into seconds.
   */
  function NewCourseVideos(existing: nat, course: Id, drafts: seq<VideoDraft>, now: Timestamp): (r: seq<Video>)
    ensures |r| == |drafts|
    ensures forall i :: 0 <= i < |r| ==>
              && r[i].id == existing + i + 1 && r[i].course_id == course && r[i].position == i + 1
              && r[i].title == drafts[i].title && r[i].url == drafts[i].url
              && r[i].duration_seconds == 60 * drafts[i].duration
  {
    seq(|drafts|, i requires 0 <= i < |drafts| => NewVideo(existing + i + 1, course, drafts[i], i + 1, now))
  }

  function NewVideo(id: Id, course: Id, d: VideoDraft, position: int, now: Timestamp): Video {
    Video(id, course, d.title, d.url, position, d.duration * 60, now)
  }

  /** `(v) => v.duration_seconds`. */
  function Seconds(): Video -> int {
    (v: Video) => v.duration_seconds
  }

  /** `(v) => v.duration`: the minutes typed into a draft. */
  function Minutes(): VideoDraft -> int {
    (d: VideoDraft) => d.duration
  }

  /** A published course lasts sixty times the minutes typed into its drafts. */
  lemma {:induction false} NewCourseDuration(existing: nat, course: Id, drafts: seq<VideoDraft>, now: Timestamp)
    ensures Sum(NewCourseVideos(existing, course, drafts, now), Seconds()) == 60 * Sum(drafts, Minutes())
  {
    if drafts != [] {
      var n := |drafts| - 1;
      var init := drafts[..n];
      NewCourseDuration(existing, course, init, now);
      var vs := NewCourseVideos(existing, course, drafts, now);
      assert vs == NewCourseVideos(existing, course, init, now) + [vs[n]];
      assert drafts == init + [drafts[n]];
      SumAppend(NewCourseVideos(existing, course, init, now), vs[n], Seconds());
      SumAppend(init, drafts[n], Minutes());
    }
  }

  /** A question card counts when its prompt is filled in. */
  function HasPrompt(): QuestionDraft -> bool {
    (q: QuestionDraft) => q.prompt != []
  }

  /** `newQuiz.questions.some((q) => q.prompt)`: a quiz is created only if some card has a prompt. */
  predicate WantsQuiz(drafts: seq<QuestionDraft>) {
    exists q :: q in drafts && q.prompt != []
  }

  /**
   * The question rows of a new quiz: the cards with a prompt, in order,
   * numbered on from `existing`, keeping only their non-empty options and
   * copying the marked index as it is.
   */
  function NewQuestions(existing: nat, quiz: Id, drafts: seq<QuestionDraft>): (r: seq<Question>)
    ensures |r| == Count(drafts, HasPrompt())
    ensures forall i :: 0 <= i < |r| ==>
              var d := Filter(drafts, HasPrompt())[i];
              && r[i].id == existing + i + 1 && r[i].quiz_id == quiz && r[i].prompt == d.prompt != []
              && r[i].options == Filter(d.options, (o: string) => o != [])
              && r[i].correct_index == d.correct_index && r[i].explanation == d.explanation
    ensures r != [] <==> WantsQuiz(drafts)
  {
    var kept := Filter(drafts, HasPrompt());
    assert kept != [] <==> WantsQuiz(drafts) by {
      if kept != [] { assert kept[0] in kept; }
    }
    assert forall i :: 0 <= i < |kept| ==> kept[i].prompt != [] by {
      forall i | 0 <= i < |kept| ensures kept[i].prompt != [] { assert kept[i] in kept; }
    }
    seq(|kept|, i requires 0 <= i < |kept| => NewQuestion(existing + i + 1, quiz, kept[i]))
  }

  function NewQuestion(id: Id, quiz: Id, d: QuestionDraft): Question {
    Question(id, quiz, d.prompt, Filter(d.options, (o: string) => o != []), d.correct_index, d.explanation)
  }

  /**
   * The marked index is not checked against the options that survive: a
   * card with options "A", "", "" and the third marked stores one option and
   * index 2.
   */
  lemma CorrectIndexNotRechecked()
    ensures var q := NewQuestions(0, 1, [QuestionDraft("Q", ["A", "", ""], 2, "")])[0];
            q.options == ["A"] && q.correct_index == 2 && !CorrectIndexValid(q)
  {
    var d := QuestionDraft("Q", ["A", "", ""], 2, "");
    var nonEmpty := (o: string) => o != [];
    assert Filter([d], HasPrompt()) == [d];
    assert d.options[1..] == ["", ""] && d.options[1..][1..] == [""];
    assert Filter(d.options, nonEmpty) == ["A"];
  }

  /** `getCourseVideos(c)`: the course's videos sorted by position. */
  function CourseVideos(videos: seq<Video>, c: Id): (r: seq<Video>)
    ensures SortedBy(r, (v: Video) => v.position)
    ensures forall v :: v in r <==> v in videos && v.course_id == c
    ensures multiset(r) == multiset(VideosOf(videos, c))
  {
    var r := SortBy(VideosOf(videos, c), (v: Video) => v.position);
    assert forall v :: v in r <==> v in multiset(r);
    r
  }

  /** `getCourseQuiz(c)`: the first quiz of the course, if any. */
  function CourseQuiz(quizzes: seq<Quiz>, c: Id): (r: Option<Quiz>)
    ensures r.Some? <==> exists q :: q in quizzes && q.course_id == c
    ensures r.Some? ==> r.value in quizzes && r.value.course_id == c
  {
    Find(quizzes, (q: Quiz) => q.course_id == c)
  }

  /** With at most one quiz per course, the quiz found is the course's only quiz. */
  lemma CourseQuizUnique(quizzes: seq<Quiz>, c: Id)
    requires OneQuizPerCourse(quizzes)
    ensures forall q :: q in quizzes && q.course_id == c ==> CourseQuiz(quizzes, c) == Some(q)
  {
    forall q | q in quizzes && q.course_id == c ensures CourseQuiz(quizzes, c) == Some(q) {
      var r := CourseQuiz(quizzes, c).value;
      var i :| 0 <= i < |quizzes| && quizzes[i] == q;
      var j :| 0 <= j < |quizzes| && quizzes[j] == r;
      if i < j { assert quizzes[i].course_id != quizzes[j].course_id; }
      if j < i { assert quizzes[j].course_id != quizzes[i].course_id; }
    }
  }

  /**
   * The course card's total running time in seconds, summed over the
   * position-sorted videos; the order does not matter, so it is the total of
   * every video of the course.
   */
  function TotalDuration(videos: seq<Video>, c: Id): (r: int)
    ensures r == Sum(VideosOf(videos, c), Seconds())
  {
    SumPermutation(CourseVideos(videos, c), VideosOf(videos, c), Seconds());
    Sum(CourseVideos(videos, c), Seconds())
  }

  /** `Math.round(totalDuration / 60)`: the running time in whole minutes, to the nearest minute. */
  function DurationMinutes(seconds: int): (m: int)
    ensures 60 * m - 30 <= seconds < 60 * m + 30
  {
    RoundDiv(seconds, 60)
  }

  /** A running time of whole minutes is shown exactly. */
  lemma WholeMinutesShownExactly(minutes: int)
    ensures DurationMinutes(60 * minutes) == minutes
  {
    RoundDivExact(minutes, 60);
  }

  /** Appending a new course's videos, numbered 1..k, keeps every course's positions 1..k. */
  lemma AppendCourseKeepsPositions(old_videos: seq<Video>, added: seq<Video>, c: Id)
    requires PositionsSequential(old_videos)
    requires forall v :: v in old_videos ==> v.course_id != c
    requires forall i :: 0 <= i < |added| ==> added[i].course_id == c && added[i].position == i + 1
    ensures PositionsSequential(old_videos + added)
  {
    var all := old_videos + added;
    forall i | 0 <= i < |all| ensures 1 <= all[i].position <= |VideosOf(all, all[i].course_id)| {
      AppendedCourseVideos(old_videos, added, c, all[i].course_id);
      if i >= |old_videos| {
        assert all[i] == added[i - |old_videos|];
      }
    }
    forall i, j | 0 <= i < j < |all| && all[i].course_id == all[j].course_id
      ensures all[i].position != all[j].position
    {
      if j < |old_videos| {
        assert all[i] == old_videos[i] && all[j] == old_videos[j];
      } else if i >= |old_videos| {
        assert all[i] == added[i - |old_videos|] && all[j] == added[j - |old_videos|];
      }
    }
  }

  /** Appending a fresh course's videos leaves every other course's videos as they were. */
  lemma AppendedCourseVideos(old_videos: seq<Video>, added: seq<Video>, c: Id, d: Id)
    requires forall v :: v in old_videos ==> v.course_id != c
    requires forall v :: v in added ==> v.course_id == c
    ensures VideosOf(old_videos + added, d) == if d == c then added else VideosOf(old_videos, d)
  {
    FilterAppend(old_videos, added, OfCourse(d));
    if d == c {
      FilterNone(old_videos, OfCourse(c));
      FilterAll(added, OfCourse(c));
    } else {
      FilterNone(added, OfCourse(d));
    }
  }

  /** The four collections the course page keeps. */
  datatype Catalog = Catalog(courses: seq<Course>, videos: seq<Video>, quizzes: seq<Quiz>, questions: seq<Question>)

  /**
   * The catalogue invariant of the page: ids are 1, 2, 3, ... in list order
   * in every collection, videos and quizzes refer to listed courses and
   * questions to listed quizzes, positions are 1..k within each course, and
   * a course has at most one quiz.
   */
  predicate CatalogValid(cat: Catalog) {
    && (forall i :: 0 <= i < |cat.courses| ==> cat.courses[i].id == i + 1)
    && (forall i :: 0 <= i < |cat.videos| ==>
          cat.videos[i].id == i + 1 && 1 <= cat.videos[i].course_id <= |cat.courses|)
    && (forall i :: 0 <= i < |cat.quizzes| ==>
          cat.quizzes[i].id == i + 1 && 1 <= cat.quizzes[i].course_id <= |cat.courses|)
    && (forall i :: 0 <= i < |cat.questions| ==>
          cat.questions[i].id == i + 1 && 1 <= cat.questions[i].quiz_id <= |cat.quizzes|)
    && PositionsSequential(cat.videos)
    && OneQuizPerCourse(cat.quizzes)
  }

  /** The seed catalogue (two courses, three videos, two quizzes, two questions) satisfies the invariant. */
  lemma SeedCatalogValid(now: Timestamp)
    ensures CatalogValid(Catalog(SeedCourses(now), SeedVideos(now), SeedQuizzes(now), SeedQuestions()))
  {
    SeedVideoPositions(now);
  }

  /**
   * The catalogue after publishing: course `|courses| + 1` with the drafted
   * videos, and, when some card has a prompt, quiz `|quizzes| + 1` with the
   * prompted questions.
   */
  function Published(cat: Catalog, form: CourseForm, drafts: seq<VideoDraft>, quiz: QuizDraft,
                     thumbnail: string, now: Timestamp): (r: Catalog)
    ensures r.courses == cat.courses + [Course(|cat.courses| + 1, form.title, form.description, thumbnail, Creator, now)]
    ensures r.videos == cat.videos + NewCourseVideos(|cat.videos|, |cat.courses| + 1, drafts, now)
    ensures WantsQuiz(quiz.questions) ==>
              && r.quizzes == cat.quizzes + [Quiz(|cat.quizzes| + 1, |cat.courses| + 1, quiz.pass_threshold, now)]
              && r.questions == cat.questions + NewQuestions(|cat.questions|, |cat.quizzes| + 1, quiz.questions)
    ensures !WantsQuiz(quiz.questions) ==> r.quizzes == cat.quizzes && r.questions == cat.questions
  {
    var courseId := |cat.courses| + 1;
    var course := Course(courseId, form.title, form.description, thumbnail, Creator, now);
    var added := NewCourseVideos(|cat.videos|, courseId, drafts, now);
    var kept := NewQuestions(|cat.questions|, |cat.quizzes| + 1, quiz.questions);
    var r := if kept != [] then
               Catalog(cat.courses + [course], cat.videos + added,
                       cat.quizzes + [Quiz(|cat.quizzes| + 1, courseId, quiz.pass_threshold, now)],
                       cat.questions + kept)
             else Catalog(cat.courses + [course], cat.videos + added, cat.quizzes, cat.questions);
    r
  }

  /** Publishing keeps the catalogue invariant. */
  lemma PublishKeepsCatalogValid(cat: Catalog, form: CourseForm, drafts: seq<VideoDraft>, quiz: QuizDraft,
                                 thumbnail: string, now: Timestamp)
    requires CatalogValid(cat)
    ensures CatalogValid(Published(cat, form, drafts, quiz, thumbnail, now))
  {
    var r := Published(cat, form, drafts, quiz, thumbnail, now);
    PublishedCoursesAndVideos(cat, r, drafts, now);
    if WantsQuiz(quiz.questions) {
      var kept := NewQuestions(|cat.questions|, |cat.quizzes| + 1, quiz.questions);
      var q := Quiz(|cat.quizzes| + 1, |cat.courses| + 1, quiz.pass_threshold, now);
      assert r.quizzes == cat.quizzes + [q];
      assert r.questions == cat.questions + kept;
      AppendedQuizValid(cat, r, q, kept);
    }
  }

  /**
   * The card of a freshly published course shows the running time typed
   * into the dialog: sixty seconds per drafted minute, hence the drafted
   * minutes again once divided by 60 and rounded.
   */
  lemma PublishedCourseDuration(cat: Catalog, form: CourseForm, drafts: seq<VideoDraft>, quiz: QuizDraft,
                                thumbnail: string, now: Timestamp)
    requires CatalogValid(cat)
    ensures var r := Published(cat, form, drafts, quiz, thumbnail, now);
            && TotalDuration(r.videos, |cat.courses| + 1) == 60 * Sum(drafts, Minutes())
            && DurationMinutes(TotalDuration(r.videos, |cat.courses| + 1)) == Sum(drafts, Minutes())
  {
    var c := |cat.courses| + 1;
    var added := NewCourseVideos(|cat.videos|, c, drafts, now);
    forall v | v in cat.videos ensures v.course_id != c {
      var k :| 0 <= k < |cat.videos| && cat.videos[k] == v;
    }
    AppendedCourseVideos(cat.videos, added, c, c);
    NewCourseDuration(|cat.videos|, c, drafts, now);
    WholeMinutesShownExactly(Sum(drafts, Minutes()));
  }

  lemma PublishedCoursesAndVideos(cat: Catalog, r: Catalog, drafts: seq<VideoDraft>, now: Timestamp)
    requires CatalogValid(cat)
    requires |r.courses| == |cat.courses| + 1 && r.courses[..|cat.courses|] == cat.courses
    requires r.courses[|cat.courses|].id == |cat.courses| + 1
    requires r.videos == cat.videos + NewCourseVideos(|cat.videos|, |cat.courses| + 1, drafts, now)
    ensures forall i :: 0 <= i < |r.courses| ==> r.courses[i].id == i + 1
    ensures forall i :: 0 <= i < |r.videos| ==> r.videos[i].id == i + 1 && 1 <= r.videos[i].course_id <= |r.courses|
    ensures PositionsSequential(r.videos)
  {
    var courseId := |cat.courses| + 1;
    var added := NewCourseVideos(|cat.videos|, courseId, drafts, now);
    forall v | v in cat.videos ensures v.course_id != courseId {
      var k :| 0 <= k < |cat.videos| && cat.videos[k] == v;
    }
    AppendCourseKeepsPositions(cat.videos, added, courseId);
    forall i | 0 <= i < |r.courses| ensures r.courses[i].id == i + 1 {
      if i < |cat.courses| { assert r.courses[i] == r.courses[..|cat.courses|][i]; }
    }
    forall i | 0 <= i < |r.videos| ensures r.videos[i].id == i + 1 && 1 <= r.videos[i].course_id <= |r.courses| {
      if i >= |cat.videos| {
        assert r.videos[i] == added[i - |cat.videos|];
      } else {
        assert r.videos[i] == cat.videos[i];
      }
    }
  }

  lemma AppendedQuizValid(cat: Catalog, r: Catalog, q: Quiz, kept: seq<Question>)
    requires CatalogValid(cat)
    requires |r.courses| == |cat.courses| + 1
    requires r.quizzes == cat.quizzes + [q] && q.id == |cat.quizzes| + 1 && q.course_id == |cat.courses| + 1
    requires r.questions == cat.questions + kept
    requires forall i :: 0 <= i < |kept| ==> kept[i].id == |cat.questions| + i + 1 && kept[i].quiz_id == q.id
    ensures forall i :: 0 <= i < |r.quizzes| ==> r.quizzes[i].id == i + 1 && 1 <= r.quizzes[i].course_id <= |r.courses|
    ensures forall i :: 0 <= i < |r.questions| ==> r.questions[i].id == i + 1 && 1 <= r.questions[i].quiz_id <= |r.quizzes|
    ensures OneQuizPerCourse(r.quizzes)
  {
    forall i, j | 0 <= i < j < |r.quizzes| ensures r.quizzes[i].course_id != r.quizzes[j].course_id {
      if j == |cat.quizzes| { assert r.quizzes[i] == cat.quizzes[i]; }
    }
    forall i | 0 <= i < |r.questions| ensures r.questions[i].id == i + 1 && 1 <= r.questions[i].quiz_id <= |r.quizzes| {
      if i >= |cat.questions| { assert r.questions[i] == kept[i - |cat.questions|]; }
    }
  }

  /** The page's state: the catalogue and the create dialog's drafts. */
  class CoursesPage {
    var courses: seq<Course>
    var videos: seq<Video>
    var quizzes: seq<Quiz>
    var questions: seq<Question>
    var newCourse: CourseForm
    var newVideos: seq<VideoDraft>
    var newQuiz: QuizDraft

    ghost predicate Valid()
      reads this
    {
      CatalogValid(Catalog(courses, videos, quizzes, questions))
    }

    /** The page opens on the seed catalogue and an empty dialog. */
    constructor(now: Timestamp)
      ensures courses == SeedCourses(now) && videos == SeedVideos(now)
      ensures quizzes == SeedQuizzes(now) && questions == SeedQuestions()
      ensures newCourse == CourseForm("", "") && newVideos == [] && newQuiz == InitialQuiz
      ensures Valid()
    {
      courses, videos, quizzes, questions := SeedCourses(now), SeedVideos(now), SeedQuizzes(now), SeedQuestions();
      newCourse, newVideos, newQuiz := CourseForm("", ""), [], InitialQuiz;
      SeedCatalogValid(now);
    }

    /** Typing the course title and description. */
    method EditCourse(form: CourseForm)
      modifies this
      ensures newCourse == form
      ensures courses == old(courses) && videos == old(videos) && quizzes == old(quizzes)
      ensures questions == old(questions) && newVideos == old(newVideos) && newQuiz == old(newQuiz)
    {
      newCourse := form;
    }

    /** `handleAddVideo`: appends an empty video row. */
    method AddVideo()
      modifies this
      ensures newVideos == old(newVideos) + [VideoDraft("", "", 0)]
      ensures courses == old(courses) && videos == old(videos) && quizzes == old(quizzes)
      ensures questions == old(questions) && newCourse == old(newCourse) && newQuiz == old(newQuiz)
    {
      newVideos := newVideos + [VideoDraft("", "", 0)];
    }

    /** `handleRemoveVideo(index)`: drops exactly the row at `index`, keeping the others in order. */
    method RemoveVideo(index: int)
      modifies this
      ensures newVideos == RemoveAt(old(newVideos), index)
      ensures courses == old(courses) && videos == old(videos) && quizzes == old(quizzes)
      ensures questions == old(questions) && newCourse == old(newCourse) && newQuiz == old(newQuiz)
    {
      newVideos := RemoveAt(newVideos, index);
    }

    /** Typing a video row's title. */
    method EditVideoTitle(index: int, title: string)
      requires 0 <= index < |newVideos|
      modifies this
      ensures newVideos == old(newVideos)[index := old(newVideos)[index].(title := title)]
      ensures courses == old(courses) && videos == old(videos) && quizzes == old(quizzes)
      ensures questions == old(questions) && newCourse == old(newCourse) && newQuiz == old(newQuiz)
    {
      newVideos := newVideos[index := newVideos[index].(title := title)];
    }

    /** Typing a video row's URL. */
    method EditVideoUrl(index: int, url: string)
      requires 0 <= index < |newVideos|
      modifies this
      ensures newVideos == old(newVideos)[index := old(newVideos)[index].(url := url)]
      ensures courses == old(courses) && videos == old(videos) && quizzes == old(quizzes)
      ensures questions == old(questions) && newCourse == old(newCourse) && newQuiz == old(newQuiz)
    {
      newVideos := newVideos[index := newVideos[index].(url := url)];
    }

    /** Typing a video row's minutes: the parsed number, where NaN and 0 give 0. */
    method EditVideoDuration(index: int, text: string)
      requires 0 <= index < |newVideos|
      modifies this
      ensures newVideos == old(newVideos)[index := old(newVideos)[index].(duration := ParsedOr(text, 0))]
      ensures courses == old(courses) && videos == old(videos) && quizzes == old(quizzes)
      ensures questions == old(questions) && newCourse == old(newCourse) && newQuiz == old(newQuiz)
    {
      newVideos := newVideos[index := newVideos[index].(duration := ParsedOr(text, 0))];
    }

    /** Typing the pass threshold: NaN and 0 fall back to 70. */
    method EditThreshold(text: string)
      modifies this
      ensures newQuiz == old(newQuiz).(pass_threshold := ParsedOr(text, DefaultThreshold))
      ensures courses == old(courses) && videos == old(videos) && quizzes == old(quizzes)
      ensures questions == old(questions) && newCourse == old(newCourse) && newVideos == old(newVideos)
    {
      newQuiz := newQuiz.(pass_threshold := ParsedOr(text, DefaultThreshold));
    }

    /** `handleAddQuestion`: appends a blank question card. */
    method AddQuestion()
      modifies this
      ensures newQuiz == old(newQuiz).(questions := old(newQuiz).questions + [BlankQuestion])
      ensures courses == old(courses) && videos == old(videos) && quizzes == old(quizzes)
      ensures questions == old(questions) && newCourse == old(newCourse) && newVideos == old(newVideos)
    {
      newQuiz := newQuiz.(questions := newQuiz.questions + [BlankQuestion]);
    }

    /** Editing a question card: its prompt, one option, the marked option and the explanation. */
    method EditQuestion(qIndex: int, card: QuestionDraft)
      requires 0 <= qIndex < |newQuiz.questions|
      modifies this
      ensures newQuiz == old(newQuiz).(questions := old(newQuiz).questions[qIndex := card])
      ensures courses == old(courses) && videos == old(videos) && quizzes == old(quizzes)
      ensures questions == old(questions) && newCourse == old(newCourse) && newVideos == old(newVideos)
    {
      newQuiz := newQuiz.(questions := newQuiz.questions[qIndex := card]);
    }

    /**
     * `handleCreateCourse`: rejected without a title, a description or any
     * video; otherwise publishes the drafts and resets the dialog.
     */
    method CreateCourse(thumbnail: string, now: Timestamp) returns (ok: bool)
      requires Valid()
      modifies this
      ensures Valid()
      ensures ok <==> old(newCourse).title != [] && old(newCourse).description != [] && old(newVideos) != []
      ensures !ok ==> unchanged(this)
      ensures ok ==>
        && Catalog(courses, videos, quizzes, questions) ==
             Published(Catalog(old(courses), old(videos), old(quizzes), old(questions)),
                       old(newCourse), old(newVideos), old(newQuiz), thumbnail, now)
        && newCourse == CourseForm("", "") && newVideos == [] && newQuiz == InitialQuiz
    {
      if newCourse.title == [] || newCourse.description == [] || |newVideos| == 0 {
        return false;
      }
      var after := Published(Catalog(courses, videos, quizzes, questions), newCourse, newVideos, newQuiz,
                             thumbnail, now);
      PublishKeepsCatalogValid(Catalog(courses, videos, quizzes, questions), newCourse, newVideos, newQuiz,
                               thumbnail, now);
      courses, videos, quizzes, questions := after.courses, after.videos, after.quizzes, after.questions;
      newCourse, newVideos, newQuiz := CourseForm("", ""), [], InitialQuiz;
      ok := true;
    }
  }
}
