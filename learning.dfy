/**
 * The learning store: lessons, exercises, the user's progress records and
 * profile as last fetched, and the aggregations the dashboard computes from
 * them (completion, scores, overall percentage, streak, recent activity).
 * The older store under `stores/` is the same code up to `getExerciseProgress`;
 * this one module models both.
 */
module Learning {

  import opened Wrappers
  import opened Seqs
  import opened Sorting
  import opened Mirror
  import opened Numbers
  import opened Backend

  /** A row of `lessons`. */
  datatype Lesson = Lesson(id: string, title: string, level: string, category: string, order: int)

  /** A row of `exercises`. */
  datatype Exercise = Exercise(id: string, lessonId: string, exerciseType: string, question: string, correctAnswer: string, order: int)

  /**
   * A row of `user_progress`. A record without an exercise (None, or the empty
   * string, which JavaScript treats as false) is the record for the lesson itself.
   */
  datatype UserProgress = UserProgress(
    id: string,
    userId: string,
    lessonId: string,
    exerciseId: Option<string>,
    completed: bool,
    score: Option<int>,
    completedAt: Option<Timestamp>)

  /** A row of `user_profiles`. */
  datatype UserProfile = UserProfile(
    id: string,
    userId: string,
    currentLevel: string,
    streakDays: int,
    lastActivity: Option<Timestamp>)

  function ProgressIdOf(p: UserProgress): string { p.id }

  /** `p.exercise_id` is truthy. */
  predicate HasExercise(p: UserProgress)
  {
    p.exerciseId.Some? && p.exerciseId.value != ""
  }

  /** `p.completed && !p.exercise_id`: a completed lesson-level record. */
  predicate CompletesLesson(p: UserProgress)
  {
    p.completed && !HasExercise(p)
  }

  function ForLesson(lessonId: string): UserProgress -> bool
  {
    (p: UserProgress) => p.lessonId == lessonId
  }

  /** `getLessonProgress`: the records of one lesson, in the mirror's order. */
  function LessonProgress(progress: seq<UserProgress>, lessonId: string): (r: seq<UserProgress>)
    ensures forall p :: p in r <==> p in progress && p.lessonId == lessonId
    ensures IsSubseq(r, progress)
  {
    FilterIsSubseq(progress, ForLesson(lessonId));
    Filter(progress, ForLesson(lessonId))
  }

  /** The records of a lesson in a mirror made of two parts are those of the first part, then those of the second. */
  lemma LessonProgressAppend(a: seq<UserProgress>, b: seq<UserProgress>, lessonId: string)
    ensures LessonProgress(a + b, lessonId) == LessonProgress(a, lessonId) + LessonProgress(b, lessonId)
  {
    FilterAppend(a, b, ForLesson(lessonId));
  }

  /** `isLessonCompleted`: some record of the lesson is completed and has no exercise. */
  function IsLessonCompleted(progress: seq<UserProgress>, lessonId: string): (r: bool)
    ensures r <==> exists p :: p in progress && p.lessonId == lessonId && CompletesLesson(p)
  {
    var lessonProgress := LessonProgress(progress, lessonId);
    var r := Any(lessonProgress, CompletesLesson);
    assert r ==> exists p :: p in lessonProgress && CompletesLesson(p);
    assert (exists p :: p in lessonProgress && CompletesLesson(p)) ==> r by {
      if exists p :: p in lessonProgress && CompletesLesson(p) {
        var p :| p in lessonProgress && CompletesLesson(p);
        var i :| 0 <= i < |lessonProgress| && lessonProgress[i] == p;
      }
    }
    r
  }

  function ForExercise(exerciseId: string): UserProgress -> bool
  {
    (p: UserProgress) => p.exerciseId == Some(exerciseId)
  }

  /** `getExerciseProgress`: the first record of that exercise, or nothing. */
  function ExerciseProgress(progress: seq<UserProgress>, exerciseId: string): (r: Option<UserProgress>)
    ensures r.None? <==> forall i :: 0 <= i < |progress| ==> progress[i].exerciseId != Some(exerciseId)
    ensures r.Some? ==> r.value.exerciseId == Some(exerciseId)
    ensures r.Some? ==> exists i :: (0 <= i < |progress| && progress[i] == r.value
      && forall j :: 0 <= j < i ==> progress[j].exerciseId != Some(exerciseId))
  {
    Find(progress, ForExercise(exerciseId))
  }

  /** `p.exercise_id && p.completed`: a completed exercise-level record. */
  predicate CompletesExercise(p: UserProgress)
  {
    HasExercise(p) && p.completed
  }

  /** `p.score || 0`. */
  function ScoreOf(p: UserProgress): int
  {
    p.score.GetOr(0)
  }

  /** `reduce((sum, p) => sum + (p.score || 0), 0)`. */
  function TotalScore(ps: seq<UserProgress>): (r: int)
    ensures (forall p :: p in ps ==> 0 <= ScoreOf(p) <= 100) ==> 0 <= r <= 100 * |ps|
  {
    if ps == [] then 0 else TotalScore(ps[..|ps| - 1]) + ScoreOf(ps[|ps| - 1])
  }

  /** The completed exercise records of a lesson. */
  function ScoredRecords(progress: seq<UserProgress>, lessonId: string): (r: seq<UserProgress>)
    ensures forall p :: p in r <==> p in progress && p.lessonId == lessonId && CompletesExercise(p)
  {
    Filter(LessonProgress(progress, lessonId), CompletesExercise)
  }

  /**
   * `getLessonScore`: nothing without a completed exercise record; otherwise
   * the rounded mean of their scores, a missing score counting as 0. With
   * scores on the 0..100 scale the mean stays on it.
   */
  function LessonScore(progress: seq<UserProgress>, lessonId: string): (r: Option<int>)
    ensures r.None? <==> forall p :: p in progress && p.lessonId == lessonId ==> !CompletesExercise(p)
    ensures r.Some? ==> r.value == RoundDiv(TotalScore(ScoredRecords(progress, lessonId)), |ScoredRecords(progress, lessonId)|)
  {
    var exerciseProgress := ScoredRecords(progress, lessonId);
    if |exerciseProgress| == 0 then None
    else
      assert exerciseProgress[0] in exerciseProgress;
      Some(RoundDiv(TotalScore(exerciseProgress), |exerciseProgress|))
  }

  /** With scores on the 0..100 scale, the lesson's score is on it too. */
  lemma LessonScoreInRange(progress: seq<UserProgress>, lessonId: string)
    requires forall p :: p in progress ==> 0 <= ScoreOf(p) <= 100
    ensures LessonScore(progress, lessonId).Some? ==> 0 <= LessonScore(progress, lessonId).value <= 100
  {
    var ps := ScoredRecords(progress, lessonId);
    if ps != [] {
      RoundDivBounds(TotalScore(ps), |ps|, 0, 100);
    }
  }

  /** When every completed exercise of a lesson scored the same, that is the lesson's score. */
  lemma {:induction false} UniformScore(ps: seq<UserProgress>, s: int)
    requires forall p :: p in ps ==> ScoreOf(p) == s
    ensures TotalScore(ps) == s * |ps|
  {
    if ps != [] {
      var n := |ps| - 1;
      var init := ps[..n];
      assert forall p :: p in init ==> p in ps;
      UniformScore(init, s);
      assert TotalScore(ps) == TotalScore(init) + ScoreOf(ps[n]);
      assert ps[n] in ps;
      MulSucc(s, n);
    }
  }

  /** A lesson whose scored records all carry the same score has that score. */
  lemma LessonScoreUniform(progress: seq<UserProgress>, lessonId: string, s: int)
    requires exists p :: p in progress && p.lessonId == lessonId && CompletesExercise(p)
    requires forall p :: p in progress && p.lessonId == lessonId && CompletesExercise(p) ==> ScoreOf(p) == s
    ensures LessonScore(progress, lessonId) == Some(s)
  {
    var ps := ScoredRecords(progress, lessonId);
    UniformScore(ps, s);
    RoundDivExact(s, |ps|);
  }

  /**
   * `getOverallProgress` as written: the completed lesson-level records,
   * as a rounded percentage of the lessons loaded; 0 with no lessons.
   */
  function OverallProgress(progress: seq<UserProgress>, lessons: seq<Lesson>): (r: int)
    ensures |lessons| == 0 ==> r == 0
    ensures |lessons| > 0 ==> r == RoundDiv(100 * Count(progress, CompletesLesson), |lessons|)
    ensures r >= 0
  {
    var completedLessons := Count(progress, CompletesLesson);
    var totalLessons := |lessons|;
    if totalLessons > 0 then
      RoundDivNonNegative(100 * completedLessons, totalLessons);
      RoundDiv(100 * completedLessons, totalLessons)
    else 0
  }

  /** One lesson loaded and two lessons' completed records give 200 percent. */
  lemma OverallProgressExceedsHundred()
    ensures var lesson := Lesson("l1", "Greetings", "beginner", "basics", 1);
      var p1 := UserProgress("p1", "u", "l1", None, true, None, None);
      var p2 := UserProgress("p2", "u", "l2", None, true, None, None);
      OverallProgress([p1, p2], [lesson]) == 200
  {
    var p1 := UserProgress("p1", "u", "l1", None, true, None, None);
    var p2 := UserProgress("p2", "u", "l2", None, true, None, None);
    assert [p1, p2][1..] == [p2] && [p2][1..] == [];
    assert Filter([p2], CompletesLesson) == [p2];
    assert Filter([p1, p2], CompletesLesson) == [p1, p2];
    RoundDivExact(200, 1);
  }

  function CompletedIn(progress: seq<UserProgress>): Lesson -> bool
  {
    (l: Lesson) => IsLessonCompleted(progress, l.id)
  }

  /** The loaded lessons that the progress records mark completed. */
  function CompletedLessons(progress: seq<UserProgress>, lessons: seq<Lesson>): (r: seq<Lesson>)
    ensures forall l :: l in r <==> l in lessons && IsLessonCompleted(progress, l.id)
    ensures |r| <= |lessons|
  {
    Filter(lessons, CompletedIn(progress))
  }

  /**
   * The overall percentage counted over the loaded lessons: each lesson counts
   * once, so the result is a percentage in 0..100.
   */
  function OverallProgressOfLessons(progress: seq<UserProgress>, lessons: seq<Lesson>): (r: int)
    ensures 0 <= r <= 100
    ensures |lessons| == 0 ==> r == 0
    ensures |lessons| > 0 ==> r == RoundDiv(100 * |CompletedLessons(progress, lessons)|, |lessons|)
  {
    var completed := CompletedLessons(progress, lessons);
    var totalLessons := |lessons|;
    if totalLessons > 0 then
      RoundDivBounds(100 * |completed|, totalLessons, 0, 100);
      RoundDiv(100 * |completed|, totalLessons)
    else 0
  }

  /** With every loaded lesson completed the percentage is 100. */
  lemma OverallProgressOfLessonsAllDone(progress: seq<UserProgress>, lessons: seq<Lesson>)
    requires |lessons| > 0 && forall l :: l in lessons ==> IsLessonCompleted(progress, l.id)
    ensures OverallProgressOfLessons(progress, lessons) == 100
  {
    FilterAll(lessons, CompletedIn(progress));
    RoundDivExact(100, |lessons|);
  }

  /** With no loaded lesson completed the percentage is 0. */
  lemma OverallProgressOfLessonsNoneDone(progress: seq<UserProgress>, lessons: seq<Lesson>)
    requires forall l :: l in lessons ==> !IsLessonCompleted(progress, l.id)
    ensures OverallProgressOfLessons(progress, lessons) == 0
  {
    if |lessons| > 0 {
      FilterEmptyIffNone(lessons, CompletedIn(progress));
      RoundDivExact(0, |lessons|);
    }
  }

  /**
   * `getStreakDays` as written: 0 without a profile or a last activity;
   * otherwise the stored streak while `Math.ceil` of the elapsed days is at
   * most 1, and 0 after that.
   */
  function StreakDays(profile: Option<UserProfile>, now: Timestamp): (r: int)
    ensures profile.None? || profile.value.lastActivity.None? ==> r == 0
    ensures profile.Some? && profile.value.lastActivity.Some? ==>
      r == (if CeilDiv(now - profile.value.lastActivity.value, MsPerDay) <= 1 then profile.value.streakDays else 0)
  {
    if profile.None? then 0
    else if profile.value.lastActivity.None? then 0
    else
      var diffDays := CeilDiv(now - profile.value.lastActivity.value, MsPerDay);
      if diffDays <= 1 then profile.value.streakDays else 0
  }

  /** The streak survives exactly while at most 24 hours have elapsed since the last activity. */
  lemma StreakKeptWithinADay(profile: UserProfile, now: Timestamp)
    requires profile.lastActivity.Some?
    ensures now - profile.lastActivity.value <= MsPerDay ==> StreakDays(Some(profile), now) == profile.streakDays
    ensures now - profile.lastActivity.value > MsPerDay ==> StreakDays(Some(profile), now) == 0
  {
    CeilDivAtMostOne(now - profile.lastActivity.value, MsPerDay);
  }

  /** The day (counted from the epoch) a timestamp falls on. */
  function DayNumber(t: Timestamp): (d: int)
    ensures d * MsPerDay <= t < (d + 1) * MsPerDay
  {
    t / MsPerDay
  }

  /** Activity at 08:00 yesterday, asked at 20:00 today: 36 hours, so the streak is reported broken. */
  lemma StreakLostOnYesterdayActivity()
    ensures var profile := UserProfile("p", "u", "beginner", 5, Some(8 * 3_600_000));
      var now := MsPerDay + 20 * 3_600_000;
      DayNumber(now) == DayNumber(8 * 3_600_000) + 1 && StreakDays(Some(profile), now) == 0
  {
    var profile := UserProfile("p", "u", "beginner", 5, Some(8 * 3_600_000));
    StreakKeptWithinADay(profile, MsPerDay + 20 * 3_600_000);
  }

  /**
   * The streak as the comment beside the test describes it: kept when the last
   * activity fell today or yesterday (calendar days, counted in UTC).
   */
  function StreakDaysByCalendar(profile: Option<UserProfile>, now: Timestamp): (r: int)
    ensures profile.None? || profile.value.lastActivity.None? ==> r == 0
    ensures profile.Some? && profile.value.lastActivity.Some? && DayNumber(now) - DayNumber(profile.value.lastActivity.value) <= 1
      ==> r == profile.value.streakDays
    ensures profile.Some? && profile.value.lastActivity.Some? && DayNumber(now) - DayNumber(profile.value.lastActivity.value) > 1
      ==> r == 0
  {
    if profile.None? then 0
    else if profile.value.lastActivity.None? then 0
    else if DayNumber(now) - DayNumber(profile.value.lastActivity.value) <= 1 then profile.value.streakDays
    else 0
  }

  /** The calendar rule keeps every streak that 24 hours of elapsed time keeps, once the activity lies in the past. */
  lemma CalendarStreakKeepsRecentStreaks(profile: UserProfile, now: Timestamp)
    requires profile.lastActivity.Some? && profile.lastActivity.value <= now
    requires StreakDays(Some(profile), now) == profile.streakDays
    ensures StreakDaysByCalendar(Some(profile), now) == profile.streakDays
  {
    var last := profile.lastActivity.value;
    StreakKeptWithinADay(profile, now);
    if profile.streakDays != 0 {
      assert now - last <= MsPerDay;
      var d, d' := DayNumber(last), DayNumber(now);
      assert d * MsPerDay <= last && now < (d' + 1) * MsPerDay;
      MulOrder(MsPerDay, d' - 1, d + 1);
      assert d' - d <= 1;
    }
  }

  /** `p.completed && p.completed_at`. */
  predicate IsFinished(p: UserProgress)
  {
    p.completed && p.completedAt.Some?
  }

  function FinishedAt(p: UserProgress): Timestamp
  {
    p.completedAt.GetOr(0)
  }

  /** The comparator `b.completed_at - a.completed_at`, as the order it induces: newest first. */
  predicate NewestFirst(a: UserProgress, b: UserProgress)
  {
    FinishedAt(b) <= FinishedAt(a)
  }

  lemma NewestFirstIsTotalPreorder()
    ensures TotalPreorder(NewestFirst)
  {
  }

  /** The finished records, newest first. */
  function FinishedNewestFirst(progress: seq<UserProgress>): (r: seq<UserProgress>)
    ensures forall p :: p in r <==> p in progress && IsFinished(p)
    ensures multiset(r) == multiset(Filter(progress, IsFinished))
    ensures Sorted(r, NewestFirst)
  {
    var finished := Filter(progress, IsFinished);
    NewestFirstIsTotalPreorder();
    SortBySorted(finished, NewestFirst);
    SortByMembers(finished, NewestFirst);
    SortBy(finished, NewestFirst)
  }

  /** The number of records `getRecentActivity` returns when no limit is passed. */
  const DefaultRecentLimit: int := 10

  /**
   * `getRecentActivity(limit)`: the newest finished records, at most `limit`
   * of them (a negative limit drops that many from the end, as `slice` does).
   */
  function RecentActivity(progress: seq<UserProgress>, limit: int): (r: seq<UserProgress>)
    ensures limit >= 0 ==> |r| == if limit < |FinishedNewestFirst(progress)| then limit else |FinishedNewestFirst(progress)|
    ensures |r| <= |FinishedNewestFirst(progress)| && r == FinishedNewestFirst(progress)[..|r|]
    ensures forall p :: p in r ==> p in progress && IsFinished(p)
    ensures Sorted(r, NewestFirst)
  {
    SliceTo(FinishedNewestFirst(progress), limit)
  }

  /** Every finished record left out of the recent activity is no newer than every one kept. */
  lemma RecentActivityKeepsNewest(progress: seq<UserProgress>, limit: int, i: int, j: int)
    requires 0 <= i < |RecentActivity(progress, limit)| <= j < |FinishedNewestFirst(progress)|
    ensures FinishedAt(FinishedNewestFirst(progress)[j]) <= FinishedAt(RecentActivity(progress, limit)[i])
  {
    var all := FinishedNewestFirst(progress);
    assert RecentActivity(progress, limit)[i] == all[i];
  }

  /** `getLessonsByLevel`: the loaded lessons at one level, in their order. */
  function LessonsByLevel(lessons: seq<Lesson>, level: string): (r: seq<Lesson>)
    ensures forall l :: l in r <==> l in lessons && l.level == level
    ensures IsSubseq(r, lessons)
  {
    FilterIsSubseq(lessons, (l: Lesson) => l.level == level);
    Filter(lessons, (l: Lesson) => l.level == level)
  }

  /** `getCompletedLessonsByLevel`: the completed lessons among those at one level, keeping their order. */
  function CompletedLessonsByLevel(lessons: seq<Lesson>, progress: seq<UserProgress>, level: string): (r: seq<Lesson>)
    ensures forall l :: l in r <==> l in lessons && l.level == level && IsLessonCompleted(progress, l.id)
    ensures IsSubseq(r, LessonsByLevel(lessons, level))
  {
    var levelLessons := LessonsByLevel(lessons, level);
    FilterIsSubseq(levelLessons, CompletedIn(progress));
    Filter(levelLessons, CompletedIn(progress))
  }

  /** Recording a completed lesson-level record marks its lesson completed. */
  lemma UpsertCompletesLesson(progress: seq<UserProgress>, p: UserProgress)
    requires CompletesLesson(p)
    ensures IsLessonCompleted(UpsertAppend(progress, ProgressIdOf, p), p.lessonId)
  {
    var r := UpsertAppend(progress, ProgressIdOf, p);
    UpsertAppendThenFind(progress, ProgressIdOf, p);
    assert r[IndexOf(r, ProgressIdOf, p.id)] in r;
  }

  /** The store: what was last fetched, and the mirror of the user's progress records. */
  class LearningStore {

    var lessons: seq<Lesson>
    var exercises: seq<Exercise>
    var userProgress: seq<UserProgress>
    var userProfile: Option<UserProfile>

    constructor()
      ensures lessons == [] && exercises == [] && userProgress == [] && userProfile == None
    {
      lessons := [];
      exercises := [];
      userProgress := [];
      userProfile := None;
    }

    /** `fetchLessons`: on success the lessons become `data || []`; on error nothing changes. */
    method FetchLessons(reply: Reply<Option<seq<Lesson>>>) returns (r: Reply<seq<Lesson>>)
      modifies this
      ensures reply.Success? ==> lessons == reply.value.GetOr([]) && r == Success(lessons)
      ensures reply.Failure? ==> lessons == old(lessons) && r == Failure(reply.error)
      ensures exercises == old(exercises) && userProgress == old(userProgress) && userProfile == old(userProfile)
    {
      if reply.Failure? {
        return Failure(reply.error);
      }
      lessons := reply.value.GetOr([]);
      r := Success(lessons);
    }

    /** `fetchLesson`: hands the single row back and changes nothing. */
    method FetchLesson(id: string, reply: Reply<Lesson>) returns (r: Reply<Lesson>)
      ensures r == reply
    {
      r := reply;
    }

    /** `fetchExercises`: on success the exercises become `data || []`; on error nothing changes. */
    method FetchExercises(lessonId: string, reply: Reply<Option<seq<Exercise>>>) returns (r: Reply<seq<Exercise>>)
      modifies this
      ensures reply.Success? ==> exercises == reply.value.GetOr([]) && r == Success(exercises)
      ensures reply.Failure? ==> exercises == old(exercises) && r == Failure(reply.error)
      ensures lessons == old(lessons) && userProgress == old(userProgress) && userProfile == old(userProfile)
    {
      if reply.Failure? {
        return Failure(reply.error);
      }
      exercises := reply.value.GetOr([]);
      r := Success(exercises);
    }

    /** `fetchUserProgress`: on success the mirror becomes `data || []`; on error nothing changes. */
    method FetchUserProgress(userId: string, reply: Reply<Option<seq<UserProgress>>>) returns (r: Reply<seq<UserProgress>>)
      modifies this
      ensures reply.Success? ==> userProgress == reply.value.GetOr([]) && r == Success(userProgress)
      ensures reply.Failure? ==> userProgress == old(userProgress) && r == Failure(reply.error)
      ensures lessons == old(lessons) && exercises == old(exercises) && userProfile == old(userProfile)
    {
      if reply.Failure? {
        return Failure(reply.error);
      }
      userProgress := reply.value.GetOr([]);
      r := Success(userProgress);
    }

    /** `fetchUserProfile`: on success the profile becomes the row; on error nothing changes. */
    method FetchUserProfile(userId: string, reply: Reply<UserProfile>) returns (r: Reply<UserProfile>)
      modifies this
      ensures reply.Success? ==> userProfile == Some(reply.value) && r == reply
      ensures reply.Failure? ==> userProfile == old(userProfile) && r == reply
      ensures lessons == old(lessons) && exercises == old(exercises) && userProgress == old(userProgress)
    {
      if reply.Failure? {
        return reply;
      }
      userProfile := Some(reply.value);
      r := reply;
    }

    /**
     * `updateProgress`: `reply` is the row the upsert stored. It replaces the
     * mirror's record with the same id in place, or else is appended; on error
     * the mirror is left as it was.
     */
    method UpdateProgress(reply: Reply<UserProgress>) returns (r: Reply<UserProgress>)
      modifies this
      ensures r == reply
      ensures reply.Failure? ==> userProgress == old(userProgress)
      ensures reply.Success? ==> userProgress == UpsertAppend(old(userProgress), ProgressIdOf, reply.value)
      ensures reply.Success? ==> var i := IndexOf(userProgress, ProgressIdOf, reply.value.id); 0 <= i && userProgress[i] == reply.value
      ensures lessons == old(lessons) && exercises == old(exercises) && userProfile == old(userProfile)
    {
      if reply.Failure? {
        return reply;
      }
      var data := reply.value;
      var index := FindIndex(userProgress, ProgressIdOf, data.id);
      if index != -1 {
        userProgress := userProgress[index := data];
      } else {
        userProgress := userProgress + [data];
      }
      UpsertAppendThenFind(old(userProgress), ProgressIdOf, data);
      r := reply;
    }

    /** `updateUserProfile`: on success the profile becomes the stored row; on error nothing changes. */
    method UpdateUserProfile(reply: Reply<UserProfile>) returns (r: Reply<UserProfile>)
      modifies this
      ensures reply.Success? ==> userProfile == Some(reply.value) && r == reply
      ensures reply.Failure? ==> userProfile == old(userProfile) && r == reply
      ensures lessons == old(lessons) && exercises == old(exercises) && userProgress == old(userProgress)
    {
      if reply.Failure? {
        return reply;
      }
      userProfile := Some(reply.value);
      r := reply;
    }
  }
}
