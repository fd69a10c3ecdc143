/**
 * The vocabulary store: the word catalogue, the user's spaced-repetition
 * entries, the mastery/interval schedule applied after a review, and the
 * queries the pages run over the in-memory mirror.
 */
module Vocabulary {

  import opened Wrappers
  import opened Seqs
  import opened Sorting
  import opened Mirror
  import opened Backend

  /** A row of `vocabulary_words` (the columns the core reads). */
  datatype VocabularyWord = VocabularyWord(
    id: string,
    word: string,
    definition: string,
    difficultyLevel: string,
    category: string)

  /** A row of `user_vocabulary`, with the joined `word`. */
  datatype UserVocabulary = UserVocabulary(
    id: string,
    userId: string,
    wordId: string,
    masteryLevel: int,
    timesReviewed: int,
    lastReviewed: Option<Timestamp>,
    nextReview: Timestamp,
    isFavorite: bool,
    updatedAt: Option<Timestamp>,
    word: Option<VocabularyWord>)

  /** The top of the 0..5 mastery scale. */
  const MaxMastery: int := 5

  /** Days until the next review, indexed by the mastery level after the review. */
  const Intervals: seq<int> := [1, 3, 7, 14, 30, 90]

  function IdOf(v: UserVocabulary): string { v.id }

  function WordIdOf(v: UserVocabulary): string { v.wordId }

  /** The mastery level after a review: one step up when correct, one down when not, clamped to 0..5. */
  function NextMastery(isCorrect: bool, current: int): (r: int)
    ensures isCorrect ==> r <= MaxMastery && (current < MaxMastery ==> r == current + 1)
    ensures isCorrect && current >= MaxMastery ==> r == MaxMastery
    ensures !isCorrect ==> r >= 0 && (current > 0 ==> r == current - 1)
    ensures !isCorrect && current <= 0 ==> r == 0
    ensures 0 <= current <= MaxMastery ==> 0 <= r <= MaxMastery
  {
    if isCorrect then
      (if current + 1 < MaxMastery then current + 1 else MaxMastery)
    else
      (if current - 1 > 0 then current - 1 else 0)
  }

  /** `intervals[mastery] || 1`: the table entry, or one day outside the table. */
  function IntervalDays(mastery: int): (r: int)
    ensures 1 <= r <= 90
    ensures 0 <= mastery < |Intervals| ==> r == Intervals[mastery]
    ensures !(0 <= mastery < |Intervals|) ==> r == 1
  {
    if 0 <= mastery < |Intervals| then Intervals[mastery] else 1
  }

  /** A higher mastery level never schedules a sooner review. */
  lemma IntervalDaysMonotone(a: int, b: int)
    requires 0 <= a <= b <= MaxMastery
    ensures IntervalDays(a) <= IntervalDays(b)
  {
    assert Intervals == [1, 3, 7, 14, 30, 90];
  }

  /** The stored row after `updateWordProgress`'s update statement. */
  function Reviewed(row: UserVocabulary, isCorrect: bool, currentMastery: int, now: Timestamp): (r: UserVocabulary)
    ensures r.masteryLevel == NextMastery(isCorrect, currentMastery)
    ensures r.timesReviewed == row.timesReviewed + 1
    ensures r.lastReviewed == Some(now) && r.updatedAt == Some(now)
    ensures r.nextReview == now + IntervalDays(r.masteryLevel) * MsPerDay
    ensures r.id == row.id && r.userId == row.userId && r.wordId == row.wordId
    ensures r.isFavorite == row.isFavorite && r.word == row.word
  {
    var m := NextMastery(isCorrect, currentMastery);
    row.(masteryLevel := m, timesReviewed := row.timesReviewed + 1,
         lastReviewed := Some(now), nextReview := now + IntervalDays(m) * MsPerDay,
         updatedAt := Some(now))
  }

  /** A reviewed word is not due before tomorrow, is due once its interval has passed, and never waits more than 90 days. */
  lemma ReviewedSchedule(row: UserVocabulary, isCorrect: bool, currentMastery: int, now: Timestamp, later: Timestamp)
    ensures later < now + MsPerDay ==> !IsDue(Reviewed(row, isCorrect, currentMastery, now), later)
    ensures later >= now + 90 * MsPerDay ==> IsDue(Reviewed(row, isCorrect, currentMastery, now), later)
  {
    var r := Reviewed(row, isCorrect, currentMastery, now);
    var d := IntervalDays(r.masteryLevel);
    assert MsPerDay <= d * MsPerDay <= 90 * MsPerDay;
  }

  /** A correct review of an in-range word never brings its next review closer than a wrong one would. */
  lemma CorrectNeverSooner(row: UserVocabulary, currentMastery: int, now: Timestamp)
    requires 0 <= currentMastery <= MaxMastery
    ensures Reviewed(row, false, currentMastery, now).nextReview <= Reviewed(row, true, currentMastery, now).nextReview
  {
    var down := NextMastery(false, currentMastery);
    var up := NextMastery(true, currentMastery);
    IntervalDaysMonotone(down, up);
  }

  /** The stored row after `addWordToUserVocabulary`'s upsert: new, unreviewed and due now. */
  function Added(row: UserVocabulary, userId: string, wordId: string, now: Timestamp): (r: UserVocabulary)
    ensures r.userId == userId && r.wordId == wordId
    ensures r.masteryLevel == 0 && r.timesReviewed == 0 && r.nextReview == now
    ensures r.id == row.id && r.isFavorite == row.isFavorite && r.lastReviewed == row.lastReviewed
  {
    row.(userId := userId, wordId := wordId, masteryLevel := 0, timesReviewed := 0, nextReview := now)
  }

  /** The stored row after `toggleFavorite`'s update statement. */
  function Favorited(row: UserVocabulary, isFavorite: bool): (r: UserVocabulary)
    ensures r.isFavorite == isFavorite
    ensures r == row.(isFavorite := r.isFavorite)
  {
    row.(isFavorite := isFavorite)
  }

  /** `new Date(v.next_review) <= now`. */
  predicate IsDue(v: UserVocabulary, now: Timestamp)
  {
    v.nextReview <= now
  }

  /** The filters of the queries below. */
  function BelongsTo(userId: string): UserVocabulary -> bool
  {
    (v: UserVocabulary) => v.userId == userId
  }

  function DueFor(userId: string, now: Timestamp): UserVocabulary -> bool
  {
    (v: UserVocabulary) => v.userId == userId && IsDue(v, now)
  }

  function FavoriteOf(userId: string): UserVocabulary -> bool
  {
    (v: UserVocabulary) => v.userId == userId && v.isFavorite
  }

  function AtMastery(userId: string, masteryLevel: int): UserVocabulary -> bool
  {
    (v: UserVocabulary) => v.userId == userId && v.masteryLevel == masteryLevel
  }

  /** The comparator `a.next_review - b.next_review`, as the order it induces. */
  predicate ByNextReview(a: UserVocabulary, b: UserVocabulary)
  {
    a.nextReview <= b.nextReview
  }

  lemma ByNextReviewIsTotalPreorder()
    ensures TotalPreorder(ByNextReview)
  {
  }

  /** The user's entries that are due, in the mirror's order. */
  function DueEntries(mirror: seq<UserVocabulary>, userId: string, now: Timestamp): (r: seq<UserVocabulary>)
    ensures forall v :: v in r <==> v in mirror && v.userId == userId && IsDue(v, now)
    ensures IsSubseq(r, mirror)
  {
    FilterIsSubseq(mirror, DueFor(userId, now));
    Filter(mirror, DueFor(userId, now))
  }

  /** `getWordsForReview`: exactly the user's due entries, soonest first. */
  function WordsForReview(mirror: seq<UserVocabulary>, userId: string, now: Timestamp): (r: seq<UserVocabulary>)
    ensures forall v :: v in r <==> v in mirror && v.userId == userId && IsDue(v, now)
    ensures multiset(r) == multiset(DueEntries(mirror, userId, now))
    ensures Sorted(r, ByNextReview)
  {
    ByNextReviewIsTotalPreorder();
    SortBySorted(DueEntries(mirror, userId, now), ByNextReview);
    var r := SortBy(DueEntries(mirror, userId, now), ByNextReview);
    assert forall v :: v in r <==> v in multiset(r);
    r
  }

  /** Entries due at the same instant keep the mirror's order (the sort is stable). */
  lemma WordsForReviewStable(mirror: seq<UserVocabulary>, userId: string, now: Timestamp, x: UserVocabulary)
    ensures Filter(WordsForReview(mirror, userId, now), TiedWith(ByNextReview, x))
         == Filter(DueEntries(mirror, userId, now), TiedWith(ByNextReview, x))
  {
    ByNextReviewIsTotalPreorder();
    SortByStable(DueEntries(mirror, userId, now), ByNextReview, x);
  }

  /** `getFavoriteWords`: the user's favourite entries, in the mirror's order. */
  function FavoriteWords(mirror: seq<UserVocabulary>, userId: string): (r: seq<UserVocabulary>)
    ensures forall v :: v in r <==> v in mirror && v.userId == userId && v.isFavorite
    ensures IsSubseq(r, mirror)
  {
    FilterIsSubseq(mirror, FavoriteOf(userId));
    Filter(mirror, FavoriteOf(userId))
  }

  /** `getWordsByMastery`: the user's entries at exactly that level, in the mirror's order. */
  function WordsByMastery(mirror: seq<UserVocabulary>, userId: string, masteryLevel: int): (r: seq<UserVocabulary>)
    ensures forall v :: v in r <==> v in mirror && v.userId == userId && v.masteryLevel == masteryLevel
    ensures IsSubseq(r, mirror)
  {
    FilterIsSubseq(mirror, AtMastery(userId, masteryLevel));
    Filter(mirror, AtMastery(userId, masteryLevel))
  }

  /** The counters `getVocabularyStats` returns. */
  datatype VocabularyStats = VocabularyStats(
    total: nat,
    mastered: nat,
    learning: nat,
    newWords: nat,
    favorites: nat,
    dueForReview: nat)

  predicate IsMastered(v: UserVocabulary) { v.masteryLevel >= 4 }

  predicate IsLearning(v: UserVocabulary) { 1 <= v.masteryLevel < 4 }

  predicate IsNew(v: UserVocabulary) { v.masteryLevel == 0 }

  predicate IsFavorite(v: UserVocabulary) { v.isFavorite }

  /** The user's entries, in the mirror's order. */
  function UserWords(mirror: seq<UserVocabulary>, userId: string): (r: seq<UserVocabulary>)
    ensures forall v :: v in r <==> v in mirror && v.userId == userId
  {
    Filter(mirror, BelongsTo(userId))
  }

  /**
   * `getVocabularyStats`: over the user's entries, the total and the number
   * at mastery 4 or more, at 1 to 3, at 0, and marked favourite; and the
   * number due for review. No count exceeds the total.
   */
  function VocabularyStatsOf(mirror: seq<UserVocabulary>, userId: string, now: Timestamp): (r: VocabularyStats)
    ensures var u := UserWords(mirror, userId);
      && r.total == |u|
      && r.mastered == |Positions(u, IsMastered)|
      && r.learning == |Positions(u, IsLearning)|
      && r.newWords == |Positions(u, IsNew)|
      && r.favorites == |Positions(u, IsFavorite)|
    ensures r.favorites <= r.total && r.dueForReview <= r.total
    ensures r.mastered <= r.total && r.learning <= r.total && r.newWords <= r.total
    ensures r.dueForReview == |WordsForReview(mirror, userId, now)|
  {
    var userWords := UserWords(mirror, userId);
    CountPositions(userWords, IsMastered);
    CountPositions(userWords, IsLearning);
    CountPositions(userWords, IsNew);
    CountPositions(userWords, IsFavorite);
    FilterMonotone(mirror, DueFor(userId, now), BelongsTo(userId));
    VocabularyStats(
      |userWords|,
      Count(userWords, IsMastered),
      Count(userWords, IsLearning),
      Count(userWords, IsNew),
      Count(userWords, IsFavorite),
      |WordsForReview(mirror, userId, now)|)
  }

  /** With no negative mastery level among the user's entries, mastered, learning and new split the total. */
  lemma StatsPartition(mirror: seq<UserVocabulary>, userId: string, now: Timestamp)
    requires forall v :: v in mirror && v.userId == userId ==> v.masteryLevel >= 0
    ensures var r := VocabularyStatsOf(mirror, userId, now);
      r.mastered + r.learning + r.newWords == r.total
  {
    var userWords := UserWords(mirror, userId);
    assert forall i :: 0 <= i < |userWords| ==> userWords[i] in userWords;
    CountPartition(userWords, IsMastered, IsLearning, IsNew);
  }

  /** `words.map(w => w.category)`. */
  function Categories(words: seq<VocabularyWord>): (r: seq<string>)
    ensures |r| == |words|
    ensures forall i :: 0 <= i < |words| ==> r[i] == words[i].category
  {
    seq(|words|, i requires 0 <= i < |words| => words[i].category)
  }

  /** A string is among the mapped categories exactly when some word has it. */
  lemma CategoriesMembership(words: seq<VocabularyWord>)
    ensures forall c :: c in Categories(words) <==> exists w :: w in words && w.category == c
  {
    var names := Categories(words);
    forall c | c in names ensures exists w :: w in words && w.category == c {
      var i :| 0 <= i < |names| && names[i] == c;
      assert words[i] in words;
    }
    forall w | w in words ensures w.category in names {
      var i :| 0 <= i < |words| && words[i] == w;
      assert names[i] == w.category;
    }
  }

  /** `getCategories`: every category exactly once, in string order. */
  function CategoriesOf(words: seq<VocabularyWord>): (r: seq<string>)
    ensures forall c :: c in r <==> exists w :: w in words && w.category == c
    ensures NoDuplicates(r)
    ensures Sorted(r, LexLe)
  {
    var distinct := Dedupe(Categories(words));
    var r := SortBy(distinct, LexLe);
    assert Sorted(r, LexLe) by {
      LexLeIsTotalPreorder();
      SortBySorted(distinct, LexLe);
    }
    NoDuplicatesTransfer(distinct, r);
    SortByMembers(distinct, LexLe);
    CategoriesMembership(words);
    r
  }

  /** An entry just added is due at the time it was added and at every later time. */
  lemma AddedEntryIsDue(mirror: seq<UserVocabulary>, row: UserVocabulary, userId: string, wordId: string, now: Timestamp, later: Timestamp)
    requires now <= later
    ensures Added(row, userId, wordId, now) in WordsForReview(UpsertPrepend(mirror, WordIdOf, wordId, Added(row, userId, wordId, now)), userId, later)
  {
    var x := Added(row, userId, wordId, now);
    UpsertPrependThenFind(mirror, WordIdOf, x);
  }

  /** The store: the catalogue and the user's entries, as last fetched or updated. */
  class VocabularyStore {

    var words: seq<VocabularyWord>
    var userVocabulary: seq<UserVocabulary>

    constructor()
      ensures words == [] && userVocabulary == []
    {
      words := [];
      userVocabulary := [];
    }

    /** `fetchVocabularyWords`: on success the catalogue becomes `data || []`; on error nothing changes. */
    method FetchVocabularyWords(reply: Reply<Option<seq<VocabularyWord>>>) returns (r: Reply<seq<VocabularyWord>>)
      modifies this
      ensures reply.Success? ==> words == reply.value.GetOr([]) && r == Success(words)
      ensures reply.Failure? ==> words == old(words) && r == Failure(reply.error)
      ensures userVocabulary == old(userVocabulary)
    {
      if reply.Failure? {
        return Failure(reply.error);
      }
      words := reply.value.GetOr([]);
      r := Success(words);
    }

    /** `fetchUserVocabulary`: on success the mirror becomes `data || []`; on error nothing changes. */
    method FetchUserVocabulary(userId: string, reply: Reply<Option<seq<UserVocabulary>>>) returns (r: Reply<seq<UserVocabulary>>)
      modifies this
      ensures reply.Success? ==> userVocabulary == reply.value.GetOr([]) && r == Success(userVocabulary)
      ensures reply.Failure? ==> userVocabulary == old(userVocabulary) && r == Failure(reply.error)
      ensures words == old(words)
    {
      if reply.Failure? {
        return Failure(reply.error);
      }
      userVocabulary := reply.value.GetOr([]);
      r := Success(userVocabulary);
    }

    /**
     * `addWordToUserVocabulary`: `reply` is the row the upsert matched (or the
     * defaults of a new row). The stored row replaces the mirror's entry with
     * the same word in place, or else goes to the front.
     */
    method AddWordToUserVocabulary(userId: string, wordId: string, now: Timestamp, reply: Reply<UserVocabulary>)
      returns (r: Reply<UserVocabulary>)
      modifies this
      ensures reply.Failure? ==> r == Failure(reply.error) && userVocabulary == old(userVocabulary)
      ensures reply.Success? ==> r == Success(Added(reply.value, userId, wordId, now))
      ensures reply.Success? ==> userVocabulary == UpsertPrepend(old(userVocabulary), WordIdOf, wordId, r.value)
      ensures reply.Success? ==> var i := IndexOf(userVocabulary, WordIdOf, wordId); 0 <= i && userVocabulary[i] == r.value
      ensures words == old(words)
    {
      if reply.Failure? {
        return Failure(reply.error);
      }
      var data := Added(reply.value, userId, wordId, now);
      var i := FindIndex(userVocabulary, WordIdOf, wordId);
      if i != -1 {
        userVocabulary := userVocabulary[i := data];
      } else {
        userVocabulary := [data] + userVocabulary;
      }
      UpsertPrependThenFind(old(userVocabulary), WordIdOf, data);
      r := Success(data);
    }

    /**
     * `updateWordProgress`: `reply` is the row with that id before the update.
     * The reviewed row replaces the mirror's entry with that id; an id the
     * mirror does not hold leaves it as it was.
     */
    method UpdateWordProgress(userVocabularyId: string, isCorrect: bool, currentMastery: int, now: Timestamp, reply: Reply<UserVocabulary>)
      returns (r: Reply<UserVocabulary>)
      modifies this
      ensures reply.Failure? ==> r == Failure(reply.error) && userVocabulary == old(userVocabulary)
      ensures reply.Success? ==> r == Success(Reviewed(reply.value, isCorrect, currentMastery, now))
      ensures reply.Success? ==> userVocabulary == ReplaceFirst(old(userVocabulary), IdOf, userVocabularyId, r.value)
      ensures words == old(words)
    {
      if reply.Failure? {
        return Failure(reply.error);
      }
      var data := Reviewed(reply.value, isCorrect, currentMastery, now);
      var i := FindIndex(userVocabulary, IdOf, userVocabularyId);
      if i != -1 {
        userVocabulary := userVocabulary[i := data];
      }
      r := Success(data);
    }

    /** `toggleFavorite`: like `updateWordProgress`, with only `is_favorite` set. */
    method ToggleFavorite(userVocabularyId: string, isFavorite: bool, reply: Reply<UserVocabulary>)
      returns (r: Reply<UserVocabulary>)
      modifies this
      ensures reply.Failure? ==> r == Failure(reply.error) && userVocabulary == old(userVocabulary)
      ensures reply.Success? ==> r == Success(Favorited(reply.value, isFavorite))
      ensures reply.Success? ==> userVocabulary == ReplaceFirst(old(userVocabulary), IdOf, userVocabularyId, r.value)
      ensures words == old(words)
    {
      if reply.Failure? {
        return Failure(reply.error);
      }
      var data := Favorited(reply.value, isFavorite);
      var i := FindIndex(userVocabulary, IdOf, userVocabularyId);
      if i != -1 {
        userVocabulary := userVocabulary[i := data];
      }
      r := Success(data);
    }
  }
}
