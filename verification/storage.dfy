/** The app's persistent store: a key-to-payload cache whose reads and
    writes swallow failures, and the singleton progress record behind the
    search counter, the discovered districts, the quiz statistics, the daily
    streak and the badges.

    The database is the value `Store`; each operation takes one and returns
    the next. Whether the database currently serves reads and accepts writes
    is part of that value (`readable`, `writable`), so that every failure
    path of the original can be followed. The clock enters as the explicit
    strings `now` (the timestamp of the call) and `today`/`yesterday` (the
    calendar days of the call and of the day before). */
module Storage {
  import opened Wrappers
  import opened Text
  import opened JsonValues

  const IndexKey := "kfz-index"
  const TopoKey := "kfz-topo"
  const SeatsKey := "kfz-seats"

  datatype CacheEntry = CacheEntry(data: Json, updatedAt: string)

  /** A badge as defined in the catalogue, before it is earned. */
  datatype BadgeDef = BadgeDef(id: string, name: string, description: string, emoji: string)

  datatype Badge = Badge(id: string, name: string, description: string, emoji: string, earnedAt: string)

  datatype UserProgress = UserProgress(
    id: string,
    totalSearches: int,
    discoveredKreise: seq<string>,
    quizCorrect: int,
    quizTotal: int,
    badges: seq<Badge>,
    currentStreak: int,
    lastActiveDate: string,
    updatedAt: string)

  datatype Store = Store(
    cache: map<string, CacheEntry>,
    progress: Option<UserProgress>,
    readable: bool,
    writable: bool)

  /** A rejected database operation that nothing catches. */
  datatype StorageError = DatabaseError

  /** The value an async operation settles with, and the store after it. */
  datatype Outcome<T> = Outcome(result: Result<T, StorageError>, store: Store)

  // ---------------------------------------------------------------------
  // Cache

  /** `getCachedData(key)`: `cached?.data || null`, and `null` on a failed
      read. */
  function GetCachedData(s: Store, key: string): (r: Option<Json>)
    ensures r.Some? <==> s.readable && key in s.cache && Truthy(s.cache[key].data)
    ensures r.Some? ==> r.value == s.cache[key].data
  {
    if s.readable && key in s.cache && Truthy(s.cache[key].data) then Some(s.cache[key].data) else None
  }

  /** `setCachedData(key, data)`: a failed write is logged and ignored. */
  function SetCachedData(s: Store, key: string, data: Json, now: string): (t: Store)
    ensures t.progress == s.progress && t.readable == s.readable && t.writable == s.writable
    ensures s.writable ==> t.cache == s.cache[key := CacheEntry(data, now)]
    ensures !s.writable ==> t == s
  {
    if s.writable then s.(cache := s.cache[key := CacheEntry(data, now)]) else s
  }

  /** `clearCache()`: not guarded, so a failure rejects. */
  function ClearCache(s: Store): (o: Outcome<()>)
    ensures o.result.Ok? <==> s.writable
    ensures s.writable ==> o.store == s.(cache := map[])
    ensures !s.writable ==> o.store == s
  {
    if s.writable then Outcome(Ok(()), s.(cache := map[])) else Outcome(Err(DatabaseError), s)
  }

  /** A truthy payload written to a working store reads back unchanged. */
  lemma CacheRoundTrip(s: Store, key: string, data: Json, now: string)
    requires s.readable && s.writable
    ensures GetCachedData(SetCachedData(s, key, data, now), key) == (if Truthy(data) then Some(data) else None)
  {
  }

  /** A write to one key leaves every other key as it was. */
  lemma CacheWriteIsolated(s: Store, key: string, other: string, data: Json, now: string)
    requires other != key
    ensures GetCachedData(SetCachedData(s, key, data, now), other) == GetCachedData(s, other)
  {
  }

  /** After a successful `clearCache` nothing reads back. */
  lemma ClearCacheEmpties(s: Store, key: string)
    requires ClearCache(s).result.Ok?
    ensures GetCachedData(ClearCache(s).store, key).None?
  {
  }

  /** A store that cannot be read reads `null` for every key. */
  lemma UnreadableReadsNull(s: Store, key: string)
    requires !s.readable
    ensures GetCachedData(s, key).None?
  {
  }

  // ---------------------------------------------------------------------
  // Progress

  const ProgressId := "user-progress"

  function DefaultProgress(now: string): (p: UserProgress)
    ensures p.id == ProgressId && p.totalSearches == 0 && p.discoveredKreise == []
    ensures p.quizCorrect == 0 && p.quizTotal == 0 && p.badges == []
    ensures p.currentStreak == 0 && p.lastActiveDate == "" && p.updatedAt == now
  {
    UserProgress(ProgressId, 0, [], 0, 0, [], 0, "", now)
  }

  /** `getUserProgress()`: the stored record, else a fresh default that is
      persisted when the store accepts it. It never rejects. */
  function GetUserProgress(s: Store, now: string): (got: (UserProgress, Store))
    ensures got.1.cache == s.cache && got.1.readable == s.readable && got.1.writable == s.writable
    ensures s.readable && s.progress.Some? ==> got == (s.progress.value, s)
    ensures !(s.readable && s.progress.Some?) ==> got.0 == DefaultProgress(now)
    ensures got.1.progress == (if s.readable && s.progress.None? && s.writable then Some(got.0) else s.progress)
  {
    if !s.readable then (DefaultProgress(now), s)
    else if s.progress.Some? then (s.progress.value, s)
    else
      var p := DefaultProgress(now);
      if s.writable then (p, s.(progress := Some(p))) else (p, s)
  }

  /** Reading the progress twice gives the same record, and the second read
      changes nothing. */
  lemma GetUserProgressSettles(s: Store, now: string)
    ensures var (p, t) := GetUserProgress(s, now);
      GetUserProgress(t, now) == (p, t)
  {
  }

  /** `Partial<Omit<UserProgress, 'id'>>`: a field is either given or absent.
      `updatedAt` is overwritten by `updateProgress` anyway. */
  datatype ProgressUpdate = ProgressUpdate(
    totalSearches: Option<int>,
    discoveredKreise: Option<seq<string>>,
    quizCorrect: Option<int>,
    quizTotal: Option<int>,
    badges: Option<seq<Badge>>,
    currentStreak: Option<int>,
    lastActiveDate: Option<string>)

  /** `{ ...current, ...updates, updatedAt: now }`. */
  function Merge(current: UserProgress, u: ProgressUpdate, now: string): (p: UserProgress)
    ensures p.id == current.id && p.updatedAt == now
    ensures p.totalSearches == u.totalSearches.GetOr(current.totalSearches)
    ensures p.discoveredKreise == u.discoveredKreise.GetOr(current.discoveredKreise)
    ensures p.quizCorrect == u.quizCorrect.GetOr(current.quizCorrect)
    ensures p.quizTotal == u.quizTotal.GetOr(current.quizTotal)
    ensures p.badges == u.badges.GetOr(current.badges)
    ensures p.currentStreak == u.currentStreak.GetOr(current.currentStreak)
    ensures p.lastActiveDate == u.lastActiveDate.GetOr(current.lastActiveDate)
  {
    UserProgress(
      current.id,
      u.totalSearches.GetOr(current.totalSearches),
      u.discoveredKreise.GetOr(current.discoveredKreise),
      u.quizCorrect.GetOr(current.quizCorrect),
      u.quizTotal.GetOr(current.quizTotal),
      u.badges.GetOr(current.badges),
      u.currentStreak.GetOr(current.currentStreak),
      u.lastActiveDate.GetOr(current.lastActiveDate),
      now)
  }

  /** `updateProgress(updates)`: re-read, merge, write back. The write is
      not guarded, so a store that refuses it makes the call reject. */
  function UpdateProgress(s: Store, u: ProgressUpdate, now: string): (o: Outcome<UserProgress>)
    ensures o.result.Ok? <==> s.writable
    ensures o.result.Ok? ==>
      o.result.value == Merge(GetUserProgress(s, now).0, u, now)
      && o.store == s.(progress := Some(o.result.value))
    ensures o.result.Err? ==> o.store == s
  {
    var (current, t) := GetUserProgress(s, now);
    var updated := Merge(current, u, now);
    if t.writable then Outcome(Ok(updated), t.(progress := Some(updated))) else Outcome(Err(DatabaseError), t)
  }

  /** An update sets exactly the given fields and the timestamp; a second
      identical update stores the same record. */
  lemma UpdateProgressIdempotent(s: Store, u: ProgressUpdate, now: string)
    requires s.readable && s.writable
    ensures var o := UpdateProgress(s, u, now);
      UpdateProgress(o.store, u, now) == o
  {
    var o := UpdateProgress(s, u, now);
    var p := o.result.value;
    assert GetUserProgress(o.store, now).0 == p;
    assert Merge(p, u, now) == p;
  }

  // ---------------------------------------------------------------------
  // Badges

  const FirstSearch := BadgeDef("first_search", "Entdecker", "Deine erste Suche!", "\U{1F50D}")
  const TenSearches := BadgeDef("ten_searches", "Neugierig", "10 Suchen durchgef\U{FC}hrt", "\U{1F9D0}")
  const FiftySearches := BadgeDef("fifty_searches", "Experte", "50 Suchen durchgef\U{FC}hrt", "\U{1F393}")
  const FirstQuiz := BadgeDef("first_quiz", "Quizzer", "Erstes Quiz gespielt", "\U{2753}")
  const QuizMaster := BadgeDef("quiz_master", "Quiz-Meister", "10 Quiz-Fragen richtig", "\U{1F3C6}")
  const AllStates := BadgeDef("all_states", "Bundesland-K\U{F6}nig", "Alle 16 Bundesl\U{E4}nder entdeckt", "\U{1F451}")
  const Streak3 := BadgeDef("streak_3", "Dranbleiber", "3 Tage in Folge aktiv", "\U{1F525}")
  const Streak7 := BadgeDef("streak_7", "Wochenstar", "7 Tage in Folge aktiv", "\U{2B50}")

  /** The badge catalogue, in its declared order. */
  const Catalogue := [FirstSearch, TenSearches, FiftySearches, FirstQuiz, QuizMaster, AllStates, Streak3, Streak7]

  /** `BADGES.find(b => b.id === id)`. */
  function FindBadge(defs: seq<BadgeDef>, id: string): (r: Option<BadgeDef>)
    ensures r.Some? ==> r.value in defs && r.value.id == id
    ensures r.None? <==> forall i :: 0 <= i < |defs| ==> defs[i].id != id
  {
    if |defs| == 0 then None
    else if defs[0].id == id then Some(defs[0])
    else FindBadge(defs[1..], id)
  }

  /** Catalogue ids are distinct, so finding a badge by its id yields that
      very badge. */
  lemma {:induction false} FindBadgeUnique(defs: seq<BadgeDef>, d: BadgeDef)
    requires d in defs
    requires forall i, j :: 0 <= i < j < |defs| ==> defs[i].id != defs[j].id
    ensures FindBadge(defs, d.id) == Some(d)
    decreases |defs|
  {
    if defs[0] != d {
      assert defs[0].id != d.id by {
        var k :| 0 <= k < |defs| && defs[k] == d;
      }
      assert d in defs[1..] by {
        var k :| 0 <= k < |defs| && defs[k] == d;
        assert defs[1..][k - 1] == d;
      }
      FindBadgeUnique(defs[1..], d);
    }
  }

  lemma CatalogueIdsDistinct()
    ensures forall i, j :: 0 <= i < j < |Catalogue| ==> Catalogue[i].id != Catalogue[j].id
  {
  }

  /** Each badge the ledger awards is the one the catalogue lookup by id
      returns. */
  lemma AwardedBadgesFound()
    ensures FindBadge(Catalogue, "first_search") == Some(FirstSearch)
    ensures FindBadge(Catalogue, "ten_searches") == Some(TenSearches)
    ensures FindBadge(Catalogue, "fifty_searches") == Some(FiftySearches)
    ensures FindBadge(Catalogue, "streak_3") == Some(Streak3)
    ensures FindBadge(Catalogue, "streak_7") == Some(Streak7)
    ensures FindBadge(Catalogue, "first_quiz") == Some(FirstQuiz)
    ensures FindBadge(Catalogue, "quiz_master") == Some(QuizMaster)
  {
    CatalogueIdsDistinct();
    FindBadgeUnique(Catalogue, FirstSearch);
    FindBadgeUnique(Catalogue, TenSearches);
    FindBadgeUnique(Catalogue, FiftySearches);
    FindBadgeUnique(Catalogue, Streak3);
    FindBadgeUnique(Catalogue, Streak7);
    FindBadgeUnique(Catalogue, FirstQuiz);
    FindBadgeUnique(Catalogue, QuizMaster);
  }

  /** `{ ...badge, earnedAt: now }`. */
  function Earn(d: BadgeDef, now: string): Badge {
    Badge(d.id, d.name, d.description, d.emoji, now)
  }

  /** `badges.map(b => b.id)`. */
  function BadgeIds(bs: seq<Badge>): (ids: seq<string>)
    ensures |ids| == |bs|
    ensures forall i :: 0 <= i < |bs| ==> ids[i] == bs[i].id
  {
    seq(|bs|, i requires 0 <= i < |bs| => bs[i].id)
  }

  /** The badge `d` if `cond` holds and it is not held yet. */
  function AwardIf(cond: bool, d: BadgeDef, held: seq<string>, now: string): (r: seq<Badge>)
    ensures r == [] || r == [Earn(d, now)]
    ensures r != [] <==> cond && d.id !in held
  {
    if cond && d.id !in held then [Earn(d, now)] else []
  }

  /** The badges a search earns, in the order the rules are checked. */
  function SearchBadges(held: seq<string>, count: int, streak: int, now: string): (r: seq<Badge>)
    ensures forall b :: b in r ==> b.id !in held && b.earnedAt == now
  {
    AwardIf(count == 1, FirstSearch, held, now)
    + AwardIf(count >= 10, TenSearches, held, now)
    + AwardIf(count >= 50, FiftySearches, held, now)
    + AwardIf(streak >= 3, Streak3, held, now)
    + AwardIf(streak >= 7, Streak7, held, now)
  }

  /** The badges a quiz answer earns. */
  function QuizBadges(held: seq<string>, total: int, correct: int, now: string): (r: seq<Badge>)
    ensures forall b :: b in r ==> b.id !in held && b.earnedAt == now
    ensures NoDup(BadgeIds(r))
  {
    AwardIf(total == 1, FirstQuiz, held, now) + AwardIf(correct >= 10, QuizMaster, held, now)
  }

  lemma BadgeIdsAppend(a: seq<Badge>, b: seq<Badge>)
    ensures BadgeIds(a + b) == BadgeIds(a) + BadgeIds(b)
  {
  }

  lemma AwardIfIds(cond: bool, d: BadgeDef, held: seq<string>, now: string)
    ensures BadgeIds(AwardIf(cond, d, held, now)) == if cond && d.id !in held then [d.id] else []
  {
  }

  /** `[id]` if the rule fires and the badge is not held yet, else nothing. */
  function IdIf(cond: bool, id: string, held: seq<string>): seq<string> {
    if cond && id !in held then [id] else []
  }

  lemma SearchBadgeIds(held: seq<string>, count: int, streak: int, now: string)
    ensures BadgeIds(SearchBadges(held, count, streak, now))
      == IdIf(count == 1, "first_search", held) + IdIf(count >= 10, "ten_searches", held)
         + IdIf(count >= 50, "fifty_searches", held) + IdIf(streak >= 3, "streak_3", held)
         + IdIf(streak >= 7, "streak_7", held)
  {
    var a1 := AwardIf(count == 1, FirstSearch, held, now);
    var a2 := AwardIf(count >= 10, TenSearches, held, now);
    var a3 := AwardIf(count >= 50, FiftySearches, held, now);
    var a4 := AwardIf(streak >= 3, Streak3, held, now);
    var a5 := AwardIf(streak >= 7, Streak7, held, now);
    BadgeIdsAppend(a1, a2);
    BadgeIdsAppend(a1 + a2, a3);
    BadgeIdsAppend(a1 + a2 + a3, a4);
    BadgeIdsAppend(a1 + a2 + a3 + a4, a5);
    AwardIfIds(count == 1, FirstSearch, held, now);
    AwardIfIds(count >= 10, TenSearches, held, now);
    AwardIfIds(count >= 50, FiftySearches, held, now);
    AwardIfIds(streak >= 3, Streak3, held, now);
    AwardIfIds(streak >= 7, Streak7, held, now);
  }

  lemma NoDupAppend<T>(a: seq<T>, b: seq<T>)
    requires NoDup(a) && NoDup(b)
    requires forall x :: x in a ==> x !in b
    ensures NoDup(a + b)
  {
    forall i, j | 0 <= i < j < |a + b|
      ensures (a + b)[i] != (a + b)[j]
    {
      if i < |a| && j >= |a| {
        assert a[i] in a && b[j - |a|] in b;
      }
    }
  }

  /** A search never awards the same badge twice. */
  lemma SearchBadgesDistinct(held: seq<string>, count: int, streak: int, now: string)
    ensures NoDup(BadgeIds(SearchBadges(held, count, streak, now)))
  {
    SearchBadgeIds(held, count, streak, now);
    var i1, i2, i3 := IdIf(count == 1, "first_search", held), IdIf(count >= 10, "ten_searches", held), IdIf(count >= 50, "fifty_searches", held);
    var i4, i5 := IdIf(streak >= 3, "streak_3", held), IdIf(streak >= 7, "streak_7", held);
    NoDupAppend(i1, i2);
    NoDupAppend(i1 + i2, i3);
    NoDupAppend(i1 + i2 + i3, i4);
    NoDupAppend(i1 + i2 + i3 + i4, i5);
  }

  /** The ids a search earns: each search badge exactly when its threshold
      is reached and it is not held yet, and no other badge. */
  lemma SearchBadgeRules(held: seq<string>, count: int, streak: int, now: string)
    ensures "first_search" in BadgeIds(SearchBadges(held, count, streak, now))
        <==> count == 1 && "first_search" !in held
    ensures "ten_searches" in BadgeIds(SearchBadges(held, count, streak, now))
        <==> count >= 10 && "ten_searches" !in held
    ensures "fifty_searches" in BadgeIds(SearchBadges(held, count, streak, now))
        <==> count >= 50 && "fifty_searches" !in held
    ensures "streak_3" in BadgeIds(SearchBadges(held, count, streak, now))
        <==> streak >= 3 && "streak_3" !in held
    ensures "streak_7" in BadgeIds(SearchBadges(held, count, streak, now))
        <==> streak >= 7 && "streak_7" !in held
    ensures forall x :: x in BadgeIds(SearchBadges(held, count, streak, now)) ==>
      x in ["first_search", "ten_searches", "fifty_searches", "streak_3", "streak_7"]
  {
    SearchBadgeIds(held, count, streak, now);
    var i1, i2, i3 := IdIf(count == 1, "first_search", held), IdIf(count >= 10, "ten_searches", held), IdIf(count >= 50, "fifty_searches", held);
    var i4, i5 := IdIf(streak >= 3, "streak_3", held), IdIf(streak >= 7, "streak_7", held);
    var ids := i1 + i2 + i3 + i4 + i5;
    assert forall x :: x in ids <==> x in i1 || x in i2 || x in i3 || x in i4 || x in i5;
  }

  /** The ids a quiz answer earns: first_quiz for the first answer,
      quiz_master from ten correct ones, each only if not held yet. */
  lemma QuizBadgeRules(held: seq<string>, total: int, correct: int, now: string)
    ensures "first_quiz" in BadgeIds(QuizBadges(held, total, correct, now))
        <==> total == 1 && "first_quiz" !in held
    ensures "quiz_master" in BadgeIds(QuizBadges(held, total, correct, now))
        <==> correct >= 10 && "quiz_master" !in held
    ensures forall x :: x in BadgeIds(QuizBadges(held, total, correct, now)) ==>
      x == "first_quiz" || x == "quiz_master"
  {
    var a1 := AwardIf(total == 1, FirstQuiz, held, now);
    var a2 := AwardIf(correct >= 10, QuizMaster, held, now);
    BadgeIdsAppend(a1, a2);
    AwardIfIds(total == 1, FirstQuiz, held, now);
    AwardIfIds(correct >= 10, QuizMaster, held, now);
  }

  // ---------------------------------------------------------------------
  // Streak

  /** Last active yesterday: one more day; already active today: unchanged;
      otherwise a new streak of one day. */
  function NextStreak(last: string, streak: int, today: string, yesterday: string): (n: int)
    ensures last == yesterday ==> n == streak + 1
    ensures last != yesterday && last == today ==> n == streak
    ensures last != yesterday && last != today ==> n == 1
  {
    if last == yesterday then streak + 1 else if last != today then 1 else streak
  }

  /** The streak after one search on each of the given days, starting from
      a record last active on `last`. Days are numbered; `day` renders a
      number as the calendar string. */
  function StreakAfter(day: int -> string, last: string, streak: int, days: seq<int>): int
    decreases |days|
  {
    if |days| == 0 then streak
    else StreakAfter(day, day(days[0]), NextStreak(last, streak, day(days[0]), day(days[0] - 1)), days[1..])
  }

  /** Consecutive days `d, d+1, ..., d+k-1`. */
  function Consecutive(d: int, k: nat): (ds: seq<int>)
    ensures |ds| == k
    ensures forall i :: 0 <= i < k ==> ds[i] == d + i
  {
    seq(k, i => d + i)
  }

  /** Searching on `k` consecutive days, after a pause, gives a streak of
      `k` (provided distinct days render as distinct strings). */
  lemma {:induction false} StreakCountsConsecutiveDays(day: int -> string, last: string, streak: int, d: int, k: nat)
    requires forall a, b :: day(a) == day(b) ==> a == b
    requires k >= 1
    requires last != day(d - 1) && last != day(d)
    ensures StreakAfter(day, last, streak, Consecutive(d, k)) == k
  {
    var ds := Consecutive(d, k);
    assert NextStreak(last, streak, day(d), day(d - 1)) == 1;
    ContinueStreak(day, d, 1, k - 1);
    assert ds[1..] == Consecutive(d + 1, k - 1);
  }

  lemma {:induction false} ContinueStreak(day: int -> string, d: int, streak: int, k: nat)
    requires forall a, b :: day(a) == day(b) ==> a == b
    ensures StreakAfter(day, day(d), streak, Consecutive(d + 1, k)) == streak + k
    decreases k
  {
    if k > 0 {
      var ds := Consecutive(d + 1, k);
      assert NextStreak(day(d), streak, day(d + 1), day(d)) == streak + 1;
      assert ds[1..] == Consecutive(d + 2, k - 1);
      ContinueStreak(day, d + 1, streak + 1, k - 1);
    }
  }

  /** More searches on the same day leave the streak where it is. */
  lemma SameDayKeepsStreak(today: string, yesterday: string, streak: int)
    requires today != yesterday
    ensures NextStreak(today, streak, today, yesterday) == streak
  {
  }

  // ---------------------------------------------------------------------
  // Recording

  /** What the ledger keeps true of the progress record. */
  predicate ValidProgress(p: UserProgress) {
    p.totalSearches >= 0 && p.currentStreak >= 0
    && 0 <= p.quizCorrect <= p.quizTotal
    && NoDup(p.discoveredKreise)
    && NoDup(BadgeIds(p.badges))
  }

  predicate ValidStore(s: Store) {
    s.progress.Some? ==> ValidProgress(s.progress.value)
  }

  /** `discovered.includes(kreisId) ? discovered : [...discovered, kreisId]`. */
  function Discover(discovered: seq<string>, kreisId: string): (r: seq<string>)
    ensures forall x :: x in r <==> x in discovered || x == kreisId
    ensures NoDup(discovered) ==> NoDup(r)
    ensures kreisId in discovered ==> r == discovered
    ensures kreisId !in discovered ==> r == discovered + [kreisId]
  {
    if kreisId in discovered then discovered else discovered + [kreisId]
  }

  /** The field changes `recordSearch` hands to `updateProgress`. */
  function SearchUpdate(p: UserProgress, kreisId: string, today: string, yesterday: string, now: string): ProgressUpdate {
    var count := p.totalSearches + 1;
    var streak := NextStreak(p.lastActiveDate, p.currentStreak, today, yesterday);
    ProgressUpdate(
      Some(count),
      Some(Discover(p.discoveredKreise, kreisId)),
      None, None,
      Some(p.badges + SearchBadges(BadgeIds(p.badges), count, streak, now)),
      Some(streak),
      Some(today))
  }

  /** `recordSearch(kreisId)`: the newly earned badges, and the store with
      the updated record. */
  function RecordSearch(s: Store, kreisId: string, today: string, yesterday: string, now: string)
    : (o: Outcome<seq<Badge>>)
    ensures o.result.Ok? <==> s.writable
    ensures o.result.Err? ==> o.store == s
    ensures o.result.Ok? ==>
      var p := GetUserProgress(s, now).0;
      var count := p.totalSearches + 1;
      var streak := NextStreak(p.lastActiveDate, p.currentStreak, today, yesterday);
      o.store.cache == s.cache && o.store.progress.Some?
      && o.result.value == SearchBadges(BadgeIds(p.badges), count, streak, now)
      && o.store.progress.value == p.(totalSearches := count,
                                     discoveredKreise := Discover(p.discoveredKreise, kreisId),
                                     badges := p.badges + o.result.value,
                                     currentStreak := streak,
                                     lastActiveDate := today,
                                     updatedAt := now)
  {
    var (p, t) := GetUserProgress(s, now);
    var u := SearchUpdate(p, kreisId, today, yesterday, now);
    var saved := UpdateProgress(t, u, now);
    match saved.result
    case Err(e) => Outcome(Err(e), saved.store)
    case Ok(_) => Outcome(Ok(u.badges.value[|p.badges|..]), saved.store)
  }

  /** The field changes `recordQuizAnswer` hands to `updateProgress`. */
  function QuizUpdate(p: UserProgress, correct: bool, now: string): ProgressUpdate {
    var total := p.quizTotal + 1;
    var right := if correct then p.quizCorrect + 1 else p.quizCorrect;
    ProgressUpdate(
      None, None,
      Some(right),
      Some(total),
      Some(p.badges + QuizBadges(BadgeIds(p.badges), total, right, now)),
      None, None)
  }

  /** `recordQuizAnswer(correct)`. */
  function RecordQuizAnswer(s: Store, correct: bool, now: string): (o: Outcome<seq<Badge>>)
    ensures o.result.Ok? <==> s.writable
    ensures o.result.Err? ==> o.store == s
    ensures o.result.Ok? ==>
      var p := GetUserProgress(s, now).0;
      var total := p.quizTotal + 1;
      var right := if correct then p.quizCorrect + 1 else p.quizCorrect;
      o.store.cache == s.cache && o.store.progress.Some?
      && o.result.value == QuizBadges(BadgeIds(p.badges), total, right, now)
      && o.store.progress.value == p.(quizCorrect := right, quizTotal := total,
                                     badges := p.badges + o.result.value, updatedAt := now)
  {
    var (p, t) := GetUserProgress(s, now);
    var u := QuizUpdate(p, correct, now);
    var saved := UpdateProgress(t, u, now);
    match saved.result
    case Err(e) => Outcome(Err(e), saved.store)
    case Ok(_) => Outcome(Ok(u.badges.value[|p.badges|..]), saved.store)
  }

  /** Appending badges whose ids are new and distinct keeps ids unique. */
  lemma AppendFreshBadges(held: seq<Badge>, added: seq<Badge>)
    requires NoDup(BadgeIds(held)) && NoDup(BadgeIds(added))
    requires forall b :: b in added ==> b.id !in BadgeIds(held)
    ensures NoDup(BadgeIds(held + added))
  {
    var all := held + added;
    forall i, j | 0 <= i < j < |all|
      ensures BadgeIds(all)[i] != BadgeIds(all)[j]
    {
      if i < |held| && j >= |held| {
        assert added[j - |held|] in added;
        assert BadgeIds(held)[i] == held[i].id;
      } else if i >= |held| {
        assert BadgeIds(added)[i - |held|] != BadgeIds(added)[j - |held|];
      } else {
        assert BadgeIds(held)[i] != BadgeIds(held)[j];
      }
    }
  }

  lemma DefaultProgressValid(now: string)
    ensures ValidProgress(DefaultProgress(now))
  {
  }

  /** `recordSearch` keeps the record valid: discovered districts and badge
      ids stay duplicate-free. */
  lemma RecordSearchPreservesValid(s: Store, kreisId: string, today: string, yesterday: string, now: string)
    requires ValidStore(s)
    ensures ValidStore(RecordSearch(s, kreisId, today, yesterday, now).store)
  {
    var o := RecordSearch(s, kreisId, today, yesterday, now);
    if o.result.Ok? {
      var p := GetUserProgress(s, now).0;
      DefaultProgressValid(now);
      assert ValidProgress(p);
      var streak := NextStreak(p.lastActiveDate, p.currentStreak, today, yesterday);
      var added := SearchBadges(BadgeIds(p.badges), p.totalSearches + 1, streak, now);
      assert o.result.value == added;
      SearchBadgesDistinct(BadgeIds(p.badges), p.totalSearches + 1, streak, now);
      AppendFreshBadges(p.badges, added);
      assert NoDup(BadgeIds(o.store.progress.value.badges));
    }
  }

  /** `recordQuizAnswer` keeps the record valid, in particular
      `quizCorrect <= quizTotal`. */
  lemma RecordQuizAnswerPreservesValid(s: Store, correct: bool, now: string)
    requires ValidStore(s)
    ensures ValidStore(RecordQuizAnswer(s, correct, now).store)
  {
    var o := RecordQuizAnswer(s, correct, now);
    if o.result.Ok? {
      var p := GetUserProgress(s, now).0;
      DefaultProgressValid(now);
      assert ValidProgress(p);
      AppendFreshBadges(p.badges, o.result.value);
    }
  }

  /** A badge already held is never awarded again, by either operation. */
  lemma NoBadgeTwice(s: Store, kreisId: string, correct: bool, today: string, yesterday: string, now: string)
    requires s.readable && s.progress.Some?
    ensures var o := RecordSearch(s, kreisId, today, yesterday, now);
      o.result.Ok? ==> forall b :: b in o.result.value ==> b.id !in BadgeIds(s.progress.value.badges)
    ensures var o := RecordQuizAnswer(s, correct, now);
      o.result.Ok? ==> forall b :: b in o.result.value ==> b.id !in BadgeIds(s.progress.value.badges)
  {
  }

  /** Quiz answers leave the search fields alone, and searches the quiz
      fields. */
  lemma RecordsTouchOwnFields(s: Store, kreisId: string, correct: bool, today: string, yesterday: string, now: string)
    requires s.readable && s.progress.Some?
    ensures var o := RecordQuizAnswer(s, correct, now);
      var p := s.progress.value;
      o.result.Ok? ==> var q := o.store.progress.value;
        q.totalSearches == p.totalSearches && q.discoveredKreise == p.discoveredKreise
        && q.currentStreak == p.currentStreak && q.lastActiveDate == p.lastActiveDate
    ensures var o := RecordSearch(s, kreisId, today, yesterday, now);
      var p := s.progress.value;
      o.result.Ok? ==> var q := o.store.progress.value;
        q.quizCorrect == p.quizCorrect && q.quizTotal == p.quizTotal
  {
  }

  /** On an empty, working store the first search earns exactly the
      first-search badge and records the district. */
  lemma FirstSearchExample(kreisId: string, today: string, yesterday: string, now: string)
    requires today != yesterday && today != "" && yesterday != ""
    ensures var s := Store(map[], None, true, true);
      var o := RecordSearch(s, kreisId, today, yesterday, now);
      o.result == Ok([Earn(FirstSearch, now)])
      && o.store.progress.value.totalSearches == 1
      && o.store.progress.value.discoveredKreise == [kreisId]
      && o.store.progress.value.currentStreak == 1
  {
    var p := DefaultProgress(now);
    assert BadgeIds(p.badges) == [];
    assert NextStreak(p.lastActiveDate, p.currentStreak, today, yesterday) == 1;
    assert SearchBadges([], 1, 1, now) == [Earn(FirstSearch, now)];
  }

  /** The all-states badge is in the catalogue but neither operation ever
      awards it. */
  lemma AllStatesNeverAwarded(s: Store, kreisId: string, correct: bool, today: string, yesterday: string, now: string)
    ensures Earn(AllStates, now) !in RecordSearch(s, kreisId, today, yesterday, now).result.ToOption().GetOr([])
    ensures Earn(AllStates, now) !in RecordQuizAnswer(s, correct, now).result.ToOption().GetOr([])
  {
  }
}
