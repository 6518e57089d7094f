/**
  The challenge browser: a case-insensitive title search combined with a
  difficulty filter and a status filter over the catalogue.
 */
module Challenges {
  import opened Text
  import opened MockData

  datatype DifficultyFilter = AnyDifficulty | OnlyDifficulty(level: Difficulty)

  datatype StatusFilter = AnyStatus | CompletedOnly | InProgressOnly | LockedOnly

  datatype Filters = Filters(query: string, difficulty: DifficultyFilter, status: StatusFilter)

  /** The page's initial filters: empty search, all difficulties, all statuses. */
  const NoFilters: Filters := Filters("", AnyDifficulty, AnyStatus)

  predicate SearchMatches(c: Challenge, query: string)
  {
    query == "" || Contains(ToLower(c.title), ToLower(query))
  }

  predicate DifficultyMatches(c: Challenge, f: DifficultyFilter)
  {
    match f
    case AnyDifficulty => true
    case OnlyDifficulty(level) => c.difficulty == level
  }

  /** "In progress" means neither completed nor locked; the other two test one flag each. */
  predicate StatusMatches(c: Challenge, f: StatusFilter)
  {
    match f
    case AnyStatus => true
    case CompletedOnly => c.isCompleted
    case InProgressOnly => !c.isCompleted && !c.isLocked
    case LockedOnly => c.isLocked
  }

  /**
    The filter callback, written as the chain of early returns it is; a
    challenge is kept exactly when it passes all three filters.
   */
  function Passes(c: Challenge, fs: Filters): (keep: bool)
    ensures keep <==> SearchMatches(c, fs.query) && DifficultyMatches(c, fs.difficulty) && StatusMatches(c, fs.status)
  {
    if fs.query != "" && !Contains(ToLower(c.title), ToLower(fs.query)) then false
    else if fs.difficulty != AnyDifficulty && c.difficulty != fs.difficulty.level then false
    else if fs.status == CompletedOnly && !c.isCompleted then false
    else if fs.status == InProgressOnly && (c.isCompleted || c.isLocked) then false
    else if fs.status == LockedOnly && !c.isLocked then false
    else true
  }

  /** `a` is `b` with some elements dropped and the rest in their original order. */
  predicate IsSubsequence(a: seq<Challenge>, b: seq<Challenge>)
    decreases |b|
  {
    if a == [] then true
    else if b == [] then false
    else (a[0] == b[0] && IsSubsequence(a[1..], b[1..])) || IsSubsequence(a, b[1..])
  }

  /**
    `Array.prototype.filter` with `Passes`: keeps exactly the passing
    challenges, in catalogue order, so "Showing n of m" never has n > m.
   */
  function FilterChallenges(cs: seq<Challenge>, fs: Filters): (shown: seq<Challenge>)
    ensures forall c :: c in shown <==> c in cs && Passes(c, fs)
    ensures IsSubsequence(shown, cs)
    ensures |shown| <= |cs|
    ensures forall c :: multiset(shown)[c] == if Passes(c, fs) then multiset(cs)[c] else 0
  {
    if cs == [] then []
    else
      assert cs == [cs[0]] + cs[1..];
      if Passes(cs[0], fs) then [cs[0]] + FilterChallenges(cs[1..], fs)
      else FilterChallenges(cs[1..], fs)
  }

  /** The "no challenges found" placeholder appears exactly when nothing passes. */
  lemma EmptyStateIffNonePass(cs: seq<Challenge>, fs: Filters)
    ensures FilterChallenges(cs, fs) == [] <==> forall i :: 0 <= i < |cs| ==> !Passes(cs[i], fs)
  {
    if FilterChallenges(cs, fs) != [] {
      var c := FilterChallenges(cs, fs)[0];
      assert c in FilterChallenges(cs, fs);
      var i :| 0 <= i < |cs| && cs[i] == c;
      assert Passes(cs[i], fs);
    } else {
      forall i | 0 <= i < |cs|
        ensures !Passes(cs[i], fs)
      {
        assert cs[i] in cs;
      }
    }
  }

  /** With the initial filters the whole catalogue is shown, in order. */
  lemma {:induction false} NoFiltersShowAll(cs: seq<Challenge>)
    ensures FilterChallenges(cs, NoFilters) == cs
  {
    if cs != [] {
      NoFiltersShowAll(cs[1..]);
    }
  }

  /** Applying the same filters again changes nothing. */
  lemma {:induction false} FilterIdempotent(cs: seq<Challenge>, fs: Filters)
    ensures FilterChallenges(FilterChallenges(cs, fs), fs) == FilterChallenges(cs, fs)
  {
    if cs != [] {
      FilterIdempotent(cs[1..], fs);
    }
  }

  /**
    Searching for a challenge's own title, in any letter case, finds it
    whenever the other two filters let it through.
   */
  lemma SearchFindsOwnTitle(cs: seq<Challenge>, c: Challenge, query: string, fs: Filters)
    requires c in cs
    requires ToLower(query) == ToLower(c.title)
    requires fs.query == query
    requires DifficultyMatches(c, fs.difficulty) && StatusMatches(c, fs.status)
    ensures c in FilterChallenges(cs, fs)
  {
    ContainsAt(ToLower(c.title), ToLower(query), 0);
  }

  /**
    The in-progress view shares no challenge with the completed or the locked
    view; a challenge that is both completed and locked shows in both of those.
   */
  lemma StatusViewsOverlap(c: Challenge, query: string, difficulty: DifficultyFilter)
    ensures !(Passes(c, Filters(query, difficulty, InProgressOnly)) && Passes(c, Filters(query, difficulty, CompletedOnly)))
    ensures !(Passes(c, Filters(query, difficulty, InProgressOnly)) && Passes(c, Filters(query, difficulty, LockedOnly)))
    ensures c.isCompleted && c.isLocked ==>
      (Passes(c, Filters(query, difficulty, CompletedOnly)) <==> Passes(c, Filters(query, difficulty, LockedOnly)))
  {
  }

  /**
    Every challenge passing the "all statuses" view passes exactly one of
    in-progress, or at least one of completed and locked.
   */
  lemma StatusViewsCover(c: Challenge, query: string, difficulty: DifficultyFilter)
    requires Passes(c, Filters(query, difficulty, AnyStatus))
    ensures Passes(c, Filters(query, difficulty, InProgressOnly)) <==>
      !Passes(c, Filters(query, difficulty, CompletedOnly)) && !Passes(c, Filters(query, difficulty, LockedOnly))
  {
  }
}
