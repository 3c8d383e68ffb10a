/** The new-words learning session: a bounded "learn N new words" run in two
    phases. While selecting, the learner sees fresh words one by one and
    either marks them already known or starts learning them; the queue is
    refilled from a shuffled pool of unseen words. Once enough words are
    being learned, the session switches to practicing only those. Mastering
    a word registers it with the scheduler. The goal is lowered when the
    pool cannot supply enough words.

    The state machine is specified on `Session` values by one function per
    action; the `NewWordsSession` class performs the same steps on its fields
    and is proved to end in the state the function names. Randomness is the
    caller's: `shuffle` functions that permute, and the reinsertion index. */
module NewWordsSessions {
  import opened Wrappers
  import opened Seqs
  import opened Domain
  import opened Srs
  import opened KnownWords
  import opened SessionQueues

  datatype SessionState = Fresh | Learning

  datatype Phase = Selecting | Practicing

  /** A queue entry; its identifier is the word's. */
  datatype SessionWord = SessionWord(word: Word, state: SessionState)

  /** The number of words the queue is refilled up to at most. */
  const MaxTargetQueueSize: int := 5

  /** `f` only reorders: it is the model of `shuffle()`. */
  ghost predicate Permutes<T(!new)>(f: seq<T> -> seq<T>) {
    forall s :: multiset(f(s)) == multiset(s)
  }

  function FreshEntries(words: seq<Word>): (r: seq<SessionWord>)
    ensures |r| == |words|
    ensures forall i :: 0 <= i < |words| ==> r[i] == SessionWord(words[i], Fresh)
  {
    if words == [] then [] else [SessionWord(words[0], Fresh)] + FreshEntries(words[1..])
  }

  function WordsOf(entries: seq<SessionWord>): (r: seq<Word>)
    ensures |r| == |entries|
    ensures forall i :: 0 <= i < |entries| ==> r[i] == entries[i].word
  {
    if entries == [] then [] else [entries[0].word] + WordsOf(entries[1..])
  }

  predicate IsLearning(e: SessionWord) {
    e.state == Learning
  }

  predicate AllLearning(entries: seq<SessionWord>) {
    forall i :: 0 <= i < |entries| ==> entries[i].state == Learning
  }

  /** `items.removeAll { $0.state == .fresh }` */
  function Learners(entries: seq<SessionWord>): seq<SessionWord> {
    Filter(entries, IsLearning)
  }

  /** The observable state of a session (the error message aside). */
  datatype Session = Session(
    queue: seq<SessionWord>,
    goal: int,
    masteredCount: int,
    phase: Phase,
    learningWordIds: set<string>,
    remainingNewWords: seq<Word>,
    targetQueueSize: int)

  /** The state `start` and a failed `start` leave behind when there is
      nothing to learn. */
  const Idle: Session := Session([], 0, 0, Selecting, {}, [], 0)

  /** `isFinished`: a positive goal has been met. A session without a goal,
      including one whose goal was lowered to zero, is never finished, and
      a finished one has mastered at least one word. */
  predicate Finished(s: Session): (r: bool)
    ensures r <==> s.goal > 0 && s.masteredCount >= s.goal
    ensures s.goal <= 0 ==> !r
    ensures r ==> s.masteredCount >= 1
  {
    s.goal > 0 && s.masteredCount >= s.goal
  }

  // ---------------------------------------------------------------------
  // The actions, on values

  /** A successful `start` on the already shuffled new words. */
  function Started(newWords: seq<Word>, sessionSize: int): Session {
    var goal := Min(Max(0, sessionSize), |newWords|);
    if goal <= 0 then Idle
    else
      var target := Min(goal, MaxTargetQueueSize);
      Session(FreshEntries(newWords[..target]), goal, 0, Selecting, {}, newWords[target..], target)
  }

  /** Entering practice drops every fresh entry and shuffles the rest. */
  function EnteredPractice(s: Session, shuffle: seq<SessionWord> -> seq<SessionWord>): Session {
    s.(phase := Practicing, queue := shuffle(Learners(s.queue)))
  }

  /** The queue and pool after the refill loop and the extra single take. */
  function RefilledPool(items: seq<SessionWord>, remaining: seq<Word>, target: int): (seq<SessionWord>, seq<Word>) {
    var k := Min(Max(0, target - |items|), |remaining|);
    var items1 := items + FreshEntries(remaining[..k]);
    var remaining1 := remaining[k..];
    if items1 == [] && remaining1 != [] then (FreshEntries(remaining1[..1]), remaining1[1..])
    else (items1, remaining1)
  }

  /** `refillFreshIfNeeded`. */
  function AfterRefill(s: Session, shuffle: seq<SessionWord> -> seq<SessionWord>): Session {
    if s.phase != Selecting then s
    else if |s.learningWordIds| >= s.goal then EnteredPractice(s, shuffle)
    else
      var (items, remaining) := RefilledPool(s.queue, s.remainingNewWords, s.targetQueueSize);
      s.(queue := items, remainingNewWords := remaining)
  }

  /** The goal falls to the number of words being learned when the pool is
      empty and nothing fresh is left to choose from. */
  function Downgraded(s: Session): Session {
    if s.remainingNewWords == [] && AllLearning(s.queue) && |s.learningWordIds| < s.goal
    then s.(goal := |s.learningWordIds|)
    else s
  }

  /** `markAlreadyKnown` on a non-empty queue; `persisted` says whether
      saving the known words succeeded. */
  function AfterAlreadyKnown(s: Session, persisted: bool, shuffle: seq<SessionWord> -> seq<SessionWord>): Session
    requires s.queue != []
  {
    var popped := s.(queue := s.queue[1..]);
    if persisted && popped.phase == Selecting then Downgraded(AfterRefill(popped, shuffle))
    else popped
  }

  /** The reinsertion index suits the queue `entries`. */
  predicate InWindow(entries: seq<SessionWord>, window: int, insertAt: nat) {
    |entries| > 1 ==> WindowStart(|entries| - 1, window) <= insertAt <= |entries| - 1
  }

  /** `moveCurrentNearEnd` on values. */
  function Deferred(entries: seq<SessionWord>, insertAt: nat): seq<SessionWord>
    requires |entries| <= 1 || insertAt <= |entries| - 1
  {
    if |entries| <= 1 then entries else MovedNearEnd(entries, insertAt)
  }

  /** `showLater` */
  function AfterShowLater(s: Session, window: int, insertAt: nat): Session
    requires InWindow(s.queue, window, insertAt)
  {
    s.(queue := Deferred(s.queue, insertAt))
  }

  /** `startLearning` on a non-empty queue. */
  function AfterStartLearning(s: Session, window: int, insertAt: nat,
                              shuffle: seq<SessionWord> -> seq<SessionWord>): Session
    requires s.queue != [] && InWindow(s.queue, window, insertAt)
  {
    var marked := s.queue[0 := s.queue[0].(state := Learning)];
    var learning := s.learningWordIds + {s.queue[0].word.id};
    var t := s.(queue := Deferred(marked, insertAt), learningWordIds := learning);
    if t.phase == Selecting && |learning| >= t.goal then EnteredPractice(t, shuffle) else t
  }

  /** `markMastered` on a non-empty queue; `persisted` says whether saving
      the schedule succeeded. */
  function AfterMastered(s: Session, persisted: bool, shuffle: seq<SessionWord> -> seq<SessionWord>): Session
    requires s.queue != []
  {
    var popped := s.(queue := s.queue[1..]);
    if !persisted then popped else AfterSavedMastery(popped, s.queue[0].word.id, shuffle)
  }

  /** The rest of `markMastered` once the word `id` is popped and saved:
      it is counted, and the session finishes, refills, enters practice or
      lowers its goal. */
  function AfterSavedMastery(popped: Session, id: string, shuffle: seq<SessionWord> -> seq<SessionWord>): Session {
    var m := popped.(masteredCount := popped.masteredCount + 1,
                     learningWordIds := popped.learningWordIds - {id});
    if m.masteredCount >= m.goal then m.(queue := [], remainingNewWords := [])
    else if m.phase == Selecting then
      (if |m.learningWordIds| < m.goal then Downgraded(AfterRefill(m, shuffle)) else EnteredPractice(m, shuffle))
    else if m.queue == [] then m.(goal := m.masteredCount)
    else m
  }

  /** One learner action. */
  datatype Action =
    | MarkAlreadyKnown(persisted: bool)
    | StartLearning(insertAt: nat)
    | ShowLater(insertAt: nat)
    | MarkMastered(persisted: bool)

  /** The reinsertion index of a deferring action suits the queue. */
  predicate Allowed(s: Session, window: int, a: Action) {
    match a
    case StartLearning(k) => InWindow(s.queue, window, k)
    case ShowLater(k) => InWindow(s.queue, window, k)
    case _ => true
  }

  /** The session after one action; every action on an empty queue is a
      no-op. */
  function Step(s: Session, window: int, a: Action, shuffle: seq<SessionWord> -> seq<SessionWord>): Session
    requires Allowed(s, window, a)
  {
    if s.queue == [] then s
    else match a
      case MarkAlreadyKnown(p) => AfterAlreadyKnown(s, p, shuffle)
      case StartLearning(k) => AfterStartLearning(s, window, k, shuffle)
      case ShowLater(k) => AfterShowLater(s, window, k)
      case MarkMastered(p) => AfterMastered(s, p, shuffle)
  }

  predicate AllAllowed(s: Session, window: int, actions: seq<Action>, shuffle: seq<SessionWord> -> seq<SessionWord>)
    decreases |actions|
  {
    actions == [] ||
    (Allowed(s, window, actions[0]) && AllAllowed(Step(s, window, actions[0], shuffle), window, actions[1..], shuffle))
  }

  function Steps(s: Session, window: int, actions: seq<Action>, shuffle: seq<SessionWord> -> seq<SessionWord>): Session
    requires AllAllowed(s, window, actions, shuffle)
    decreases |actions|
  {
    if actions == [] then s else Steps(Step(s, window, actions[0], shuffle), window, actions[1..], shuffle)
  }

  // ---------------------------------------------------------------------
  // Properties

  /** `start` seeds the queue with the first `min(goal, 5)` shuffled new
      words, all fresh, and keeps the others, in order, as the pool. */
  lemma StartedSeedsQueue(newWords: seq<Word>, sessionSize: int)
    ensures var s := Started(newWords, sessionSize);
      && s.goal == Min(Max(0, sessionSize), |newWords|)
      && s.masteredCount == 0 && s.phase == Selecting && s.learningWordIds == {}
      && (s.goal == 0 ==> s.queue == [] && s.remainingNewWords == [] && s.targetQueueSize == 0)
      && (s.goal > 0 ==>
            && s.targetQueueSize == Min(s.goal, MaxTargetQueueSize)
            && |s.queue| == s.targetQueueSize
            && (forall i :: 0 <= i < |s.queue| ==> s.queue[i].state == Fresh)
            && WordsOf(s.queue) + s.remainingNewWords == newWords)
  {
    var s := Started(newWords, sessionSize);
    if s.goal > 0 {
      var t := s.targetQueueSize;
      assert WordsOf(s.queue) == newWords[..t];
      assert newWords[..t] + newWords[t..] == newWords;
    }
  }

  /** The seeded queue and the pool together are a permutation of the new
      words, whatever order the shuffle chose. */
  lemma StartedSplitsNewWords(newWords: seq<Word>, shuffle: seq<Word> -> seq<Word>, sessionSize: int)
    requires Permutes(shuffle)
    ensures var s := Started(shuffle(newWords), sessionSize);
      s.goal > 0 ==> multiset(WordsOf(s.queue)) + multiset(s.remainingNewWords) == multiset(newWords)
  {
    StartedSeedsQueue(shuffle(newWords), sessionSize);
  }

  /** Entering practice keeps every learning entry as often as it occurs
      and no fresh one. */
  lemma EnteredPracticeKeepsLearners(s: Session, shuffle: seq<SessionWord> -> seq<SessionWord>)
    requires Permutes(shuffle)
    ensures var p := EnteredPractice(s, shuffle);
      && p.phase == Practicing
      && AllLearning(p.queue)
      && forall e :: multiset(p.queue)[e] == if e.state == Learning then multiset(s.queue)[e] else 0
  {
    var p := EnteredPractice(s, shuffle);
    assert multiset(p.queue) == multiset(Learners(s.queue));
    forall e
      ensures multiset(p.queue)[e] == if e.state == Learning then multiset(s.queue)[e] else 0
    {
      FilterMultiplicity(s.queue, IsLearning, e);
    }
    forall i | 0 <= i < |p.queue|
      ensures p.queue[i].state == Learning
    {
      assert p.queue[i] in multiset(p.queue);
      assert p.queue[i] in multiset(Learners(s.queue));
      assert p.queue[i] in Learners(s.queue);
    }
  }

  /** The refill appends fresh entries for a prefix of the pool, in pool
      order, and leaves the rest of the pool; it fills the queue up to the
      target when the pool allows, and takes one word into an empty queue
      even when the target is not positive. */
  lemma RefilledPoolTakesPrefix(items: seq<SessionWord>, remaining: seq<Word>, target: int)
    ensures var (items2, remaining2) := RefilledPool(items, remaining, target);
      var taken := remaining[..|remaining| - |remaining2|];
      && |remaining2| <= |remaining|
      && remaining2 == remaining[|remaining| - |remaining2|..]
      && items2 == items + FreshEntries(taken)
      && (target >= 1 ==> |items2| == Max(|items|, Min(target, |items| + |remaining|)))
      && (|items| >= target && items != [] ==> items2 == items && remaining2 == remaining)
      && (items == [] && remaining != [] ==> items2 != [])
  {
    var k := Min(Max(0, target - |items|), |remaining|);
    var items1 := items + FreshEntries(remaining[..k]);
    var remaining1 := remaining[k..];
    if items1 == [] && remaining1 != [] {
      assert remaining1[1..] == remaining[k + 1..];
      assert remaining[..k + 1] == remaining[..k] + remaining1[..1];
      assert k == 0;
      assert remaining[..0 + 1] == remaining1[..1];
    } else {
      assert remaining[..|remaining| - |remaining1|] == remaining[..k];
    }
  }

  /** An exhausted pool adds nothing. */
  lemma RefillOfEmptyPool(items: seq<SessionWord>, target: int)
    ensures RefilledPool(items, [], target) == (items, [])
  {
    var empty: seq<Word> := [];
    assert empty[..0] == [];
    assert items + FreshEntries([]) == items;
  }

  /** No action ever raises the goal, and none lowers the mastered count. */
  lemma StepNeverRaisesGoal(s: Session, window: int, a: Action, shuffle: seq<SessionWord> -> seq<SessionWord>)
    requires Allowed(s, window, a)
    ensures Step(s, window, a, shuffle).goal <= s.goal
    ensures Step(s, window, a, shuffle).masteredCount >= s.masteredCount
  {
  }

  /** Over any run of actions the goal only ever goes down after `start`. */
  lemma {:induction false} GoalNeverIncreases(s: Session, window: int, actions: seq<Action>,
                                              shuffle: seq<SessionWord> -> seq<SessionWord>)
    requires AllAllowed(s, window, actions, shuffle)
    ensures Steps(s, window, actions, shuffle).goal <= s.goal
    ensures Steps(s, window, actions, shuffle).masteredCount >= s.masteredCount
    decreases |actions|
  {
    if actions != [] {
      StepNeverRaisesGoal(s, window, actions[0], shuffle);
      GoalNeverIncreases(Step(s, window, actions[0], shuffle), window, actions[1..], shuffle);
    }
  }

  /** While practicing, the queue holds learning entries only. */
  predicate PracticesLearnersOnly(s: Session) {
    s.phase == Practicing ==> AllLearning(s.queue)
  }

  /** Deferring an entry keeps the queue's entries, so a queue of learners
      stays one. */
  lemma DeferredKeepsAllLearning(entries: seq<SessionWord>, insertAt: nat)
    requires AllLearning(entries) && (|entries| <= 1 || insertAt <= |entries| - 1)
    ensures AllLearning(Deferred(entries, insertAt))
  {
    if |entries| > 1 {
      MovedNearEndConserves(entries, insertAt);
      var r := Deferred(entries, insertAt);
      forall i | 0 <= i < |r|
        ensures r[i].state == Learning
      {
        assert r[i] in multiset(entries);
      }
    }
  }

  lemma StartLearningKeepsPracticeLearnersOnly(s: Session, window: int, k: nat,
                                               shuffle: seq<SessionWord> -> seq<SessionWord>)
    requires Permutes(shuffle) && s.queue != [] && InWindow(s.queue, window, k) && PracticesLearnersOnly(s)
    ensures PracticesLearnersOnly(AfterStartLearning(s, window, k, shuffle))
  {
    var marked := s.queue[0 := s.queue[0].(state := Learning)];
    var learning := s.learningWordIds + {s.queue[0].word.id};
    var t := s.(queue := Deferred(marked, k), learningWordIds := learning);
    if t.phase == Selecting && |learning| >= t.goal {
      EnteredPracticeKeepsLearners(t, shuffle);
    } else if t.phase == Practicing {
      assert AfterStartLearning(s, window, k, shuffle) == t;
      forall i | 0 <= i < |marked|
        ensures marked[i].state == Learning
      {
        assert i != 0 ==> marked[i] == s.queue[i];
      }
      DeferredKeepsAllLearning(marked, k);
    }
  }

  lemma MasteredKeepsPracticeLearnersOnly(s: Session, p: bool, shuffle: seq<SessionWord> -> seq<SessionWord>)
    requires Permutes(shuffle) && s.queue != [] && PracticesLearnersOnly(s)
    ensures PracticesLearnersOnly(AfterMastered(s, p, shuffle))
  {
    var popped := s.(queue := s.queue[1..]);
    var m := popped.(masteredCount := popped.masteredCount + 1,
                     learningWordIds := popped.learningWordIds - {s.queue[0].word.id});
    if p && m.masteredCount < m.goal && m.phase == Selecting {
      if |m.learningWordIds| >= m.goal {
        EnteredPracticeKeepsLearners(m, shuffle);
      }
    }
  }

  lemma AlreadyKnownKeepsPracticeLearnersOnly(s: Session, p: bool, shuffle: seq<SessionWord> -> seq<SessionWord>)
    requires Permutes(shuffle) && s.queue != [] && PracticesLearnersOnly(s)
    ensures PracticesLearnersOnly(AfterAlreadyKnown(s, p, shuffle))
  {
    var popped := s.(queue := s.queue[1..]);
    if p && popped.phase == Selecting && |popped.learningWordIds| >= popped.goal {
      EnteredPracticeKeepsLearners(popped, shuffle);
    }
  }

  /** Every action keeps "practicing means learning entries only". */
  lemma StepKeepsPracticeLearnersOnly(s: Session, window: int, a: Action,
                                      shuffle: seq<SessionWord> -> seq<SessionWord>)
    requires Permutes(shuffle) && Allowed(s, window, a) && PracticesLearnersOnly(s)
    ensures PracticesLearnersOnly(Step(s, window, a, shuffle))
  {
    if s.queue != [] {
      match a
      case MarkAlreadyKnown(p) => AlreadyKnownKeepsPracticeLearnersOnly(s, p, shuffle);
      case StartLearning(k) => StartLearningKeepsPracticeLearnersOnly(s, window, k, shuffle);
      case ShowLater(k) =>
        if s.phase == Practicing {
          DeferredKeepsAllLearning(s.queue, k);
        }
      case MarkMastered(p) => MasteredKeepsPracticeLearnersOnly(s, p, shuffle);
    }
  }

  lemma {:induction false} StepsKeepPracticeLearnersOnly(s: Session, window: int, actions: seq<Action>,
                                                         shuffle: seq<SessionWord> -> seq<SessionWord>)
    requires Permutes(shuffle) && AllAllowed(s, window, actions, shuffle) && PracticesLearnersOnly(s)
    ensures PracticesLearnersOnly(Steps(s, window, actions, shuffle))
    decreases |actions|
  {
    if actions != [] {
      StepKeepsPracticeLearnersOnly(s, window, actions[0], shuffle);
      StepsKeepPracticeLearnersOnly(Step(s, window, actions[0], shuffle), window, actions[1..], shuffle);
    }
  }

  /** Mastering the last word of the goal finishes and empties the session. */
  lemma MasteringTheGoalFinishes(s: Session, shuffle: seq<SessionWord> -> seq<SessionWord>)
    requires s.queue != [] && s.goal > 0 && s.masteredCount + 1 >= s.goal
    ensures var r := AfterMastered(s, true, shuffle);
      Finished(r) && r.queue == [] && r.remainingNewWords == []
  {
  }

  /** The mastered count can overtake the goal: with three new words and a
      goal of three, learning and mastering the first word and then marking
      the other two as already known empties the queue with the pool
      exhausted, so the goal falls to the (zero) number of words being
      learned and the finished test never holds. */
  lemma MasteredCountCanExceedGoal()
    ensures var s := AfterAlreadyKnown(AfterAlreadyKnown(AfterMastered(AfterStartLearning(
              Started([W1, W2, W3], 3), 3, 0, Unshuffled), true, Unshuffled), true, Unshuffled), true, Unshuffled);
      && s.queue == [] && s.remainingNewWords == []
      && s.goal == 0 && s.masteredCount == 1
      && !Finished(s)
  {
    StartedThree();
    LearnFirst();
    MasterFirst();
    KnowSecond();
    KnowThird();
  }

  // The run of `MasteredCountCanExceedGoal`, one action at a time.

  const W1 := Word("w1", "", "", None)
  const W2 := Word("w2", "", "", None)
  const W3 := Word("w3", "", "", None)

  /** The shuffle that keeps the order. */
  function Unshuffled(q: seq<SessionWord>): seq<SessionWord> { q }

  lemma StartedThree()
    ensures Started([W1, W2, W3], 3)
         == Session([SessionWord(W1, Fresh), SessionWord(W2, Fresh), SessionWord(W3, Fresh)], 3, 0, Selecting, {}, [], 3)
  {
    assert [W1, W2, W3][..3] == [W1, W2, W3] && [W1, W2, W3][3..] == [];
  }

  lemma LearnFirst()
    ensures AfterStartLearning(Session([SessionWord(W1, Fresh), SessionWord(W2, Fresh), SessionWord(W3, Fresh)], 3, 0, Selecting, {}, [], 3), 3, 0, Unshuffled)
         == Session([SessionWord(W1, Learning), SessionWord(W2, Fresh), SessionWord(W3, Fresh)], 3, 0, Selecting, {"w1"}, [], 3)
  {
    assert WindowStart(2, 3) == 0;
  }

  lemma MasterFirst()
    ensures AfterMastered(Session([SessionWord(W1, Learning), SessionWord(W2, Fresh), SessionWord(W3, Fresh)], 3, 0, Selecting, {"w1"}, [], 3), true, Unshuffled)
         == Session([SessionWord(W2, Fresh), SessionWord(W3, Fresh)], 3, 1, Selecting, {}, [], 3)
  {
    var rest := [SessionWord(W2, Fresh), SessionWord(W3, Fresh)];
    assert rest[0].state == Fresh;
    RefillOfEmptyPool(rest, 3);
  }

  lemma KnowSecond()
    ensures AfterAlreadyKnown(Session([SessionWord(W2, Fresh), SessionWord(W3, Fresh)], 3, 1, Selecting, {}, [], 3), true, Unshuffled)
         == Session([SessionWord(W3, Fresh)], 3, 1, Selecting, {}, [], 3)
  {
    var rest := [SessionWord(W3, Fresh)];
    assert rest[0].state == Fresh;
    RefillOfEmptyPool(rest, 3);
  }

  lemma KnowThird()
    ensures AfterAlreadyKnown(Session([SessionWord(W3, Fresh)], 3, 1, Selecting, {}, [], 3), true, Unshuffled)
         == Session([], 0, 1, Selecting, {}, [], 3)
  {
    RefillOfEmptyPool([], 3);
  }


  /** `refillFreshIfNeeded`'s pool drain as one append per word. */
  lemma FreshEntriesAppend(a: seq<Word>, b: seq<Word>)
    ensures FreshEntries(a + b) == FreshEntries(a) + FreshEntries(b)
  {
    var r := FreshEntries(a + b);
    assert |r| == |FreshEntries(a) + FreshEntries(b)|;
    forall i | 0 <= i < |r|
      ensures r[i] == (FreshEntries(a) + FreshEntries(b))[i]
    {
      if i < |a| {
        assert (a + b)[i] == a[i];
      } else {
        assert (a + b)[i] == b[i - |a|];
      }
    }
  }

  /** The loop and the extra single take of `refillFreshIfNeeded`, on
      values: fresh entries for the front of the pool are appended while
      the queue is below the target, and one is taken into an empty queue.
      The caller has already checked that fewer than `goal` words are being
      learned, and nothing here changes that. */
  method TakeFresh(queue: seq<SessionWord>, remaining: seq<Word>, target: int, learningCount: int, goal: int)
    returns (items: seq<SessionWord>, pool: seq<Word>)
    requires learningCount < goal
    ensures items == RefilledPool(queue, remaining, target).0
    ensures pool == RefilledPool(queue, remaining, target).1
  {
    items := queue;
    pool := remaining;
    ghost var k := 0;
    while |items| < target && pool != [] && learningCount < goal
      invariant 0 <= k <= |remaining|
      invariant k <= Max(0, target - |queue|)
      invariant pool == remaining[k..]
      invariant items == queue + FreshEntries(remaining[..k])
      decreases |pool|
    {
      var next := pool[0];
      pool := pool[1..];
      items := items + [SessionWord(next, Fresh)];
      FreshEntriesAppend(remaining[..k], [next]);
      assert remaining[..k + 1] == remaining[..k] + [next];
      k := k + 1;
    }
    assert k == Min(Max(0, target - |queue|), |remaining|);

    if items == [] && pool != [] && learningCount < goal {
      var next := pool[0];
      assert pool[..1] == [next];
      assert FreshEntries(pool[..1]) == [SessionWord(next, Fresh)];
      pool := pool[1..];
      items := items + [SessionWord(next, Fresh)];
    }
  }

  // ---------------------------------------------------------------------
  // The view model

  class NewWordsSession {
    const srs: SrsService
    const known: KnownWordsService
    const q: Queue<SessionWord>
    const nearEndShuffleWindow: int

    var goal: int
    var masteredCount: int
    var errorMessage: Option<string>
    var firstReviewTomorrow: bool
    var targetQueueSize: int
    var remainingNewWords: seq<Word>
    var phase: Phase
    var learningWordIds: set<string>

    /** The window is clamped to at least one slot. */
    constructor (srs: SrsService, known: KnownWordsService, nearEndShuffleWindow: int)
      ensures this.srs == srs && this.known == known
      ensures this.nearEndShuffleWindow == Max(1, nearEndShuffleWindow)
      ensures fresh(q) && State() == Idle && errorMessage == None && firstReviewTomorrow
    {
      this.srs := srs;
      this.known := known;
      this.nearEndShuffleWindow := Max(1, nearEndShuffleWindow);
      q := new Queue([], (e: SessionWord) => e.word.id);
      goal := 0;
      masteredCount := 0;
      errorMessage := None;
      firstReviewTomorrow := true;
      targetQueueSize := 0;
      remainingNewWords := [];
      phase := Selecting;
      learningWordIds := {};
    }

    function State(): Session
      reads this, q
    {
      Session(q.items, goal, masteredCount, phase, learningWordIds, remainingNewWords, targetQueueSize)
    }

    /** `isFinished` */
    predicate IsFinished(): (r: bool)
      reads this, q
      ensures r <==> goal > 0 && masteredCount >= goal
    {
      Finished(State())
    }

    /** Loads both services and starts a session over the words neither
        scheduled nor known, shuffled by `shuffle`. A load error resets the
        session and records the error. */
    method Start(words: seq<Word>, sessionSize: int, firstReviewTomorrow: bool,
                 shuffle: seq<Word> -> seq<Word>, srsFault: Option<string>, knownFault: Option<string>)
      modifies this, q, srs, known
      ensures this.firstReviewTomorrow == firstReviewTomorrow
      ensures srs.cached == if srsFault.None? then srs.store.saved else old(srs.cached)
      ensures known.cached == if srsFault.None? && knownFault.None? then known.store.saved else old(known.cached)
      ensures srsFault.Some? ==> State() == Idle && errorMessage == srsFault
      ensures srsFault.None? && knownFault.Some? ==> State() == Idle && errorMessage == knownFault
      ensures srsFault.None? && knownFault.None? ==>
        && State() == Started(shuffle(NewWords(words, Elems(ItemIds(srs.cached)), known.cached)), sessionSize)
        && errorMessage == None
    {
      this.firstReviewTomorrow := firstReviewTomorrow;

      var srsLoaded := srs.Load(srsFault);
      if srsLoaded.Fail? {
        ResetWithError(srsLoaded.error);
        return;
      }
      var knownLoaded := known.Load(knownFault);
      if knownLoaded.Fail? {
        ResetWithError(knownLoaded.error);
        return;
      }

      var srsIds := Elems(srs.AllWordIds());
      var knownList := known.AllWordIds();
      var knownIds := Elems(knownList);
      assert knownIds == known.cached;

      var newWords := NewWords(words, srsIds, knownIds);
      newWords := shuffle(newWords);
      Seed(newWords, sessionSize);
    }

    /** The second half of `start`: sets the goal and seeds the queue and
        the pool from the shuffled new words. */
    method Seed(newWords: seq<Word>, sessionSize: int)
      modifies this, q
      ensures firstReviewTomorrow == old(firstReviewTomorrow)
      ensures State() == Started(newWords, sessionSize) && errorMessage == None
    {
      learningWordIds := {};
      phase := Selecting;

      var size := Max(0, sessionSize);
      goal := Min(size, |newWords|);
      masteredCount := 0;
      errorMessage := None;

      if goal <= 0 {
        q.SetItems([]);
        remainingNewWords := [];
        targetQueueSize := 0;
        return;
      }

      targetQueueSize := Min(goal, MaxTargetQueueSize);
      var initial := newWords[..targetQueueSize];
      q.SetItems(FreshEntries(initial));
      remainingNewWords := newWords[targetQueueSize..];
    }

    /** The `catch` of `start`. */
    method ResetWithError(message: string)
      modifies this, q
      ensures State() == Idle && errorMessage == Some(message)
      ensures firstReviewTomorrow == old(firstReviewTomorrow)
    {
      errorMessage := Some(message);
      q.SetItems([]);
      remainingNewWords := [];
      goal := 0;
      masteredCount := 0;
      targetQueueSize := 0;
      learningWordIds := {};
      phase := Selecting;
    }

    /** Pops the current word and records it as known; while selecting,
        refills and lowers the goal if the pool has run dry. A persistence
        error leaves the word popped and records the error. */
    method MarkAlreadyKnown(knownFault: Option<string>, shuffle: seq<SessionWord> -> seq<SessionWord>)
      modifies this, q, known, known.store
      ensures firstReviewTomorrow == old(firstReviewTomorrow)
      ensures old(q.items) == [] ==>
        && State() == old(State()) && errorMessage == old(errorMessage)
        && known.cached == old(known.cached) && known.store.saved == old(known.store.saved)
      ensures old(q.items) != [] ==>
        && known.cached == old(known.cached) + {old(q.items)[0].word.id}
        && known.store.saved == (if knownFault.None? then known.cached else old(known.store.saved))
        && State() == AfterAlreadyKnown(old(State()), knownFault.None?, shuffle)
        && errorMessage == (if knownFault.None? then old(errorMessage) else knownFault)
    {
      var item := q.Current();
      if item.None? {
        return;
      }
      var _ := q.PopCurrent();
      known.AddKnown(item.value.word.id);
      var persisted := known.Persist(knownFault);
      if persisted.Fail? {
        errorMessage := Some(persisted.error);
        return;
      }
      if phase == Selecting {
        RefillFreshIfNeeded(shuffle);
        DowngradeIfExhausted();
      }
    }

    /** Marks the current word as being learned and defers it near the end;
        reaching the goal while selecting starts the practice phase. */
    method StartLearning(insertAt: nat, shuffle: seq<SessionWord> -> seq<SessionWord>)
      requires InWindow(q.items, nearEndShuffleWindow, insertAt)
      modifies this, q
      ensures errorMessage == old(errorMessage) && firstReviewTomorrow == old(firstReviewTomorrow)
      ensures old(q.items) == [] ==> State() == old(State())
      ensures old(q.items) != [] ==>
        State() == AfterStartLearning(old(State()), nearEndShuffleWindow, insertAt, shuffle)
    {
      if q.IsEmpty() {
        return;
      }
      var items := q.items;
      var id := items[0].word.id;
      items := items[0 := items[0].(state := Learning)];
      q.SetItems(items);

      learningWordIds := learningWordIds + {id};

      ShowLater(insertAt);

      if phase == Selecting && |learningWordIds| >= goal {
        EnterPracticePhase(shuffle);
      }
    }

    /** Defers the current word to `insertAt`, inside the near-end window. */
    method ShowLater(insertAt: nat)
      requires InWindow(q.items, nearEndShuffleWindow, insertAt)
      modifies q
      ensures State() == AfterShowLater(old(State()), nearEndShuffleWindow, insertAt)
    {
      q.MoveCurrentNearEnd(nearEndShuffleWindow, insertAt);
    }

    /** Pops the current word and registers it with the scheduler; after a
        successful save counts it as mastered, then finishes, refills or
        enters practice, lowering the goal where the words have run out. A
        persistence error leaves the word popped and records the error. */
    method MarkMastered(now: Instant, srsFault: Option<string>, shuffle: seq<SessionWord> -> seq<SessionWord>)
      modifies this, q, srs, srs.store
      ensures firstReviewTomorrow == old(firstReviewTomorrow)
      ensures old(q.items) == [] ==>
        && State() == old(State()) && errorMessage == old(errorMessage)
        && srs.cached == old(srs.cached) && srs.store.saved == old(srs.store.saved)
      ensures old(q.items) != [] ==>
        && srs.cached == Registered(old(srs.cached), old(q.items)[0].word.id, FirstDueDay(now, firstReviewTomorrow))
        && srs.store.saved == (if srsFault.None? then srs.cached else old(srs.store.saved))
        && State() == AfterMastered(old(State()), srsFault.None?, shuffle)
        && errorMessage == (if srsFault.None? then old(errorMessage) else srsFault)
    {
      var item := q.Current();
      if item.None? {
        return;
      }
      var _ := q.PopCurrent();
      srs.AddNewWordToSrs(item.value.word.id, now, firstReviewTomorrow);
      var persisted := srs.Persist(srsFault);
      if persisted.Fail? {
        errorMessage := Some(persisted.error);
        return;
      }

      CountMastered(item.value.word.id, shuffle);
    }

    /** `markMastered` after a successful save of the popped word `id`. */
    method CountMastered(id: string, shuffle: seq<SessionWord> -> seq<SessionWord>)
      modifies this, q
      ensures errorMessage == old(errorMessage) && firstReviewTomorrow == old(firstReviewTomorrow)
      ensures State() == AfterSavedMastery(old(State()), id, shuffle)
    {
      ghost var s0 := State();
      masteredCount := masteredCount + 1;
      learningWordIds := learningWordIds - {id};
      ghost var m := s0.(masteredCount := s0.masteredCount + 1, learningWordIds := s0.learningWordIds - {id});
      assert State() == m;

      if masteredCount >= goal {
        q.SetItems([]);
        remainingNewWords := [];
        return;
      }

      if phase == Selecting {
        if |learningWordIds| < goal {
          RefillFreshIfNeeded(shuffle);
          DowngradeIfExhausted();
        } else {
          EnterPracticePhase(shuffle);
        }
      } else {
        if q.IsEmpty() {
          goal := masteredCount;
        }
      }
    }

    /** Lowers the goal to the number of words being learned once the pool
        is empty and every queued word is being learned. */
    method DowngradeIfExhausted()
      modifies this
      ensures errorMessage == old(errorMessage) && firstReviewTomorrow == old(firstReviewTomorrow)
      ensures State() == Downgraded(old(State()))
    {
      if remainingNewWords == [] && AllLearning(q.items) && |learningWordIds| < goal {
        goal := |learningWordIds|;
      }
    }

    /** While selecting: enters practice once enough words are being learned,
        otherwise moves fresh words from the front of the pool into the
        queue up to the target size. */
    method RefillFreshIfNeeded(shuffle: seq<SessionWord> -> seq<SessionWord>)
      modifies this, q
      ensures errorMessage == old(errorMessage) && firstReviewTomorrow == old(firstReviewTomorrow)
      ensures State() == AfterRefill(old(State()), shuffle)
    {
      if phase != Selecting {
        return;
      }
      if |learningWordIds| >= goal {
        EnterPracticePhase(shuffle);
        return;
      }

      var items, pool := TakeFresh(q.items, remainingNewWords, targetQueueSize, |learningWordIds|, goal);
      remainingNewWords := pool;
      q.SetItems(items);
    }

    /** Drops the fresh entries and shuffles the learning ones. */
    method EnterPracticePhase(shuffle: seq<SessionWord> -> seq<SessionWord>)
      modifies this, q
      ensures errorMessage == old(errorMessage) && firstReviewTomorrow == old(firstReviewTomorrow)
      ensures State() == EnteredPractice(old(State()), shuffle)
    {
      phase := Practicing;
      var items := q.items;
      items := Learners(items);
      items := shuffle(items);
      q.SetItems(items);
    }
  }
}
