/** The practice engine: the optional `PracticeSession` and its transitions
    (`startPractice`, `togglePractice`, the once-a-second tick of the timer
    effect) and the resolution of the word on display (`getCurrentWord`).
    The engine only reads the store, always through the live list sequence. */
module Practice {
  import opened Wrappers
  import opened Text
  import opened ListStore
  import opened RandomDraw

  /** The range of the display-duration slider, in seconds. */
  const MinDuration: int := 3
  const MaxDuration: int := 30

  datatype Session = Session(
    listId: string,
    currentWordIndex: nat,
    isPlaying: bool,
    isRandom: bool,
    duration: int,
    timeLeft: int,
    completedWords: nat,
    totalWords: nat)

  /** Every stored list has a word to show. */
  predicate HaveWords(lists: seq<WordList>)
  {
    forall k :: 0 <= k < |lists| ==> lists[k].words != []
  }

  predicate ValidRolls(rolls: seq<real>)
  {
    forall k :: 0 <= k < |rolls| ==> IsRoll(rolls[k])
  }

  /** What holds of a session between transitions: its duration is one the
      slider offers, the timer is between 1 and the duration, and the index
      is within the live list whenever the list still exists. */
  predicate SessionOk(lists: seq<WordList>, session: Option<Session>)
  {
    match session
    case None => true
    case Some(s) =>
      MinDuration <= s.duration <= MaxDuration && 1 <= s.timeLeft <= s.duration &&
      (Find(lists, s.listId).Some? ==> s.currentWordIndex < |Find(lists, s.listId).value.words|)
  }

  /** `startPractice(listId, isRandom, duration)`: an unknown id leaves the
      session as it was; otherwise a new playing session replaces it, at
      index 0 (sequential) or at a drawn index of the list (random), with a
      full timer and no word completed yet. */
  function Start(lists: seq<WordList>, session: Option<Session>, listId: string,
                 isRandom: bool, duration: int, roll: real): (r: Option<Session>)
    requires IsRoll(roll)
    ensures Find(lists, listId).None? ==> r == session
    ensures Find(lists, listId).Some? ==>
      var l := Find(lists, listId).value;
      r.Some? && r.value.listId == listId && r.value.isPlaying &&
      r.value.isRandom == isRandom && r.value.duration == duration &&
      r.value.timeLeft == duration && r.value.completedWords == 0 &&
      r.value.totalWords == |l.words| &&
      (!isRandom ==> r.value.currentWordIndex == 0) &&
      (l.words != [] ==> r.value.currentWordIndex < |l.words|)
  {
    match Find(lists, listId)
    case None => session
    case Some(l) =>
      var startIndex := if isRandom then Pick(roll, |l.words|) else 0;
      Some(Session(listId, startIndex, true, isRandom, duration, duration, 0, |l.words|))
  }

  /** `togglePractice`: flips `isPlaying` and nothing else; no session, no
      change. */
  function Toggle(session: Option<Session>): (r: Option<Session>)
    ensures r.None? <==> session.None?
    ensures r.Some? ==> r.value.isPlaying == !session.value.isPlaying &&
                        r.value.(isPlaying := session.value.isPlaying) == session.value
  {
    match session
    case None => None
    case Some(s) => Some(s.(isPlaying := !s.isPlaying))
  }

  /** Toggling twice restores the session. */
  lemma ToggleTwice(session: Option<Session>)
    ensures Toggle(Toggle(session)) == session
  {
  }

  /** The updater the timer applies each second. Above one second left, the
      timer counts down and nothing else changes. Otherwise the engine looks
      the list up again: gone, the session ends; present, the next word is
      shown (the following index, cyclically, or a drawn one), the timer is
      reset to the duration and one more word is completed. */
  function Tick(lists: seq<WordList>, prev: Option<Session>, roll: real): (r: Option<Session>)
    requires IsRoll(roll) && HaveWords(lists)
    ensures prev.None? ==> r.None?
    ensures prev.Some? && prev.value.timeLeft > 1 ==>
      r == Some(prev.value.(timeLeft := prev.value.timeLeft - 1))
    ensures prev.Some? && prev.value.timeLeft <= 1 && Find(lists, prev.value.listId).None? ==>
      r.None?
    ensures prev.Some? && prev.value.timeLeft <= 1 && Find(lists, prev.value.listId).Some? ==>
      var s, n := prev.value, |Find(lists, prev.value.listId).value.words|;
      r.Some? && r.value.currentWordIndex < n &&
      (!s.isRandom ==> r.value.currentWordIndex == (s.currentWordIndex + 1) % n) &&
      r.value == s.(currentWordIndex := r.value.currentWordIndex, timeLeft := s.duration,
                    completedWords := s.completedWords + 1)
  {
    match prev
    case None => None
    case Some(s) =>
      if s.timeLeft <= 1 then
        match Find(lists, s.listId)
        case None => None
        case Some(l) =>
          assert l in lists;
          var nextIndex := if s.isRandom then Pick(roll, |l.words|)
                           else (s.currentWordIndex + 1) % |l.words|;
          Some(s.(currentWordIndex := nextIndex, timeLeft := s.duration,
                  completedWords := s.completedWords + 1))
      else
        Some(s.(timeLeft := s.timeLeft - 1))
  }

  /** One second of the timer effect: a timer runs only while a session is
      playing, so a paused or absent session is left as it is and a playing
      one takes one tick. */
  function TimerStep(lists: seq<WordList>, session: Option<Session>, roll: real): (r: Option<Session>)
    requires IsRoll(roll) && HaveWords(lists)
    ensures session.None? || !session.value.isPlaying ==> r == session
    ensures session.Some? && session.value.isPlaying ==> r == Tick(lists, session, roll)
  {
    if session.Some? && session.value.isPlaying then Tick(lists, session, roll) else session
  }

  /** The timer running for `|rolls|` seconds, `rolls[i]` being the random
      draw of second `i`. A session that survives keeps its list, mode,
      duration and word count, and its completed count never goes down. */
  function RunTimer(lists: seq<WordList>, session: Option<Session>, rolls: seq<real>): (r: Option<Session>)
    requires ValidRolls(rolls) && HaveWords(lists)
    ensures r.Some? ==>
      session.Some? && r.value.listId == session.value.listId &&
      r.value.isRandom == session.value.isRandom && r.value.duration == session.value.duration &&
      r.value.totalWords == session.value.totalWords &&
      r.value.isPlaying == session.value.isPlaying &&
      r.value.completedWords >= session.value.completedWords
    decreases |rolls|
  {
    if rolls == [] then session
    else RunTimer(lists, TimerStep(lists, session, rolls[0]), rolls[1..])
  }

  lemma {:induction false} RunTimerAppend(lists: seq<WordList>, session: Option<Session>, a: seq<real>, b: seq<real>)
    requires ValidRolls(a) && ValidRolls(b) && HaveWords(lists)
    ensures ValidRolls(a + b)
    ensures RunTimer(lists, session, a + b) == RunTimer(lists, RunTimer(lists, session, a), b)
    decreases |a|
  {
    if a == [] {
      assert a + b == b;
    } else {
      assert (a + b)[0] == a[0] && (a + b)[1..] == a[1..] + b;
      RunTimerAppend(lists, TimerStep(lists, session, a[0]), a[1..], b);
    }
  }

  /** While paused, the timer changes nothing: index, timer and completed
      count are frozen however long the pause lasts. */
  lemma {:induction false} PausedIsFrozen(lists: seq<WordList>, session: Option<Session>, rolls: seq<real>)
    requires ValidRolls(rolls) && HaveWords(lists)
    requires session.None? || !session.value.isPlaying
    ensures RunTimer(lists, session, rolls) == session
    decreases |rolls|
  {
    if rolls != [] {
      PausedIsFrozen(lists, session, rolls[1..]);
    }
  }

  /** In sequential mode, a playing session with `t` seconds left shows the
      next word of the list, cyclically, after exactly `t` seconds, with the
      timer full again and one more word completed. */
  lemma {:induction false} SequentialAdvance(lists: seq<WordList>, s: Session, l: WordList, rolls: seq<real>)
    requires ValidRolls(rolls) && HaveWords(lists)
    requires Find(lists, s.listId) == Some(l)
    requires !s.isRandom && s.isPlaying && s.timeLeft >= 1 && |rolls| == s.timeLeft
    ensures l.words != []
    ensures RunTimer(lists, Some(s), rolls) ==
      Some(s.(currentWordIndex := (s.currentWordIndex + 1) % |l.words|, timeLeft := s.duration,
              completedWords := s.completedWords + 1))
    decreases s.timeLeft
  {
    assert l in lists;
    if s.timeLeft == 1 {
      assert rolls[1..] == [];
    } else {
      SequentialAdvance(lists, s.(timeLeft := s.timeLeft - 1), l, rolls[1..]);
    }
  }

  lemma MulAtLeast(a: int, n: int)
    requires a >= 1 && n > 0
    ensures a * n >= n
  {
  }

  /** Euclidean division leaves a unique remainder. */
  lemma ModUnique(x: int, n: int, q: int, r: int)
    requires n > 0 && 0 <= r < n && x == q * n + r
    ensures x % n == r
  {
    var q', r' := x / n, x % n;
    assert q * n - q' * n == (q - q') * n;
    if q > q' {
      MulAtLeast(q - q', n);
    } else if q < q' {
      MulAtLeast(q' - q, n);
    }
  }

  lemma ModStep(i: nat, k: nat, n: nat)
    requires n > 0
    ensures ((i + 1) % n + k) % n == (i + 1 + k) % n
  {
    var q, r := (i + 1) / n, (i + 1) % n;
    var x := r + k;
    var q2, m := x / n, x % n;
    assert i + 1 + k == (q + q2) * n + m;
    ModUnique(i + 1 + k, n, q + q2, m);
  }

  /** In sequential mode, `k` full durations advance the index by `k`
      positions, cyclically, and complete `k` words. */
  lemma {:induction false} SequentialCycles(lists: seq<WordList>, s: Session, l: WordList, rolls: seq<real>, k: nat)
    requires ValidRolls(rolls) && HaveWords(lists)
    requires Find(lists, s.listId) == Some(l)
    requires !s.isRandom && s.isPlaying && s.duration >= 1 && s.timeLeft == s.duration
    requires s.currentWordIndex < |l.words|
    requires |rolls| == k * s.duration
    ensures l.words != []
    ensures RunTimer(lists, Some(s), rolls) ==
      Some(s.(currentWordIndex := (s.currentWordIndex + k) % |l.words|,
              completedWords := s.completedWords + k))
    decreases k
  {
    assert l in lists;
    var n := |l.words|;
    if k == 0 {
      assert rolls == [];
    } else {
      var d := s.duration;
      assert |rolls| == d + (k - 1) * d;
      var first, rest := rolls[..d], rolls[d..];
      assert rolls == first + rest;
      RunTimerAppend(lists, Some(s), first, rest);
      SequentialAdvance(lists, s, l, first);
      var s1 := s.(currentWordIndex := (s.currentWordIndex + 1) % n, timeLeft := d,
                   completedWords := s.completedWords + 1);
      SequentialCycles(lists, s1, l, rest, k - 1);
      ModStep(s.currentWordIndex, k - 1, n);
    }
  }

  /** In sequential mode, as many advances as the list has words bring the
      index back to where it started. */
  lemma FullCycle(lists: seq<WordList>, s: Session, l: WordList, rolls: seq<real>)
    requires ValidRolls(rolls) && HaveWords(lists)
    requires Find(lists, s.listId) == Some(l) && s.currentWordIndex < |l.words|
    requires !s.isRandom && s.isPlaying && s.duration >= 1 && s.timeLeft == s.duration
    requires |rolls| == |l.words| * s.duration
    ensures RunTimer(lists, Some(s), rolls) ==
      Some(s.(completedWords := s.completedWords + |l.words|))
  {
    var n := |l.words|;
    SequentialCycles(lists, s, l, rolls, n);
    ModUnique(s.currentWordIndex + n, n, 1, s.currentWordIndex);
  }

  /** `getCurrentWord`: the word at the session's index in the live list; the
      empty string with no session, a vanished list or an index out of range.
      A non-empty result is always that word, and a present session whose
      list exists with an index in range always yields it. */
  function CurrentWord(lists: seq<WordList>, session: Option<Session>): (w: string)
    ensures w != [] ==>
      (session.Some? && Find(lists, session.value.listId).Some? &&
       var words := Find(lists, session.value.listId).value.words;
       session.value.currentWordIndex < |words| && w == words[session.value.currentWordIndex])
    ensures session.Some? && Find(lists, session.value.listId).Some? &&
            session.value.currentWordIndex < |Find(lists, session.value.listId).value.words| ==>
      w == Find(lists, session.value.listId).value.words[session.value.currentWordIndex]
  {
    match session
    case None => ""
    case Some(s) =>
      match Find(lists, s.listId)
      case None => ""
      case Some(l) => if s.currentWordIndex < |l.words| then l.words[s.currentWordIndex] else ""
  }

  /** With well-formed lists and a consistent session whose list exists, the
      word on display is the list's word at the index, never empty, trimmed. */
  lemma CurrentWordShown(lists: seq<WordList>, s: Session)
    requires AllWellFormed(lists) && SessionOk(lists, Some(s))
    requires Find(lists, s.listId).Some?
    ensures var l := Find(lists, s.listId).value;
      CurrentWord(lists, Some(s)) == l.words[s.currentWordIndex] &&
      CurrentWord(lists, Some(s)) != [] && IsTrimmed(CurrentWord(lists, Some(s)))
  {
    var l := Find(lists, s.listId).value;
    var k :| 0 <= k < |lists| && lists[k] == l;
    assert WellFormed(lists[k]);
  }

  lemma StartKeepsOk(lists: seq<WordList>, session: Option<Session>, listId: string,
                     isRandom: bool, duration: int, roll: real)
    requires IsRoll(roll) && HaveWords(lists) && SessionOk(lists, session)
    requires MinDuration <= duration <= MaxDuration
    ensures SessionOk(lists, Start(lists, session, listId, isRandom, duration, roll))
  {
    if Find(lists, listId).Some? {
      assert Find(lists, listId).value in lists;
    }
  }

  lemma TickKeepsOk(lists: seq<WordList>, session: Option<Session>, roll: real)
    requires IsRoll(roll) && HaveWords(lists) && SessionOk(lists, session)
    ensures SessionOk(lists, Tick(lists, session, roll))
  {
  }

  lemma TimerStepKeepsOk(lists: seq<WordList>, session: Option<Session>, roll: real)
    requires IsRoll(roll) && HaveWords(lists) && SessionOk(lists, session)
    ensures SessionOk(lists, TimerStep(lists, session, roll))
  {
    TickKeepsOk(lists, session, roll);
  }

  lemma ToggleKeepsOk(lists: seq<WordList>, session: Option<Session>)
    requires SessionOk(lists, session)
    ensures SessionOk(lists, Toggle(session))
  {
  }

  /** Deleting a list keeps the session consistent: either its list is gone,
      or it is the very same list as before. */
  lemma DeleteKeepsOk(lists: seq<WordList>, id: string, session: Option<Session>)
    requires SessionOk(lists, session)
    ensures SessionOk(Delete(lists, id), session)
  {
    if session.Some? {
      FindAfterDelete(lists, id, session.value.listId);
    }
  }

  /** Appending a list whose id is not the session's keeps it consistent. */
  lemma AppendKeepsOk(lists: seq<WordList>, l: WordList, session: Option<Session>)
    requires SessionOk(lists, session)
    requires session.Some? ==> session.value.listId != l.id
    ensures SessionOk(lists + [l], session)
  {
    if session.Some? {
      FindAfterAppend(lists, l, session.value.listId);
    }
  }
}
