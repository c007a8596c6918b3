/** The two state slots of the `App` component, `wordLists` and
    `practiceSession`, and the handlers and timer that overwrite them. Each
    handler delegates to the transition functions of `ListStore` and
    `Practice`. */
module AppState {
  import opened Wrappers
  import opened Text
  import opened RandomDraw
  import opened ListStore
  import opened Practice

  /** Well-formed lists always have a word to show. */
  lemma WellFormedHaveWords(lists: seq<WordList>)
    requires AllWellFormed(lists)
    ensures HaveWords(lists)
  {
    forall k | 0 <= k < |lists| ensures lists[k].words != [] {
      assert WellFormed(lists[k]);
    }
  }

  class App {
    var wordLists: seq<WordList>
    var practiceSession: Option<Session>
    /** Every id a list has been created with, deleted lists included. */
    ghost var usedIds: set<string>

    /** The lists are as creation makes them and have distinct ids, every id
        in use or referred to by the session has been handed out, and the
        session is consistent with the live lists. */
    ghost predicate Valid()
      reads this
    {
      AllWellFormed(wordLists) &&
      UniqueIds(wordLists) && Ids(wordLists) <= usedIds &&
      SessionOk(wordLists, practiceSession) &&
      (practiceSession.Some? ==> practiceSession.value.listId in usedIds)
    }

    /** The component mounts with no list and no session. */
    constructor ()
      ensures Valid() && wordLists == [] && practiceSession == None && usedIds == {}
    {
      wordLists := [];
      practiceSession := None;
      usedIds := {};
    }

    /** `createWordList`: on success the new list is appended and nothing
        else changes; on refusal nothing changes at all. `id`, `colorRoll`
        and `createdAt` stand for `Date.now()`, `Math.random()` and
        `new Date()`; the id must not have been used before. */
    method CreateWordList(name: string, text: string, id: string, colorRoll: real, createdAt: int)
      returns (outcome: Result<WordList, CreateError>)
      requires Valid() && IsRoll(colorRoll) && id !in usedIds
      modifies this
      ensures Valid()
      ensures outcome == NewList(name, text, id, colorRoll, createdAt)
      ensures wordLists == if outcome.Success? then old(wordLists) + [outcome.value] else old(wordLists)
      ensures practiceSession == old(practiceSession)
      ensures usedIds == if outcome.Success? then old(usedIds) + {id} else old(usedIds)
    {
      outcome := NewList(name, text, id, colorRoll, createdAt);
      if outcome.Success? {
        var l := outcome.value;
        AppendKeepsUnique(wordLists, l);
        AppendKeepsOk(wordLists, l, practiceSession);
        wordLists := wordLists + [l];
        WellFormedHaveWords(wordLists);
        usedIds := usedIds + {id};
      }
    }

    /** `deleteWordList`: the lists without the one with that id. */
    method DeleteWordList(id: string)
      requires Valid()
      modifies this
      ensures Valid()
      ensures wordLists == Delete(old(wordLists), id)
      ensures practiceSession == old(practiceSession) && usedIds == old(usedIds)
    {
      DeleteKeepsUnique(wordLists, id);
      DeleteKeepsWellFormed(wordLists, id);
      DeleteKeepsOk(wordLists, id, practiceSession);
      wordLists := Delete(wordLists, id);
    }

    /** `startPractice`, with `duration` from the slider and `roll` standing
        for `Math.random()`. */
    method StartPractice(listId: string, isRandom: bool, duration: int, roll: real)
      requires Valid() && IsRoll(roll) && MinDuration <= duration <= MaxDuration
      modifies this
      ensures Valid()
      ensures practiceSession == Start(old(wordLists), old(practiceSession), listId, isRandom, duration, roll)
      ensures wordLists == old(wordLists) && usedIds == old(usedIds)
    {
      StartKeepsOk(wordLists, practiceSession, listId, isRandom, duration, roll);
      practiceSession := Start(wordLists, practiceSession, listId, isRandom, duration, roll);
    }

    /** `stopPractice`: the session is discarded. */
    method StopPractice()
      requires Valid()
      modifies this
      ensures Valid()
      ensures practiceSession == None
      ensures wordLists == old(wordLists) && usedIds == old(usedIds)
    {
      practiceSession := None;
    }

    /** `togglePractice`: pause or resume. */
    method TogglePractice()
      requires Valid()
      modifies this
      ensures Valid()
      ensures practiceSession == Toggle(old(practiceSession))
      ensures wordLists == old(wordLists) && usedIds == old(usedIds)
    {
      ToggleKeepsOk(wordLists, practiceSession);
      if practiceSession.Some? {
        practiceSession := Toggle(practiceSession);
      }
    }

    /** One second of the practice timer, `roll` standing for `Math.random()`. */
    method TimerTick(roll: real)
      requires Valid() && IsRoll(roll)
      modifies this
      ensures Valid()
      ensures practiceSession == TimerStep(old(wordLists), old(practiceSession), roll)
      ensures wordLists == old(wordLists) && usedIds == old(usedIds)
    {
      TimerStepKeepsOk(wordLists, practiceSession, roll);
      practiceSession := TimerStep(wordLists, practiceSession, roll);
    }

    /** `getCurrentWord`: while the session's list exists the word shown is
        the list's word at the session's index, and it is never empty. */
    method GetCurrentWord() returns (w: string)
      requires Valid()
      ensures w == CurrentWord(wordLists, practiceSession)
      ensures practiceSession.Some? && Find(wordLists, practiceSession.value.listId).Some? ==>
        w != [] && w == Find(wordLists, practiceSession.value.listId).value.words[practiceSession.value.currentWordIndex]
    {
      if practiceSession.Some? && Find(wordLists, practiceSession.value.listId).Some? {
        CurrentWordShown(wordLists, practiceSession.value);
      }
      w := CurrentWord(wordLists, practiceSession);
    }
  }
}
