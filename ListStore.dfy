/** The word-list store: the `WordList` record, lookup by id (`find`), the
    validation and construction of a new list (`createWordList`) and
    deletion by id (`deleteWordList`). */
module ListStore {
  import opened Wrappers
  import opened Sequences
  import opened Text
  import opened RandomDraw

  /** A named list of words to practise. `createdAt` is the creation time in
      milliseconds, as the caller's clock gives it. */
  datatype WordList = WordList(id: string, name: string, words: seq<string>, color: string, createdAt: int)

  /** The palette a new list's colour is drawn from. */
  const COLORS: seq<string> := [
    "bg-blue-500", "bg-green-500", "bg-purple-500", "bg-orange-500",
    "bg-pink-500", "bg-indigo-500", "bg-teal-500", "bg-red-500"
  ]

  /** Why creation was refused: a blank field, or no word left after parsing. */
  datatype CreateError = MissingField | NoWords

  /** What creation guarantees of a list: a non-blank name, at least one word,
      every word non-empty and trimmed, a colour of the palette. */
  predicate WellFormed(l: WordList)
  {
    Trim(l.name) != [] && l.words != [] && l.color in COLORS &&
    forall k :: 0 <= k < |l.words| ==> l.words[k] != [] && IsTrimmed(l.words[k])
  }

  predicate AllWellFormed(lists: seq<WordList>)
  {
    forall k :: 0 <= k < |lists| ==> WellFormed(lists[k])
  }

  predicate UniqueIds(lists: seq<WordList>)
  {
    forall i, j :: 0 <= i < j < |lists| ==> lists[i].id != lists[j].id
  }

  function Ids(lists: seq<WordList>): set<string>
  {
    set l | l in lists :: l.id
  }

  /** `lists.find(l => l.id === id)`: the first list with that id, if any. */
  function Find(lists: seq<WordList>, id: string): (r: Option<WordList>)
    ensures r.None? <==> id !in Ids(lists)
    ensures r.Some? ==> exists k :: 0 <= k < |lists| && lists[k] == r.value && r.value.id == id &&
                                    forall j :: 0 <= j < k ==> lists[j].id != id
  {
    if lists == [] then None
    else if lists[0].id == id then Some(lists[0])
    else
      var r := Find(lists[1..], id);
      assert Ids(lists) == {lists[0].id} + Ids(lists[1..]) by {
        assert lists == [lists[0]] + lists[1..];
      }
      if r.Some? then
        var k :| 0 <= k < |lists[1..]| && lists[1..][k] == r.value && r.value.id == id &&
                 forall j :: 0 <= j < k ==> lists[1..][j].id != id;
        assert lists[k + 1] == r.value;
        r
      else r
  }

  /** In a store whose ids are unique, lookup finds the one list with the id. */
  lemma FindUnique(lists: seq<WordList>, k: nat)
    requires UniqueIds(lists) && k < |lists|
    ensures Find(lists, lists[k].id) == Some(lists[k])
  {
  }

  /** `COLORS[Math.floor(Math.random() * COLORS.length)]`. */
  function PickColor(roll: real): (c: string)
    requires IsRoll(roll)
    ensures c in COLORS
  {
    COLORS[Pick(roll, |COLORS|)]
  }

  /** The validation and construction of `createWordList`: refused with
      `MissingField` when the trimmed name or the trimmed text is empty;
      otherwise a list holding the untrimmed name and the parsed words. The
      `NoWords` refusal of the source is never reached: a text that is not
      blank always yields a word. */
  function NewList(name: string, text: string, id: string, colorRoll: real, createdAt: int)
    : (r: Result<WordList, CreateError>)
    requires IsRoll(colorRoll)
    ensures r.Failure? <==> Trim(name) == [] || Trim(text) == []
    ensures r.Failure? ==> r.error == MissingField
    ensures r.Success? ==> WellFormed(r.value) && r.value.id == id && r.value.name == name &&
                           r.value.words == ParseWords(text) && r.value.createdAt == createdAt
  {
    if Trim(name) == [] || Trim(text) == [] then Failure(MissingField)
    else
      var words := ParseWords(text);
      ParseWordsEmptyIff(text);
      if |words| == 0 then Failure(NoWords)
      else Success(WordList(id, name, words, PickColor(colorRoll), createdAt))
  }

  function KeepOther(id: string): WordList -> bool
  {
    (l: WordList) => l.id != id
  }

  /** `lists.filter(l => l.id !== id)`: no list with that id remains, every
      other list stays, in its original relative order; an absent id changes
      nothing. */
  function Delete(lists: seq<WordList>, id: string): (r: seq<WordList>)
    ensures forall k :: 0 <= k < |r| ==> r[k].id != id && r[k] in lists
    ensures forall k :: 0 <= k < |lists| && lists[k].id != id ==> lists[k] in r
    ensures IsSubsequence(r, lists)
    ensures id !in Ids(lists) ==> r == lists
    ensures id !in Ids(r)
  {
    var r := Filter(lists, KeepOther(id));
    if id in Ids(lists) then r
    else
      FilterKeepsAll(lists, KeepOther(id));
      r
  }

  /** Deletion keeps every list with another id as many times as it occurs,
      and no list with the deleted id. */
  lemma DeleteCount(lists: seq<WordList>, id: string)
    ensures forall l :: multiset(Delete(lists, id))[l] == if l.id != id then multiset(lists)[l] else 0
  {
    FilterCount(lists, KeepOther(id));
  }

  /** With unique ids, deleting a present id removes exactly that one list. */
  lemma DeletePresent(lists: seq<WordList>, k: nat)
    requires UniqueIds(lists) && k < |lists|
    ensures Delete(lists, lists[k].id) == lists[..k] + lists[k + 1..]
  {
    var keep := KeepOther(lists[k].id);
    var front, back := lists[..k], lists[k + 1..];
    assert lists == front + ([lists[k]] + back);
    FilterAppend(front, [lists[k]] + back, keep);
    FilterAppend([lists[k]], back, keep);
    assert forall i :: 0 <= i < |front| ==> keep(front[i]) by {
      forall i | 0 <= i < |front| ensures keep(front[i]) {
        assert front[i] == lists[i];
      }
    }
    assert forall i :: 0 <= i < |back| ==> keep(back[i]) by {
      forall i | 0 <= i < |back| ensures keep(back[i]) {
        assert back[i] == lists[k + 1 + i];
      }
    }
    FilterKeepsAll(front, keep);
    FilterKeepsAll(back, keep);
    assert Filter([lists[k]], keep) == [];
  }

  /** Deletion keeps the store's ids unique. */
  lemma DeleteKeepsUnique(lists: seq<WordList>, id: string)
    requires UniqueIds(lists)
    ensures UniqueIds(Delete(lists, id))
  {
    FilterKeepsUnique(lists, KeepOther(id));
  }

  lemma {:induction false} FilterKeepsUnique(lists: seq<WordList>, keep: WordList -> bool)
    requires UniqueIds(lists)
    ensures UniqueIds(Filter(lists, keep))
  {
    if lists != [] {
      var tail := lists[1..];
      assert UniqueIds(tail) by {
        forall i, j | 0 <= i < j < |tail| ensures tail[i].id != tail[j].id {
          assert tail[i] == lists[i + 1] && tail[j] == lists[j + 1];
        }
      }
      FilterKeepsUnique(tail, keep);
      var rest := Filter(tail, keep);
      if keep(lists[0]) {
        forall j | 0 <= j < |rest| ensures rest[j].id != lists[0].id {
          var i :| 0 <= i < |tail| && tail[i] == rest[j];
          assert lists[i + 1] == rest[j];
        }
        var r := [lists[0]] + rest;
        forall i, j | 0 <= i < j < |r| ensures r[i].id != r[j].id {
          if i > 0 {
            assert r[i] == rest[i - 1] && r[j] == rest[j - 1];
          } else {
            assert r[j] == rest[j - 1];
          }
        }
      }
    }
  }

  /** Deletion keeps every list well formed. */
  lemma DeleteKeepsWellFormed(lists: seq<WordList>, id: string)
    requires AllWellFormed(lists)
    ensures AllWellFormed(Delete(lists, id))
  {
    var r := Delete(lists, id);
    forall k | 0 <= k < |r| ensures WellFormed(r[k]) {
      var i :| 0 <= i < |lists| && lists[i] == r[k];
    }
  }

  /** Appending a list with a fresh id keeps the ids unique. */
  lemma AppendKeepsUnique(lists: seq<WordList>, l: WordList)
    requires UniqueIds(lists) && l.id !in Ids(lists)
    ensures UniqueIds(lists + [l])
  {
    var r := lists + [l];
    forall i, j | 0 <= i < j < |r| ensures r[i].id != r[j].id {
      if j == |lists| {
        assert r[i] in lists;
      }
    }
  }

  /** After a deletion, lookup of the deleted id fails and lookup of any other
      id is as before. */
  lemma FindAfterDelete(lists: seq<WordList>, x: string, id: string)
    ensures Find(Delete(lists, x), id) == if id == x then None else Find(lists, id)
  {
    if id != x {
      FindAfterFilter(lists, x, id);
    }
  }

  /** Dropping the lists with id `x` does not change the first list with
      another id. */
  lemma {:induction false} FindAfterFilter(lists: seq<WordList>, x: string, id: string)
    requires id != x
    ensures Find(Filter(lists, KeepOther(x)), id) == Find(lists, id)
  {
    if lists != [] {
      FindAfterFilter(lists[1..], x, id);
    }
  }

  /** Appending a list does not change which list an id already resolves to. */
  lemma {:induction false} FindAfterAppend(lists: seq<WordList>, l: WordList, id: string)
    ensures Find(lists + [l], id) ==
      if Find(lists, id).Some? then Find(lists, id) else if l.id == id then Some(l) else None
  {
    if lists != [] {
      assert (lists + [l])[1..] == lists[1..] + [l];
      FindAfterAppend(lists[1..], l, id);
    } else {
      assert lists + [l] == [l];
    }
  }
}
