/**
 * The multiple-choice quiz (Quiz.js): question generation from the words or
 * the phrases of the dictionary, distractor selection, and answer handling.
 * The coin, the draws and the shuffles are supplied by the caller, and the
 * fuzzy matcher's ranking is supplied as `ranked`, a list drawn from the pool.
 */
module Quiz {
  import opened Wrappers
  import opened Vocabulary
  import opened Shuffles
  import opened Collections

  /** The fewest entries a pool needs before a question is asked. */
  const MinPool: nat := 4
  /** The number of distractors a question aims for. */
  const DistractorCount: nat := 3

  /** `Math.random() > 0.5 ? phrases : words`. */
  function Pool(data: seq<Entry>, coin: bool): seq<Entry>
  {
    if coin then Phrases(data) else Words(data)
  }

  /** `items.filter(item => item.English !== english)`. */
  function OtherThan(items: seq<Entry>, english: string): (r: seq<Entry>)
    ensures |r| <= |items|
    ensures forall e :: e in r <==> e in items && e.English != english
  {
    if items == [] then []
    else (if items[0].English != english then [items[0]] else []) + OtherThan(items[1..], english)
  }

  /** The distractors taken from the fuzzy matches: a shuffle of the matches other than the answer, cut to three. */
  function SimilarDistractors(ranked: seq<Entry>, correct: Entry, picks: seq<nat>): (d: seq<Entry>)
    ensures |d| == if |OtherThan(ranked, correct.English)| < DistractorCount
      then |OtherThan(ranked, correct.English)| else DistractorCount
    ensures forall e :: e in d ==> e in ranked && e.English != correct.English
  {
    var similar := OtherThan(ranked, correct.English);
    var d := Take(Shuffle(similar, picks), DistractorCount);
    assert forall e :: e in d ==> e in multiset(Shuffle(similar, picks));
    d
  }

  /** `e` may still be added: it is not the answer and no distractor chosen so far shares its English. */
  predicate Admissible(e: Entry, english: string, d: seq<Entry>)
  {
    e.English != english && forall x :: x in d ==> x.English != e.English
  }

  /** The pool entries the top-up could still add. */
  function Eligible(pool: seq<Entry>, english: string, d: seq<Entry>): (r: seq<Entry>)
    ensures forall e :: e in r <==> e in pool && Admissible(e, english, d)
  {
    if pool == [] then []
    else (if Admissible(pool[0], english, d) then [pool[0]] else []) + Eligible(pool[1..], english, d)
  }

  /**
   * While fewer than three distractors are chosen, a pool with at least four
   * identities always has an entry left to add.
   */
  lemma EligibleNonEmpty(pool: seq<Entry>, english: string, d: seq<Entry>)
    requires |Identities(pool)| >= MinPool && |d| < DistractorCount
    ensures Eligible(pool, english, d) != []
  {
    if Eligible(pool, english, d) == [] {
      var covered := {english} + Identities(d);
      forall id | id in Identities(pool) ensures id in covered {
        var e :| e in pool && e.English == id;
        assert !Admissible(e, english, d);
      }
      IdentitiesBound(d);
      SubsetCard(Identities(pool), covered);
      assert false;
    }
  }

  /**
   * The random top-up, with the loop guard stopping once no pool entry can be
   * added (see the findings): entries are drawn among the admissible ones, so
   * each round adds one. Returns the distractors.
   */
  method TopUp(pool: seq<Entry>, correct: Entry, initial: seq<Entry>, picks: seq<nat>) returns (d: seq<Entry>)
    requires |initial| <= DistractorCount
    requires forall x :: x in initial ==> x.English != correct.English
    ensures |initial| <= |d| <= DistractorCount && d[..|initial|] == initial
    ensures forall x :: x in d ==> x.English != correct.English
    ensures forall i :: |initial| <= i < |d| ==> d[i] in pool && Admissible(d[i], correct.English, d[..i])
    ensures |d| == DistractorCount || Eligible(pool, correct.English, d) == []
    ensures |Identities(pool)| >= MinPool ==> |d| == DistractorCount
  {
    d := initial;
    var k := 0;
    while |d| < DistractorCount && Eligible(pool, correct.English, d) != []
      invariant |initial| <= |d| <= DistractorCount && d[..|initial|] == initial
      invariant forall x :: x in d ==> x.English != correct.English
      invariant forall i :: |initial| <= i < |d| ==> d[i] in pool && Admissible(d[i], correct.English, d[..i])
      decreases DistractorCount - |d|
    {
      var randomEntry := Draw(Eligible(pool, correct.English, d), PickAt(picks, k));
      assert d == (d + [randomEntry])[..|d|];
      d := d + [randomEntry];
      k := k + 1;
    }
    if |Identities(pool)| >= MinPool && |d| < DistractorCount {
      EligibleNonEmpty(pool, correct.English, d);
    }
  }

  /** The guard of the top-up loop as the source writes it. */
  predicate GuardAsWritten(pool: seq<Entry>, d: seq<Entry>)
  {
    |d| < DistractorCount && |pool| > |d| + 1
  }

  /** One round of the top-up loop as the source writes it: a draw from the whole pool, kept when admissible. */
  function StepAsWritten(pool: seq<Entry>, english: string, d: seq<Entry>, pick: nat): seq<Entry>
    requires pool != []
  {
    var randomEntry := Draw(pool, pick);
    if Admissible(randomEntry, english, d) then d + [randomEntry] else d
  }

  /**
   * As written, the loop runs forever once every pool entry is inadmissible
   * while fewer than three distractors are chosen and the pool has at least
   * four entries: the guard stays true and no round changes anything.
   */
  lemma TopUpSpinsAsWritten(pool: seq<Entry>, english: string, d: seq<Entry>)
    requires |pool| >= MinPool && |d| < DistractorCount && Eligible(pool, english, d) == []
    ensures GuardAsWritten(pool, d)
    ensures forall pick :: StepAsWritten(pool, english, d, pick) == d
  {
    forall pick ensures StepAsWritten(pool, english, d, pick) == d {
      var randomEntry := Draw(pool, pick);
      assert randomEntry !in Eligible(pool, english, d);
    }
  }

  /** Nothing is eligible when no pool entry is admissible. */
  lemma NoneEligible(pool: seq<Entry>, english: string, d: seq<Entry>)
    requires forall e :: e in pool ==> !Admissible(e, english, d)
    ensures Eligible(pool, english, d) == []
  {
  }

  const Cat := Entry("cat", "pilli", "mazor", "word")
  const Dog := Entry("dog", "kukka", "sunno", "word")

  /** The stuck pool below is a word list, so the quiz can choose it. */
  lemma StuckPoolIsWords()
    ensures Words([Cat, Dog, Cat, Dog]) == [Cat, Dog, Cat, Dog]
  {
    OfTypeAll([Cat, Dog, Cat, Dog], "word");
  }

  /**
   * A concrete stuck state: a word list holding two entries for "cat" and
   * two for "dog" (the same two words imported twice), the question "cat",
   * and "dog" already chosen.
   */
  lemma TopUpSpinsExample()
    ensures GuardAsWritten([Cat, Dog, Cat, Dog], [Dog])
    ensures forall pick :: StepAsWritten([Cat, Dog, Cat, Dog], "cat", [Dog], pick) == [Dog]
  {
    var pool := [Cat, Dog, Cat, Dog];
    forall e | e in pool ensures !Admissible(e, "cat", [Dog]) {
      assert e == Cat || e == Dog;
    }
    NoneEligible(pool, "cat", [Dog]);
    TopUpSpinsAsWritten(pool, "cat", [Dog]);
  }

  /** `[correctEntry[lang], ...distractors.map(d => d[lang])]`. */
  function AnswerOptions(correct: Entry, d: seq<Entry>, lang: Language): (r: seq<string>)
    ensures |r| == |d| + 1 && r[0] == Translation(correct, lang)
    ensures forall i :: 0 <= i < |d| ==> r[i + 1] == Translation(d[i], lang)
  {
    [Translation(correct, lang)] + seq(|d|, i requires 0 <= i < |d| => Translation(d[i], lang))
  }

  /** The state of one answer: the selection, and the running score and question count. */
  datatype Tally = Tally(selected: Option<string>, score: nat, asked: nat, isCorrect: Option<bool>)

  /** `handleOptionClick` as written: the guard `if (selectedAnswer)` treats an empty selection as none. */
  function ClickAsWritten(t: Tally, option: string, answer: string): Tally
  {
    if t.selected.Some? && t.selected.value != "" then t
    else Tally(Some(option), t.score + (if option == answer then 1 else 0), t.asked + 1, Some(option == answer))
  }

  /** `handleOptionClick` with the guard the comment intends: only the first click of a question counts. */
  function Click(t: Tally, option: string, answer: string): (t': Tally)
    ensures t.selected.Some? ==> t' == t
    ensures t.selected.None? ==> t'.selected == Some(option) && t'.asked == t.asked + 1
    ensures t.selected.None? ==> (t'.score == t.score + 1 <==> option == answer)
    ensures t.selected.None? ==> (t'.score == t.score <==> option != answer)
    ensures t.selected.None? ==> t'.isCorrect == Some(option == answer)
  {
    if t.selected.Some? then t
    else Tally(Some(option), t.score + (if option == answer then 1 else 0), t.asked + 1, Some(option == answer))
  }

  /** Clicks keep the score at or below the number of questions answered. */
  lemma ClickKeepsScoreBound(t: Tally, option: string, answer: string)
    requires t.score <= t.asked
    ensures Click(t, option, answer).score <= Click(t, option, answer).asked
  {
  }

  /** Once answered, a question ignores every further click. */
  lemma {:induction false} ClicksAfterAnswer(t: Tally, options: seq<string>, answer: string)
    requires t.selected.Some?
    ensures ClickAll(t, options, answer) == t
    decreases |options|
  {
    if options != [] {
      ClicksAfterAnswer(Click(t, options[0], answer), options[1..], answer);
    }
  }

  /** The outcome of a series of clicks on one question. */
  function ClickAll(t: Tally, options: seq<string>, answer: string): Tally
    decreases |options|
  {
    if options == [] then t else ClickAll(Click(t, options[0], answer), options[1..], answer)
  }

  /**
   * As written, choosing an option whose text is empty (an entry whose
   * translation was left blank) leaves the question open, so a second click
   * is counted as another answer.
   */
  lemma SecondClickAsWritten()
    ensures var t := ClickAsWritten(ClickAsWritten(Tally(None, 0, 0, None), "", "mazor"), "mazor", "mazor");
      t.asked == 2 && t.score == 1
    ensures var t := Click(Click(Tally(None, 0, 0, None), "", "mazor"), "mazor", "mazor");
      t.asked == 1 && t.score == 0
  {
  }

  class QuizGame {
    var currentQuestion: Option<Entry>
    var options: seq<string>
    var tally: Tally
    /** The distractors behind the current options. */
    ghost var distractors: seq<Entry>

    /** The score never exceeds the number of questions answered. */
    predicate Valid()
      reads this
    {
      tally.score <= tally.asked
    }

    constructor ()
      ensures Valid()
      ensures currentQuestion == None && options == [] && tally == Tally(None, 0, 0, None)
    {
      currentQuestion := None;
      options := [];
      tally := Tally(None, 0, 0, None);
      distractors := [];
    }

    /**
     * `generateQuestion`: clears the selection; with fewer than four entries
     * in the chosen pool, clears the question; otherwise draws the answer,
     * picks up to three distractors and shuffles the options.
     */
    method Generate(data: seq<Entry>, lang: Language, coin: bool, correctPick: nat, ranked: seq<Entry>,
                    similarPicks: seq<nat>, topUpPicks: seq<nat>, optionPicks: seq<nat>)
      requires Valid()
      requires forall e :: e in ranked ==> e in Pool(data, coin)
      modifies this
      ensures Valid()
      ensures tally == Tally(None, old(tally).score, old(tally).asked, None)
      ensures |Pool(data, coin)| < MinPool ==> currentQuestion == None && options == old(options)
      ensures |Pool(data, coin)| >= MinPool ==>
        var pool := Pool(data, coin);
        currentQuestion == Some(Draw(pool, correctPick)) &&
        |distractors| <= DistractorCount &&
        (forall e :: e in distractors ==> e in pool && e.English != currentQuestion.value.English) &&
        (|Identities(pool)| >= MinPool ==> |distractors| == DistractorCount) &&
        multiset(options) == multiset(AnswerOptions(currentQuestion.value, distractors, lang)) &&
        |options| <= DistractorCount + 1
    {
      tally := Tally(None, tally.score, tally.asked, None);
      var sourceData := Pool(data, coin);
      if |sourceData| < MinPool {
        currentQuestion := None;
        return;
      }
      var correctEntry := Draw(sourceData, correctPick);
      var initial := SimilarDistractors(ranked, correctEntry, similarPicks);
      var d := TopUp(sourceData, correctEntry, initial, topUpPicks);
      assert forall i :: 0 <= i < |d| ==> d[i] in sourceData by {
        forall i | 0 <= i < |d| ensures d[i] in sourceData {
          if i < |initial| {
            assert d[i] == initial[i] && initial[i] in initial;
          }
        }
      }
      currentQuestion := Some(correctEntry);
      distractors := d;
      options := Shuffle(AnswerOptions(correctEntry, d, lang), optionPicks);
    }

    /** `handleOptionClick` for the current question in language `lang`. */
    method OptionClick(option: string, lang: Language)
      requires Valid() && currentQuestion.Some?
      modifies this
      ensures Valid()
      ensures currentQuestion == old(currentQuestion) && options == old(options)
      ensures tally == Click(old(tally), option, Translation(old(currentQuestion).value, lang))
    {
      ClickKeepsScoreBound(tally, option, Translation(currentQuestion.value, lang));
      tally := Click(tally, option, Translation(currentQuestion.value, lang));
    }
  }
}
