/**
 * The bubble drill (BubbleGame.js): up to five target words are collected in
 * order by clicking the falling bubble that carries the current target; a
 * wrong bubble records a miss against the current target in the mistake
 * ledger. Each animation frame moves the active bubbles down and wraps those
 * that leave the screen back to the top.
 */
module Bubbles {
  import opened Vocabulary
  import opened Ledger
  import opened Shuffles

  /** The number of target words in one round. */
  const RoundSize: nat := 5
  /** At most this many distractor words join the targets as bubbles. */
  const DistractorLimit: nat := 5

  datatype GameState = Playing | Won

  datatype Status = Active | Burst | Disperse

  /** A word of the sequence bar, with whether it has been collected. */
  datatype Target = Target(word: Entry, collected: bool)

  /**
   * A bubble: `id` is the word's position in the list the bubbles were made
   * from (the time stamp prefix of the source's id is left out); `x` and `y`
   * are percentages of the game area.
   */
  datatype Bubble = Bubble(id: nat, word: Entry, x: real, y: real, speed: real, status: Status)

  /** The three `Math.random()` values drawn for one new bubble. */
  datatype Spawn = Spawn(rx: real, ry: real, rs: real)

  /** A value `Math.random()` can return. */
  predicate Unit(r: real)
  {
    0.0 <= r < 1.0
  }

  predicate UnitSpawns(draws: seq<Spawn>)
  {
    forall i :: 0 <= i < |draws| ==> Unit(draws[i].rx) && Unit(draws[i].ry) && Unit(draws[i].rs)
  }

  /** Where a bubble can be: across the area, between its spawn height and the bottom edge, at a spawn speed. */
  predicate OnScreen(b: Bubble)
  {
    0.0 <= b.x < 90.0 && -60.0 < b.y <= 110.0 && 0.1 <= b.speed < 0.25
  }

  /** `dictionary.filter(d => !selectedWords.some(sw => sw.English === d.English))`. */
  function Foreign(dictionary: seq<Entry>, selected: seq<Entry>): (r: seq<Entry>)
    ensures forall e :: e in r <==> e in dictionary && e.English !in Identities(selected)
  {
    if dictionary == [] then []
    else
      assert dictionary == [dictionary[0]] + dictionary[1..];
      (if dictionary[0].English in Identities(selected) then [] else [dictionary[0]]) + Foreign(dictionary[1..], selected)
  }

  /** The filter works entry by entry: it distributes over concatenation; with `ForeignSingle`, the kept words keep their order. */
  lemma {:induction false} ForeignAppend(a: seq<Entry>, b: seq<Entry>, selected: seq<Entry>)
    ensures Foreign(a + b, selected) == Foreign(a, selected) + Foreign(b, selected)
  {
    if a == [] {
      assert a + b == b;
    } else {
      var t := a[1..];
      assert (a + b)[0] == a[0] && (a + b)[1..] == t + b;
      ForeignAppend(t, b, selected);
    }
  }

  /** A single word is kept exactly when no target shares its English text. */
  lemma ForeignSingle(e: Entry, selected: seq<Entry>)
    ensures Foreign([e], selected) == if e.English in Identities(selected) then [] else [e]
  {
    assert [e][1..] == [];
  }

  /** The distractors: the first five dictionary words that share no English text with a target. */
  function Distractors(dictionary: seq<Entry>, selected: seq<Entry>): (r: seq<Entry>)
    ensures |r| == if |Foreign(dictionary, selected)| < DistractorLimit then |Foreign(dictionary, selected)| else DistractorLimit
    ensures r == Foreign(dictionary, selected)[..|r|]
    ensures forall e :: e in r ==> e in dictionary && e.English !in Identities(selected)
  {
    var f := Foreign(dictionary, selected);
    assert forall e :: e in Take(f, DistractorLimit) ==> e in f;
    Take(f, DistractorLimit)
  }

  /** `allBubbleWords.map(...)`: one fresh bubble per word, before the shuffle. */
  function Spawned(words: seq<Entry>, draws: seq<Spawn>): (r: seq<Bubble>)
    requires |draws| >= |words| && UnitSpawns(draws)
    ensures |r| == |words|
    ensures forall i :: 0 <= i < |r| ==>
      r[i].id == i && r[i].word == words[i] && r[i].status == Active && OnScreen(r[i]) && r[i].y <= -10.0
  {
    seq(|words|, i requires 0 <= i < |words| =>
      Bubble(i, words[i], draws[i].rx * 90.0, -10.0 - draws[i].ry * 50.0, 0.1 + draws[i].rs * 0.15, Active))
  }

  /** The bubbles of one round are all on screen and active. */
  lemma SpawnedOnScreen(words: seq<Entry>, draws: seq<Spawn>, arranged: seq<Bubble>)
    requires |draws| >= |words| && UnitSpawns(draws)
    requires multiset(arranged) == multiset(Spawned(words, draws))
    ensures |arranged| == |words|
    ensures forall b :: b in arranged ==> OnScreen(b) && b.status == Active && b.word in words
  {
    var s := Spawned(words, draws);
    assert |multiset(arranged)| == |arranged| && |multiset(s)| == |s|;
    forall b | b in arranged ensures OnScreen(b) && b.status == Active && b.word in words {
      assert b in multiset(s);
      var i :| 0 <= i < |s| && s[i] == b;
    }
  }

  /** `prev.map(b => b.id === id ? { ...b, status } : b)`. */
  function WithStatus(bubbles: seq<Bubble>, id: nat, status: Status): (r: seq<Bubble>)
    ensures |r| == |bubbles|
    ensures forall i :: 0 <= i < |r| ==>
      r[i] == if bubbles[i].id == id then bubbles[i].(status := status) else bubbles[i]
  {
    seq(|bubbles|, i requires 0 <= i < |bubbles| =>
      if bubbles[i].id == id then bubbles[i].(status := status) else bubbles[i])
  }

  /** Changing a status moves no bubble. */
  lemma WithStatusOnScreen(bubbles: seq<Bubble>, id: nat, status: Status)
    requires forall b :: b in bubbles ==> OnScreen(b)
    ensures forall b :: b in WithStatus(bubbles, id, status) ==> OnScreen(b)
  {
    var r := WithStatus(bubbles, id, status);
    forall b | b in r ensures OnScreen(b) {
      var i :| 0 <= i < |r| && r[i] == b;
      assert bubbles[i] in bubbles;
    }
  }

  /** One bubble in one frame: an active one falls by its speed and wraps to the top, at `rx * 90`, below 110. */
  function Fall(b: Bubble, rx: real): Bubble
  {
    if b.status != Active then b
    else if b.y + b.speed > 110.0 then b.(x := rx * 90.0, y := -10.0)
    else b.(y := b.y + b.speed)
  }

  /** What a frame does to one bubble: inactive ones stay; active ones keep everything but their place, and stay on screen. */
  lemma FallFacts(b: Bubble, rx: real)
    requires OnScreen(b) && Unit(rx)
    ensures b.status != Active ==> Fall(b, rx) == b
    ensures b.status == Active ==>
      Fall(b, rx) == b.(x := Fall(b, rx).x, y := Fall(b, rx).y) &&
      (Fall(b, rx).y == b.y + b.speed || (b.y + b.speed > 110.0 && Fall(b, rx).y == -10.0))
    ensures OnScreen(Fall(b, rx)) && Fall(b, rx).status == b.status
  {
  }

  /** The `map` of `animate`: every bubble falls, with one `Math.random()` value per bubble for a wrap. */
  function Fallen(bubbles: seq<Bubble>, rxs: seq<real>): (r: seq<Bubble>)
    requires |rxs| == |bubbles|
    ensures |r| == |bubbles|
    ensures forall i :: 0 <= i < |r| ==> r[i] == Fall(bubbles[i], rxs[i])
  {
    seq(|bubbles|, i requires 0 <= i < |bubbles| => Fall(bubbles[i], rxs[i]))
  }

  /** The `filter` of `animate`: inactive bubbles are dropped once above -50. */
  function Kept(bubbles: seq<Bubble>): (r: seq<Bubble>)
    ensures forall b :: b in r <==> b in bubbles && (b.status == Active || b.y > -50.0)
  {
    if bubbles == [] then []
    else
      assert bubbles == [bubbles[0]] + bubbles[1..];
      var b := bubbles[0];
      (if b.status == Active || (b.status != Active && b.y > -50.0) then [b] else []) + Kept(bubbles[1..])
  }

  /** The active bubbles, in order. */
  function Actives(bubbles: seq<Bubble>): seq<Bubble>
  {
    if bubbles == [] then []
    else (if bubbles[0].status == Active then [bubbles[0]] else []) + Actives(bubbles[1..])
  }

  /** The filter never removes an active bubble: the active bubbles come out exactly as they went in. */
  lemma {:induction false} KeptActives(bubbles: seq<Bubble>)
    ensures Actives(Kept(bubbles)) == Actives(bubbles)
  {
    if bubbles != [] {
      KeptActives(bubbles[1..]);
      var b := bubbles[0];
      var head := if b.status == Active || b.y > -50.0 then [b] else [];
      assert Kept(bubbles) == head + Kept(bubbles[1..]);
      ActivesAppend(head, Kept(bubbles[1..]));
    }
  }

  lemma {:induction false} ActivesAppend(a: seq<Bubble>, b: seq<Bubble>)
    ensures Actives(a + b) == Actives(a) + Actives(b)
  {
    if a != [] {
      assert (a + b)[1..] == a[1..] + b;
      ActivesAppend(a[1..], b);
    } else {
      assert a + b == b;
    }
  }

  /** One frame of `animate`. */
  function Frame(bubbles: seq<Bubble>, rxs: seq<real>): seq<Bubble>
    requires |rxs| == |bubbles|
  {
    Kept(Fallen(bubbles, rxs))
  }

  /** A frame keeps every bubble on screen and drops no active one. */
  lemma FrameFacts(bubbles: seq<Bubble>, rxs: seq<real>)
    requires |rxs| == |bubbles| && forall i :: 0 <= i < |rxs| ==> Unit(rxs[i])
    requires forall b :: b in bubbles ==> OnScreen(b)
    ensures forall b :: b in Frame(bubbles, rxs) ==> OnScreen(b)
    ensures Actives(Frame(bubbles, rxs)) == Actives(Fallen(bubbles, rxs))
    ensures forall i :: 0 <= i < |bubbles| && bubbles[i].status == Active ==> Fall(bubbles[i], rxs[i]) in Frame(bubbles, rxs)
  {
    var f := Fallen(bubbles, rxs);
    forall b | b in f ensures OnScreen(b) {
      var i :| 0 <= i < |f| && f[i] == b;
      assert bubbles[i] in bubbles;
      FallFacts(bubbles[i], rxs[i]);
    }
    forall i | 0 <= i < |bubbles| && bubbles[i].status == Active ensures Fall(bubbles[i], rxs[i]) in Frame(bubbles, rxs) {
      assert bubbles[i] in bubbles;
      FallFacts(bubbles[i], rxs[i]);
      assert f[i] in f;
    }
    KeptActives(f);
  }

  /**
   * The state the game keeps: the target index is on the bar, exactly the
   * targets before it (and it too, once won) are collected, bubbles exist
   * only with targets, and every bubble is on screen.
   */
  ghost predicate Consistent(gameWords: seq<Target>, bubbles: seq<Bubble>, index: nat, state: GameState)
  {
    |gameWords| <= RoundSize &&
    (gameWords == [] ==> bubbles == [] && index == 0 && state == Playing) &&
    (gameWords != [] ==> index < |gameWords|) &&
    (state == Won ==> index == |gameWords| - 1) &&
    (forall i :: 0 <= i < |gameWords| ==> (gameWords[i].collected <==> i < index || (state == Won && i == index))) &&
    (forall b :: b in bubbles ==> OnScreen(b))
  }

  /** `selectedWords.map(word => ({ ...word, collected: false }))`. */
  function Uncollected(words: seq<Entry>): (r: seq<Target>)
    ensures |r| == |words|
    ensures forall i :: 0 <= i < |r| ==> r[i] == Target(words[i], false)
  {
    seq(|words|, i requires 0 <= i < |words| => Target(words[i], false))
  }

  /** The bar after a correct click: the current target, and only it, becomes collected. */
  function Collect(gameWords: seq<Target>, index: nat): (r: seq<Target>)
    requires index < |gameWords|
    ensures |r| == |gameWords| && r[index] == Target(gameWords[index].word, true)
    ensures forall i :: 0 <= i < |r| && i != index ==> r[i] == gameWords[i]
  {
    gameWords[index := gameWords[index].(collected := true)]
  }

  class BubbleGame {
    var gameWords: seq<Target>
    var bubbles: seq<Bubble>
    var currentTargetIndex: nat
    var gameState: GameState
    /** The persisted mistake ledger. */
    var mistakes: Ledger

    ghost predicate Valid()
      reads this
    {
      Consistent(gameWords, bubbles, currentTargetIndex, gameState)
    }

    constructor (persisted: Ledger)
      ensures Valid()
      ensures gameWords == [] && bubbles == [] && currentTargetIndex == 0 && gameState == Playing
      ensures mistakes == persisted
    {
      gameWords := [];
      bubbles := [];
      currentTargetIndex := 0;
      gameState := Playing;
      mistakes := persisted;
    }

    /**
     * `setupGame`: the first five words of a shuffle of the dictionary's
     * words (`shuffled`) become the uncollected targets, up to five other
     * words join them as distractors, and one active bubble per word starts
     * above the area in the shuffled order `arranged`.
     */
    method Setup(data: seq<Entry>, shuffled: seq<Entry>, draws: seq<Spawn>, arranged: seq<Bubble>)
      requires multiset(shuffled) == multiset(Words(data))
      requires |draws| >= RoundSize + DistractorLimit && UnitSpawns(draws)
      requires multiset(arranged) ==
        multiset(Spawned(Take(shuffled, RoundSize) + Distractors(Words(data), Take(shuffled, RoundSize)), draws))
      modifies this
      ensures Valid()
      ensures gameState == Playing && currentTargetIndex == 0
      ensures gameWords == Uncollected(Take(shuffled, RoundSize))
      ensures |gameWords| == if |Words(data)| < RoundSize then |Words(data)| else RoundSize
      ensures forall w :: w in Take(shuffled, RoundSize) ==> w in data && w.Type == "word"
      ensures bubbles == arranged
      ensures |bubbles| == |gameWords| + |Distractors(Words(data), Take(shuffled, RoundSize))|
      ensures forall b :: b in bubbles ==> b.status == Active
      ensures mistakes == old(mistakes)
    {
      var selectedWords := Take(shuffled, RoundSize);
      RoundFromDictionary(data, shuffled, RoundSize);
      var distractorWords := Distractors(Words(data), selectedWords);
      SpawnedOnScreen(selectedWords + distractorWords, draws, arranged);
      gameState := Playing;
      currentTargetIndex := 0;
      gameWords := Uncollected(selectedWords);
      bubbles := arranged;
    }

    /**
     * `handleBubbleClick`: while playing, the bubble carrying the current
     * target bursts and the target is collected, winning on the last one;
     * any other bubble disperses and a miss is recorded against the current
     * target. Once won, clicks change nothing.
     */
    method Click(clicked: Bubble)
      requires Valid() && clicked in bubbles
      modifies this
      ensures Valid()
      ensures old(gameState) == Won ==>
        gameWords == old(gameWords) && bubbles == old(bubbles) && currentTargetIndex == old(currentTargetIndex) &&
        gameState == Won && mistakes == old(mistakes)
      ensures old(gameState) == Playing ==> old(currentTargetIndex) < |old(gameWords)|
      ensures old(gameState) == Playing && clicked.word.English == old(gameWords)[old(currentTargetIndex)].word.English ==>
        bubbles == WithStatus(old(bubbles), clicked.id, Burst) &&
        gameWords == Collect(old(gameWords), old(currentTargetIndex)) &&
        mistakes == old(mistakes) &&
        (if old(currentTargetIndex) == |old(gameWords)| - 1
         then gameState == Won && currentTargetIndex == old(currentTargetIndex)
         else gameState == Playing && currentTargetIndex == old(currentTargetIndex) + 1)
      ensures old(gameState) == Playing && clicked.word.English != old(gameWords)[old(currentTargetIndex)].word.English ==>
        bubbles == WithStatus(old(bubbles), clicked.id, Disperse) &&
        mistakes == Bump(old(mistakes), old(gameWords)[old(currentTargetIndex)].word.English) &&
        gameWords == old(gameWords) && currentTargetIndex == old(currentTargetIndex) && gameState == Playing
    {
      if gameState != Playing {
        return;
      }
      var currentTargetWord := gameWords[currentTargetIndex].word;
      if clicked.word.English == currentTargetWord.English {
        WithStatusOnScreen(bubbles, clicked.id, Burst);
        bubbles := WithStatus(bubbles, clicked.id, Burst);
        gameWords := Collect(gameWords, currentTargetIndex);
        if currentTargetIndex == |gameWords| - 1 {
          gameState := Won;
        } else {
          currentTargetIndex := currentTargetIndex + 1;
        }
      } else {
        WithStatusOnScreen(bubbles, clicked.id, Disperse);
        bubbles := WithStatus(bubbles, clicked.id, Disperse);
        mistakes := Bump(mistakes, currentTargetWord.English);
      }
    }

    /** One animation frame, with a `Math.random()` value per bubble for the position of a wrapped one. */
    method Animate(rxs: seq<real>)
      requires Valid()
      requires |rxs| == |bubbles| && forall i :: 0 <= i < |rxs| ==> Unit(rxs[i])
      modifies this
      ensures Valid()
      ensures bubbles == Frame(old(bubbles), rxs)
      ensures gameWords == old(gameWords) && currentTargetIndex == old(currentTargetIndex)
      ensures gameState == old(gameState) && mistakes == old(mistakes)
    {
      FrameFacts(bubbles, rxs);
      bubbles := Frame(bubbles, rxs);
    }
  }
}
