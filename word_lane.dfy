/**
 * The word lane drill (WordLaneGame.js): tiles carrying translations slide
 * right to left along four lanes; dragging a tile onto the English word of
 * the sequence bar that it translates scores, adds time, and replaces the
 * word; a wrong drop costs a life and records a miss. A two-minute clock,
 * five lives, and a pass counter on the first unmatched word end the game.
 */
module WordLane {
  import opened Wrappers
  import opened Vocabulary
  import opened Ledger
  import opened Shuffles

  /** `GAME_DURATION`, in seconds. */
  const GameDuration: int := 120
  /** Seconds added by a correct drop. */
  const TimeBonus: int := 3
  /** Points for a correct drop. */
  const DropPoints: nat := 10
  const StartLives: int := 5
  /** The number of words in the sequence bar. */
  const RoundSize: nat := 5
  /** A word whose tile leaves the screen this many times is skipped. */
  const PassLimit: nat := 5
  const LaneCount: nat := 4

  datatype GameState = Ready | Playing | GameOver

  /** A word's `matched` field: `false`, `true` or `'skipped'`. */
  datatype Mark = Unmatched | Matched | Skipped

  /** A word of the sequence bar. */
  datatype Slot = Slot(word: Entry, matched: Mark, passes: nat)

  datatype TileStatus = Sliding | Correct | Incorrect

  /**
   * A tile: `id` is its position in the shuffled round (the time stamp prefix
   * of the source's id is left out); `x` is a percentage of the lane's width.
   */
  datatype Tile = Tile(id: nat, word: Entry, lane: nat, x: real, speed: real, status: TileStatus)

  /** The two `Math.random()` values drawn for one new tile. */
  datatype TileSpawn = TileSpawn(rx: real, rs: real)

  /** The callback a drop leaves behind, to run 500 ms later. */
  datatype Timeout = Replace(english: string, tileId: nat) | Reactivate(tileId: nat)

  /** A value `Math.random()` can return. */
  predicate Unit(r: real)
  {
    0.0 <= r < 1.0
  }

  predicate UnitSpawns(draws: seq<TileSpawn>)
  {
    forall i :: 0 <= i < |draws| ==> Unit(draws[i].rx) && Unit(draws[i].rs)
  }

  /** `110 + Math.random() * 50`: a start position off the right edge. */
  function Entrance(rx: real): (x: real)
    requires Unit(rx)
    ensures 110.0 <= x < 160.0
  {
    110.0 + rx * 50.0
  }

  /** Where a tile can be: on a lane, between the wrap point and the far entrance, at a spawn speed. */
  predicate Placed(t: Tile)
  {
    t.lane < LaneCount && -20.0 <= t.x < 160.0 && 0.15 <= t.speed < 0.25
  }

  /** `gameSequence.map(word => ({ ...word, matched: false, passes: 0 }))`. */
  function FreshSlots(words: seq<Entry>): (r: seq<Slot>)
    ensures |r| == |words|
    ensures forall i :: 0 <= i < |r| ==> r[i] == Slot(words[i], Unmatched, 0)
    ensures forall i :: 0 <= i < |r| ==> r[i].word == words[i] && r[i].matched == Unmatched && r[i].passes == 0
  {
    seq(|words|, i requires 0 <= i < |words| => Slot(words[i], Unmatched, 0))
  }

  /** `initialTiles`: one sliding tile per word, on lane `index % 4`, entering from the right. */
  function FreshTiles(words: seq<Entry>, draws: seq<TileSpawn>): (r: seq<Tile>)
    requires |draws| >= |words| && UnitSpawns(draws)
    ensures |r| == |words|
    ensures forall i :: 0 <= i < |r| ==>
      r[i].id == i && r[i].word == words[i] && r[i].lane == i % LaneCount && r[i].status == Sliding &&
      Placed(r[i]) && r[i].x >= 110.0
  {
    seq(|words|, i requires 0 <= i < |words| =>
      Tile(i, words[i], i % LaneCount, Entrance(draws[i].rx), 0.15 + draws[i].rs * 0.1, Sliding))
  }

  /** `prev.map(w => w.English === english ? { ...w, matched: true } : w)`. */
  function MarkMatched(slots: seq<Slot>, english: string): (r: seq<Slot>)
    ensures |r| == |slots|
    ensures forall i :: 0 <= i < |r| ==>
      r[i] == if slots[i].word.English == english then slots[i].(matched := Matched) else slots[i]
  {
    seq(|slots|, i requires 0 <= i < |slots| =>
      if slots[i].word.English == english then slots[i].(matched := Matched) else slots[i])
  }

  /** The skip: every slot of the word is marked `'skipped'`. */
  function MarkSkipped(slots: seq<Slot>, english: string): (r: seq<Slot>)
    ensures |r| == |slots|
    ensures forall i :: 0 <= i < |r| ==>
      r[i] == if slots[i].word.English == english then slots[i].(matched := Skipped) else slots[i]
  {
    seq(|slots|, i requires 0 <= i < |slots| =>
      if slots[i].word.English == english then slots[i].(matched := Skipped) else slots[i])
  }

  /** The pass count of every slot of the word becomes `passes`. */
  function SetPasses(slots: seq<Slot>, english: string, passes: nat): (r: seq<Slot>)
    ensures |r| == |slots|
    ensures forall i :: 0 <= i < |r| ==>
      r[i] == if slots[i].word.English == english then slots[i].(passes := passes) else slots[i]
  {
    seq(|slots|, i requires 0 <= i < |slots| =>
      if slots[i].word.English == english then slots[i].(passes := passes) else slots[i])
  }

  /**
   * Marking and counting passes never change which word a slot holds: a
   * match or a skip changes only the mark, of exactly the slots of the word
   * (and a mark once set stays), and a pass count changes nothing else.
   */
  lemma SlotUpdatesKeepWords(slots: seq<Slot>, english: string, passes: nat)
    ensures forall i :: 0 <= i < |slots| ==>
      MarkMatched(slots, english)[i].word == slots[i].word &&
      MarkMatched(slots, english)[i].passes == slots[i].passes &&
      (MarkMatched(slots, english)[i].matched == Matched <==> slots[i].word.English == english || slots[i].matched == Matched)
    ensures forall i :: 0 <= i < |slots| ==>
      MarkSkipped(slots, english)[i].word == slots[i].word &&
      MarkSkipped(slots, english)[i].passes == slots[i].passes &&
      (MarkSkipped(slots, english)[i].matched == Skipped <==> slots[i].word.English == english || slots[i].matched == Skipped)
    ensures forall i :: 0 <= i < |slots| ==>
      SetPasses(slots, english, passes)[i].word == slots[i].word &&
      SetPasses(slots, english, passes)[i].matched == slots[i].matched
  {
  }

  /** The replacement: every slot of the old word becomes a fresh slot of the new one. */
  function ReplaceSlots(slots: seq<Slot>, english: string, w: Entry): (r: seq<Slot>)
    ensures |r| == |slots|
    ensures forall i :: 0 <= i < |r| ==>
      r[i] == if slots[i].word.English == english then Slot(w, Unmatched, 0) else slots[i]
    ensures w.English != english ==> forall i :: 0 <= i < |r| ==> r[i].word.English != english
  {
    seq(|slots|, i requires 0 <= i < |slots| =>
      if slots[i].word.English == english then Slot(w, Unmatched, 0) else slots[i])
  }

  /** `prev.map(t => t.id === id ? { ...t, status } : t)`. */
  function WithStatus(tiles: seq<Tile>, id: nat, status: TileStatus): (r: seq<Tile>)
    ensures |r| == |tiles|
    ensures forall i :: 0 <= i < |r| ==>
      r[i] == if tiles[i].id == id then tiles[i].(status := status) else tiles[i]
    ensures forall i :: 0 <= i < |r| ==> r[i].id == tiles[i].id && r[i].word == tiles[i].word && r[i].lane == tiles[i].lane && r[i].x == tiles[i].x
  {
    seq(|tiles|, i requires 0 <= i < |tiles| =>
      if tiles[i].id == id then tiles[i].(status := status) else tiles[i])
  }

  /** The tile with the id takes the new word, slides again and re-enters at `x`. */
  function ReplaceTile(tiles: seq<Tile>, id: nat, w: Entry, x: real): (r: seq<Tile>)
    ensures |r| == |tiles|
    ensures forall i :: 0 <= i < |r| ==>
      r[i] == if tiles[i].id == id then tiles[i].(word := w, status := Sliding, x := x) else tiles[i]
    ensures forall i :: 0 <= i < |r| ==> r[i].id == tiles[i].id && r[i].lane == tiles[i].lane && r[i].speed == tiles[i].speed
  {
    seq(|tiles|, i requires 0 <= i < |tiles| =>
      if tiles[i].id == id then tiles[i].(word := w, status := Sliding, x := x) else tiles[i])
  }

  /** The English texts shown in the sequence bar. */
  function SlotIdentities(slots: seq<Slot>): set<string>
  {
    set s | s in slots :: s.word.English
  }

  /** The English texts of the words on the tiles. */
  function TileIdentities(tiles: seq<Tile>): set<string>
  {
    set t | t in tiles :: t.word.English
  }

  /** `availableWords`: the dictionary words neither in the bar nor on a tile. */
  function Available(dictionary: seq<Entry>, slots: seq<Slot>, tiles: seq<Tile>): (r: seq<Entry>)
    ensures forall w :: w in r <==>
      w in dictionary && w.English !in SlotIdentities(slots) && w.English !in TileIdentities(tiles)
  {
    if dictionary == [] then []
    else
      assert dictionary == [dictionary[0]] + dictionary[1..];
      var w := dictionary[0];
      (if w.English !in SlotIdentities(slots) && w.English !in TileIdentities(tiles) then [w] else []) +
      Available(dictionary[1..], slots, tiles)
  }

  /**
   * `newWord`: a random available word when there is one, otherwise a
   * random dictionary word (`pick` stands for the shuffle).
   */
  function NewWord(dictionary: seq<Entry>, slots: seq<Slot>, tiles: seq<Tile>, pick: nat): (w: Entry)
    requires dictionary != []
    ensures w in dictionary
    ensures Available(dictionary, slots, tiles) != [] ==>
      w.English !in SlotIdentities(slots) && w.English !in TileIdentities(tiles)
  {
    var available := Available(dictionary, slots, tiles);
    if available != [] then Draw(available, pick) else Draw(dictionary, pick)
  }

  /** `gameWords.find(w => !w.matched)`: the first word neither matched nor skipped. */
  function CurrentTarget(slots: seq<Slot>): (r: Option<Slot>)
    ensures r.None? <==> forall i :: 0 <= i < |slots| ==> slots[i].matched != Unmatched
    ensures r.Some? ==> exists i :: 0 <= i < |slots| && slots[i] == r.value && r.value.matched == Unmatched &&
                                  (forall j :: 0 <= j < i ==> slots[j].matched != Unmatched)
  {
    if slots == [] then None
    else if slots[0].matched == Unmatched then Some(slots[0])
    else
      var rest := CurrentTarget(slots[1..]);
      assert forall j :: 1 <= j < |slots| ==> slots[j] == slots[1..][j - 1];
      rest
  }

  /** A correct tile and the dragged tile hold still; the others slide. */
  predicate Paused(t: Tile, dragged: Option<nat>)
  {
    t.status == Correct || (dragged.Some? && t.id == dragged.value)
  }

  /** The tile slides past the left edge in this frame. */
  predicate Wraps(t: Tile, dragged: Option<nat>)
  {
    !Paused(t, dragged) && t.x - t.speed < -20.0
  }

  /** One tile in one frame: slides left by its speed, re-entering from the right past -20. */
  function Slide(t: Tile, dragged: Option<nat>, rx: real): Tile
    requires Unit(rx)
  {
    if Paused(t, dragged) then t
    else if t.x - t.speed < -20.0 then t.(x := Entrance(rx))
    else t.(x := t.x - t.speed)
  }

  /** A frame moves only the position of a tile, keeps it placed, and moves left unless it wraps. */
  lemma SlideFacts(t: Tile, dragged: Option<nat>, rx: real)
    requires Placed(t) && Unit(rx)
    ensures Paused(t, dragged) ==> Slide(t, dragged, rx) == t
    ensures Slide(t, dragged, rx) == t.(x := Slide(t, dragged, rx).x) && Placed(Slide(t, dragged, rx))
    ensures !Paused(t, dragged) && !Wraps(t, dragged) ==> Slide(t, dragged, rx).x == t.x - t.speed
    ensures Wraps(t, dragged) ==> 110.0 <= Slide(t, dragged, rx).x < 160.0
  {
  }

  /** The tiles after one frame, with a `Math.random()` value per tile for a re-entry. */
  function Slid(tiles: seq<Tile>, dragged: Option<nat>, rxs: seq<real>): (r: seq<Tile>)
    requires |rxs| == |tiles| && forall i :: 0 <= i < |rxs| ==> Unit(rxs[i])
    ensures |r| == |tiles|
    ensures forall i :: 0 <= i < |r| ==> r[i] == Slide(tiles[i], dragged, rxs[i])
  {
    seq(|tiles|, i requires 0 <= i < |tiles| => Slide(tiles[i], dragged, rxs[i]))
  }

  /** In this frame a tile of the current target word slides off the left edge. */
  predicate Missed(slots: seq<Slot>, tiles: seq<Tile>, dragged: Option<nat>)
  {
    CurrentTarget(slots).Some? &&
    exists k :: 0 <= k < |tiles| && Wraps(tiles[k], dragged) && tiles[k].word.English == CurrentTarget(slots).value.word.English
  }

  /**
   * What every handler keeps: a tile per word of a bar of at most five,
   * between one and five lives, a clock within the game's duration, pass
   * counts below the limit, and every tile placed.
   */
  predicate Sound(slots: seq<Slot>, tiles: seq<Tile>, lives: int, timeLeft: int)
  {
    |tiles| == |slots| && |slots| <= RoundSize &&
    1 <= lives <= StartLives && 0 <= timeLeft <= GameDuration &&
    (forall i :: 0 <= i < |slots| ==> slots[i].passes < PassLimit) &&
    (forall i :: 0 <= i < |tiles| ==> Placed(tiles[i]))
  }

  /** Relabelling slots or changing tile statuses keeps the game sound. */
  lemma SoundMarks(slots: seq<Slot>, tiles: seq<Tile>, lives: int, timeLeft: int, english: string, id: nat, status: TileStatus)
    requires Sound(slots, tiles, lives, timeLeft)
    ensures Sound(MarkMatched(slots, english), WithStatus(tiles, id, status), lives, timeLeft)
    ensures Sound(MarkSkipped(slots, english), tiles, lives, timeLeft)
  {
  }

  /** A new round is sound: one tile per word of a rearranged bar of at most five, with full lives and clock. */
  lemma NewRoundSound(gameSequence: seq<Entry>, arranged: seq<Entry>, draws: seq<TileSpawn>)
    requires |gameSequence| <= RoundSize && multiset(arranged) == multiset(gameSequence)
    requires |draws| >= |arranged| && UnitSpawns(draws)
    ensures Sound(FreshSlots(gameSequence), FreshTiles(arranged, draws), StartLives, GameDuration)
  {
    assert |multiset(arranged)| == |arranged| && |multiset(gameSequence)| == |gameSequence|;
  }

  /**
   * The tile pass of `animate`: every tile slides, and the flag records
   * whether a tile of `target`'s word wrapped in this frame.
   */
  method SlideAll(tiles: seq<Tile>, dragged: Option<nat>, rxs: seq<real>, target: Option<Slot>)
    returns (newTiles: seq<Tile>, wasWordMissed: bool)
    requires |rxs| == |tiles| && forall i :: 0 <= i < |rxs| ==> Unit(rxs[i])
    requires forall i :: 0 <= i < |tiles| ==> Placed(tiles[i])
    ensures newTiles == Slid(tiles, dragged, rxs)
    ensures forall i :: 0 <= i < |newTiles| ==> Placed(newTiles[i])
    ensures wasWordMissed <==> (target.Some? &&
      exists j :: 0 <= j < |tiles| && Wraps(tiles[j], dragged) && tiles[j].word.English == target.value.word.English)
  {
    wasWordMissed := false;
    newTiles := [];
    for k := 0 to |tiles|
      invariant |newTiles| == k
      invariant forall j :: 0 <= j < k ==> newTiles[j] == Slide(tiles[j], dragged, rxs[j])
      invariant wasWordMissed <==> (target.Some? &&
        exists j :: 0 <= j < k && Wraps(tiles[j], dragged) && tiles[j].word.English == target.value.word.English)
    {
      var tile := tiles[k];
      if tile.status == Correct || (dragged.Some? && tile.id == dragged.value) {
        newTiles := newTiles + [tile];
      } else {
        var newX := tile.x - tile.speed;
        if newX < -20.0 {
          if target.Some? && tile.word.English == target.value.word.English {
            wasWordMissed := true;
          }
          newX := Entrance(rxs[k]);
        }
        newTiles := newTiles + [tile.(x := newX)];
      }
    }
    forall j | 0 <= j < |tiles| ensures Placed(newTiles[j]) {
      SlideFacts(tiles[j], dragged, rxs[j]);
    }
  }

  class WordLaneGame {
    var gameWords: seq<Slot>
    var wordTiles: seq<Tile>
    var gameState: GameState
    var score: nat
    var highScore: nat
    var lives: int
    var timeLeft: int
    /** What local storage holds under `telkonlingoHighScore`. */
    var storedHighScore: nat
    /** The persisted mistake ledger. */
    var mistakes: Ledger

    predicate Valid()
      reads this
    {
      Sound(gameWords, wordTiles, lives, timeLeft)
    }

    constructor (persistedHighScore: nat, persistedMistakes: Ledger)
      ensures Valid()
      ensures gameWords == [] && wordTiles == [] && gameState == Ready
      ensures score == 0 && highScore == 0 && lives == StartLives && timeLeft == GameDuration
      ensures storedHighScore == persistedHighScore && mistakes == persistedMistakes
    {
      gameWords := [];
      wordTiles := [];
      gameState := Ready;
      score := 0;
      highScore := 0;
      lives := StartLives;
      timeLeft := GameDuration;
      storedHighScore := persistedHighScore;
      mistakes := persistedMistakes;
    }

    /** The mount effect's read of the saved high score. */
    method LoadHighScore()
      modifies this
      ensures highScore == storedHighScore && storedHighScore == old(storedHighScore)
      ensures gameWords == old(gameWords) && wordTiles == old(wordTiles) && gameState == old(gameState)
      ensures score == old(score) && lives == old(lives) && timeLeft == old(timeLeft) && mistakes == old(mistakes)
    {
      highScore := storedHighScore;
    }

    /**
     * `setupGame`: a full clock, five lives and no score; the bar holds the
     * first five words of a shuffle of the dictionary's words (`shuffled`),
     * unmatched and unpassed, and the tiles carry the same words in another
     * shuffled order (`arranged`); the game waits to be started.
     */
    method Setup(data: seq<Entry>, shuffled: seq<Entry>, arranged: seq<Entry>, draws: seq<TileSpawn>)
      requires multiset(shuffled) == multiset(Words(data))
      requires multiset(arranged) == multiset(Take(shuffled, RoundSize))
      requires |draws| >= |arranged| && UnitSpawns(draws)
      modifies this
      ensures Valid()
      ensures timeLeft == GameDuration && lives == StartLives && score == 0 && gameState == Ready
      ensures gameWords == FreshSlots(Take(shuffled, RoundSize))
      ensures |gameWords| == if |Words(data)| < RoundSize then |Words(data)| else RoundSize
      ensures forall w :: w in Take(shuffled, RoundSize) ==> w in data && w.Type == "word"
      ensures wordTiles == FreshTiles(arranged, draws)
      ensures highScore == old(highScore) && storedHighScore == old(storedHighScore) && mistakes == old(mistakes)
    {
      var gameSequence := Take(shuffled, RoundSize);
      RoundFromDictionary(data, shuffled, RoundSize);
      NewRoundSound(gameSequence, arranged, draws);
      timeLeft := GameDuration;
      lives := StartLives;
      score := 0;
      gameWords := FreshSlots(gameSequence);
      wordTiles := FreshTiles(arranged, draws);
      gameState := Ready;
    }

    /** The Start Game button. */
    method Start()
      requires Valid()
      modifies this
      ensures Valid() && gameState == Playing
      ensures gameWords == old(gameWords) && wordTiles == old(wordTiles) && score == old(score)
      ensures highScore == old(highScore) && lives == old(lives) && timeLeft == old(timeLeft)
      ensures storedHighScore == old(storedHighScore) && mistakes == old(mistakes)
    {
      gameState := Playing;
    }

    /** The game ends; a score above the high score becomes the new one, on screen and in storage. */
    method EndGame()
      requires Valid()
      modifies this
      ensures Valid() && gameState == GameOver
      ensures highScore == if old(score) > old(highScore) then old(score) else old(highScore)
      ensures storedHighScore == if old(score) > old(highScore) then old(score) else old(storedHighScore)
      ensures gameWords == old(gameWords) && wordTiles == old(wordTiles) && score == old(score)
      ensures lives == old(lives) && timeLeft == old(timeLeft) && mistakes == old(mistakes)
    {
      gameState := GameOver;
      if score > highScore {
        highScore := score;
        storedHighScore := score;
      }
    }

    /** One second of the clock: while playing, an empty clock ends the game and a running one counts down. */
    method Tick()
      requires Valid()
      modifies this
      ensures Valid()
      ensures old(gameState) != Playing ==> gameState == old(gameState) && timeLeft == old(timeLeft)
      ensures old(gameState) == Playing && old(timeLeft) <= 0 ==> gameState == GameOver && timeLeft == old(timeLeft)
      ensures old(gameState) == Playing && old(timeLeft) > 0 ==> gameState == Playing && timeLeft == old(timeLeft) - 1
      ensures highScore == if old(gameState) == Playing && old(timeLeft) <= 0 && old(score) > old(highScore)
        then old(score) else old(highScore)
      ensures storedHighScore == if old(gameState) == Playing && old(timeLeft) <= 0 && old(score) > old(highScore)
        then old(score) else old(storedHighScore)
      ensures gameWords == old(gameWords) && wordTiles == old(wordTiles) && score == old(score)
      ensures lives == old(lives) && mistakes == old(mistakes)
    {
      if gameState != Playing {
        return;
      }
      if timeLeft <= 0 {
        EndGame();
        return;
      }
      timeLeft := timeLeft - 1;
    }

    /**
     * `handleDrop`: the dragged tile dropped on slot `slot`. A tile of the
     * slot's word scores, adds time, marks the word matched and leaves a
     * replacement to run later. Any other tile costs a life and records a
     * miss against the dragged word, or, on the last life, ends the game
     * with lives and ledger untouched.
     */
    method Drop(dragged: Tile, slot: nat) returns (pending: Option<Timeout>)
      requires Valid() && slot < |gameWords|
      modifies this
      ensures Valid()
      ensures var english := old(gameWords)[slot].word.English;
        english == dragged.word.English ==>
          timeLeft == (if old(timeLeft) + TimeBonus < GameDuration then old(timeLeft) + TimeBonus else GameDuration) &&
          score == old(score) + DropPoints &&
          gameWords == MarkMatched(old(gameWords), english) &&
          wordTiles == WithStatus(old(wordTiles), dragged.id, Correct) &&
          lives == old(lives) && mistakes == old(mistakes) && gameState == old(gameState) &&
          highScore == old(highScore) && storedHighScore == old(storedHighScore) &&
          pending == Some(Replace(english, dragged.id))
      ensures old(gameWords)[slot].word.English != dragged.word.English && old(lives) - 1 <= 0 ==>
        gameState == GameOver && lives == old(lives) && mistakes == old(mistakes) &&
        highScore == (if old(score) > old(highScore) then old(score) else old(highScore)) &&
        storedHighScore == (if old(score) > old(highScore) then old(score) else old(storedHighScore)) &&
        wordTiles == old(wordTiles) && pending == None
      ensures old(gameWords)[slot].word.English != dragged.word.English && old(lives) - 1 > 0 ==>
        lives == old(lives) - 1 && mistakes == Bump(old(mistakes), dragged.word.English) &&
        wordTiles == WithStatus(old(wordTiles), dragged.id, Incorrect) &&
        highScore == old(highScore) && storedHighScore == old(storedHighScore) &&
        gameState == old(gameState) && pending == Some(Reactivate(dragged.id))
      ensures old(gameWords)[slot].word.English != dragged.word.English ==>
        gameWords == old(gameWords) && score == old(score) && timeLeft == old(timeLeft)
      ensures highScore >= old(highScore) && Grows(old(mistakes), mistakes)
    {
      var targetWord := gameWords[slot].word;
      if targetWord.English == dragged.word.English {
        SoundMarks(gameWords, wordTiles, lives, timeLeft, targetWord.English, dragged.id, Correct);
        timeLeft := if timeLeft + TimeBonus < GameDuration then timeLeft + TimeBonus else GameDuration;
        score := score + DropPoints;
        gameWords := MarkMatched(gameWords, targetWord.English);
        wordTiles := WithStatus(wordTiles, dragged.id, Correct);
        pending := Some(Replace(targetWord.English, dragged.id));
      } else {
        if lives - 1 <= 0 {
          EndGame();
          pending := None;
          return;
        }
        SoundMarks(gameWords, wordTiles, lives - 1, timeLeft, "", dragged.id, Incorrect);
        lives := lives - 1;
        wordTiles := WithStatus(wordTiles, dragged.id, Incorrect);
        pending := Some(Reactivate(dragged.id));
        BumpGrows(mistakes, dragged.word.English);
        mistakes := Bump(mistakes, dragged.word.English);
      }
    }

    /**
     * The replacement a correct drop leaves behind: the matched word's slot
     * and the dropped tile take a new word, unused by the bar and the tiles
     * when the dictionary has one, and the tile re-enters from the right.
     */
    method FinishReplacement(data: seq<Entry>, english: string, tileId: nat, pick: nat, rx: real)
      requires Valid() && Words(data) != [] && Unit(rx)
      modifies this
      ensures Valid()
      ensures var w := NewWord(Words(data), old(gameWords), old(wordTiles), pick);
        gameWords == ReplaceSlots(old(gameWords), english, w) &&
        wordTiles == ReplaceTile(old(wordTiles), tileId, w, Entrance(rx))
      ensures gameState == old(gameState) && score == old(score)
      ensures highScore == old(highScore) && storedHighScore == old(storedHighScore)
      ensures lives == old(lives) && timeLeft == old(timeLeft) && mistakes == old(mistakes)
    {
      var newWord := NewWord(Words(data), gameWords, wordTiles, pick);
      gameWords := ReplaceSlots(gameWords, english, newWord);
      wordTiles := ReplaceTile(wordTiles, tileId, newWord, Entrance(rx));
    }

    /** The reset a wrong drop leaves behind: the tile slides again. */
    method FinishReactivate(tileId: nat)
      requires Valid()
      modifies this
      ensures Valid()
      ensures wordTiles == WithStatus(old(wordTiles), tileId, Sliding)
      ensures gameWords == old(gameWords) && gameState == old(gameState) && score == old(score)
      ensures highScore == old(highScore) && storedHighScore == old(storedHighScore)
      ensures lives == old(lives) && timeLeft == old(timeLeft) && mistakes == old(mistakes)
    {
      wordTiles := WithStatus(wordTiles, tileId, Sliding);
    }

    /**
     * `animate`: one frame while playing. Every tile slides, except correct
     * ones and the one being dragged (`dragged`). When a tile of the current
     * target word wraps, the word's pass count rises, and at the fifth pass
     * the word is skipped at the cost of a life, or the game ends on the
     * last life.
     */
    method Animate(dragged: Option<nat>, rxs: seq<real>)
      requires Valid() && gameState == Playing
      requires |rxs| == |wordTiles| && forall i :: 0 <= i < |rxs| ==> Unit(rxs[i])
      modifies this
      ensures Valid()
      ensures wordTiles == Slid(old(wordTiles), dragged, rxs)
      ensures !Missed(old(gameWords), old(wordTiles), dragged) ==>
        gameWords == old(gameWords) && lives == old(lives) && gameState == Playing
      ensures gameState == Playing ==> highScore == old(highScore) && storedHighScore == old(storedHighScore)
      ensures gameState == GameOver ==>
        highScore == (if old(score) > old(highScore) then old(score) else old(highScore)) &&
        storedHighScore == (if old(score) > old(highScore) then old(score) else old(storedHighScore))
      ensures Missed(old(gameWords), old(wordTiles), dragged) ==>
        var target := CurrentTarget(old(gameWords)).value;
        (target.passes + 1 < PassLimit ==>
          gameWords == SetPasses(old(gameWords), target.word.English, target.passes + 1) &&
          lives == old(lives) && gameState == Playing) &&
        (target.passes + 1 >= PassLimit && old(lives) - 1 > 0 ==>
          gameWords == MarkSkipped(old(gameWords), target.word.English) &&
          lives == old(lives) - 1 && gameState == Playing) &&
        (target.passes + 1 >= PassLimit && old(lives) - 1 <= 0 ==>
          gameWords == old(gameWords) && lives == old(lives) && gameState == GameOver)
      ensures highScore >= old(highScore)
      ensures score == old(score) && timeLeft == old(timeLeft) && mistakes == old(mistakes)
    {
      var target := CurrentTarget(gameWords);
      var newTiles, wasWordMissed := SlideAll(wordTiles, dragged, rxs, target);
      wordTiles := newTiles;
      if wasWordMissed {
        CountPass(target.value);
      }
    }

    /**
     * The missed-word block of `animate`: the word's pass count rises, and
     * at the fifth pass the word is skipped at the cost of a life, or the
     * game ends on the last life.
     */
    method CountPass(missedWord: Slot)
      requires Valid() && gameState == Playing && missedWord.passes < PassLimit
      modifies this
      ensures Valid()
      ensures var english := missedWord.word.English;
        (missedWord.passes + 1 < PassLimit ==>
          gameWords == SetPasses(old(gameWords), english, missedWord.passes + 1) &&
          lives == old(lives) && gameState == Playing) &&
        (missedWord.passes + 1 >= PassLimit && old(lives) - 1 > 0 ==>
          gameWords == MarkSkipped(old(gameWords), english) &&
          lives == old(lives) - 1 && gameState == Playing) &&
        (missedWord.passes + 1 >= PassLimit && old(lives) - 1 <= 0 ==>
          gameWords == old(gameWords) && lives == old(lives) && gameState == GameOver)
      ensures gameState == Playing ==> highScore == old(highScore) && storedHighScore == old(storedHighScore)
      ensures gameState == GameOver ==>
        highScore == (if old(score) > old(highScore) then old(score) else old(highScore)) &&
        storedHighScore == (if old(score) > old(highScore) then old(score) else old(storedHighScore))
      ensures wordTiles == old(wordTiles) && score == old(score) && timeLeft == old(timeLeft) && mistakes == old(mistakes)
    {
      var newPassCount := missedWord.passes + 1;
      if newPassCount >= PassLimit {
        if lives - 1 <= 0 {
          EndGame();
        } else {
          lives := lives - 1;
          gameWords := MarkSkipped(gameWords, missedWord.word.English);
        }
      } else {
        gameWords := SetPasses(gameWords, missedWord.word.English, newPassCount);
      }
    }
  }
}
