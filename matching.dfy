/**
 * The matching drill (MatchingGame.js): five words shown twice, in two
 * shuffled columns; a word picked on the left and its translation picked on
 * the right are joined by a relation, and the game is won when every word is
 * joined.
 */
module Matching {
  import opened Wrappers
  import opened Vocabulary
  import opened Shuffles
  import opened Collections

  /** The number of words in one round. */
  const RoundSize: nat := 5

  datatype Column = Left | Right

  /** The column's name as it appears in element ids. */
  function ColumnName(col: Column): string
  {
    match col
    case Left => "left"
    case Right => "right"
  }

  /** `` `${column}-${word.English}` ``: the id of a word's element in a column. */
  function Id(col: Column, english: string): string
  {
    ColumnName(col) + "-" + english
  }

  /** A drawn arrow: from a left element to a right one (colour and anchors left out). */
  datatype Relation = Relation(sourceId: string, targetId: string)

  /** The arrow drawn for a correct match of `english`. */
  function MatchRelation(english: string): Relation
  {
    Relation(Id(Left, english), Id(Right, english))
  }

  /** The arrows for the words matched so far, in the order they were matched. */
  function MatchRelations(matched: seq<string>): (r: seq<Relation>)
    ensures |r| == |matched|
    ensures forall i :: 0 <= i < |matched| ==> r[i] == MatchRelation(matched[i])
  {
    seq(|matched|, i requires 0 <= i < |matched| => MatchRelation(matched[i]))
  }

  /** `isMatched(word, column)`: some arrow starts or ends at the word's element in that column. */
  predicate IsMatched(relations: seq<Relation>, english: string, col: Column)
  {
    exists rel :: rel in relations && (rel.sourceId == Id(col, english) || rel.targetId == Id(col, english))
  }

  /** Ids are distinct across columns and determine the English text. */
  lemma IdInjective(c: Column, a: string, d: Column, b: string)
    ensures Id(c, a) == Id(d, b) <==> c == d && a == b
  {
    if Id(c, a) == Id(d, b) {
      assert Id(c, a)[0] == Id(d, b)[0];
      assert c == d;
      var p := ColumnName(c) + "-";
      assert Id(c, a) == p + a && Id(d, b) == p + b;
      assert a == (p + a)[|p|..] && b == (p + b)[|p|..];
    }
  }

  /** With match arrows only, a word is matched in either column exactly when its English text was matched. */
  lemma IsMatchedDecodes(matched: seq<string>, english: string, col: Column)
    ensures IsMatched(MatchRelations(matched), english, col) <==> english in matched
  {
    var rels := MatchRelations(matched);
    if IsMatched(rels, english, col) {
      var rel :| rel in rels && (rel.sourceId == Id(col, english) || rel.targetId == Id(col, english));
      var i :| 0 <= i < |rels| && rels[i] == rel;
      IdInjective(col, english, Left, matched[i]);
      IdInjective(col, english, Right, matched[i]);
    }
    if english in matched {
      var i :| 0 <= i < |matched| && matched[i] == english;
      assert rels[i] in rels;
      match col
      case Left => assert rels[i].sourceId == Id(col, english);
      case Right => assert rels[i].targetId == Id(col, english);
    }
  }

  /**
   * When as many words are matched as are in play, every word in play is
   * matched in both columns and the words' English texts are distinct.
   */
  lemma AllMatched(gameWords: seq<Entry>, matched: seq<string>)
    requires Distinct(matched) && Elems(matched) <= Identities(gameWords)
    requires |matched| == |gameWords|
    ensures |Identities(gameWords)| == |gameWords|
    ensures forall w :: w in gameWords ==>
      IsMatched(MatchRelations(matched), w.English, Left) && IsMatched(MatchRelations(matched), w.English, Right)
  {
    DistinctElems(matched);
    IdentitiesBound(gameWords);
    SubsetCard(Elems(matched), Identities(gameWords));
    SubsetFull(Elems(matched), Identities(gameWords));
    forall w | w in gameWords
      ensures IsMatched(MatchRelations(matched), w.English, Left)
      ensures IsMatched(MatchRelations(matched), w.English, Right)
    {
      assert w.English in Identities(gameWords);
      IsMatchedDecodes(matched, w.English, Left);
      IsMatchedDecodes(matched, w.English, Right);
    }
  }

  /** Both columns hold the words in play, of which there are at most five. */
  ghost predicate Board(gameWords: seq<Entry>, left: seq<Entry>, right: seq<Entry>)
  {
    multiset(left) == multiset(gameWords) && multiset(right) == multiset(gameWords) && |gameWords| <= RoundSize
  }

  /** The arrows are the match arrows of distinct words in play, and a selected source is not matched yet. */
  ghost predicate Progress(gameWords: seq<Entry>, selected: Option<Entry>, relations: seq<Relation>, matched: seq<string>)
  {
    relations == MatchRelations(matched) &&
    Distinct(matched) &&
    Elems(matched) <= Identities(gameWords) &&
    (selected.Some? ==> selected.value.English !in matched)
  }

  /** Nothing is matched at the start of a round, whatever is selected. */
  lemma NoProgress(words: seq<Entry>, selected: Option<Entry>)
    ensures Progress(words, selected, [], [])
  {
    var none: seq<string> := [];
    assert Elems(none) == {};
  }

  class MatchingGame {
    var gameWords: seq<Entry>
    var leftColumn: seq<Entry>
    var rightColumn: seq<Entry>
    var selectedSource: Option<Entry>
    var relations: seq<Relation>
    var gameWon: bool
    /** The English texts matched so far, one per arrow. */
    ghost var matched: seq<string>

    /**
     * The arrows are exactly the match arrows of distinct words in play, the
     * columns both hold the words in play, and a selected source is not
     * matched yet.
     */
    ghost predicate Valid()
      reads this
    {
      Board(gameWords, leftColumn, rightColumn) && Progress(gameWords, selectedSource, relations, matched)
    }

    constructor ()
      ensures Valid()
      ensures gameWords == [] && selectedSource == None && relations == [] && !gameWon
    {
      gameWords := [];
      leftColumn := [];
      rightColumn := [];
      selectedSource := None;
      relations := [];
      gameWon := false;
      matched := [];
    }

    /**
     * `setupGame`: a fresh round of up to five words from a shuffle of the
     * dictionary's words, shown in two independently shuffled columns. The
     * shuffles are supplied as `shuffled`, `left` and `right`. The selection
     * is kept as it was.
     */
    method Setup(data: seq<Entry>, shuffled: seq<Entry>, left: seq<Entry>, right: seq<Entry>)
      requires multiset(shuffled) == multiset(Words(data))
      requires multiset(left) == multiset(Take(shuffled, RoundSize))
      requires multiset(right) == multiset(Take(shuffled, RoundSize))
      modifies this
      ensures Valid()
      ensures gameWords == Take(shuffled, RoundSize)
      ensures |gameWords| == if |Words(data)| < RoundSize then |Words(data)| else RoundSize
      ensures forall w :: w in gameWords ==> w in data && w.Type == "word"
      ensures leftColumn == left && rightColumn == right
      ensures relations == [] && !gameWon && selectedSource == old(selectedSource)
    {
      var selectedWords := Take(shuffled, RoundSize);
      RoundFromDictionary(data, shuffled, RoundSize);
      NoProgress(selectedWords, selectedSource);
      gameWon := false;
      relations := [];
      matched := [];
      gameWords := selectedWords;
      leftColumn := left;
      rightColumn := right;
    }

    /**
     * `handleSelect`: a left word becomes the source; a right word, with a
     * source selected, adds an arrow when the two are the same word and
     * clears the selection either way. A matched word's button is disabled,
     * so the word clicked is in play and not yet matched in its column.
     */
    method Select(word: Entry, col: Column)
      requires Valid()
      requires word in gameWords && !IsMatched(relations, word.English, col)
      modifies this
      ensures Valid()
      ensures col == Left ==> selectedSource == Some(word) && relations == old(relations)
      ensures col == Right && old(selectedSource).None? ==> selectedSource == None && relations == old(relations)
      ensures col == Right && old(selectedSource).Some? ==> selectedSource == None
      ensures col == Right && old(selectedSource).Some? && old(selectedSource).value.English == word.English ==>
        relations == old(relations) + [Relation(Id(Left, word.English), Id(Right, word.English))]
      ensures col == Right && old(selectedSource).Some? && old(selectedSource).value.English != word.English ==>
        relations == old(relations)
      ensures gameWords == old(gameWords) && leftColumn == old(leftColumn) && rightColumn == old(rightColumn)
      ensures gameWon == old(gameWon)
    {
      IsMatchedDecodes(matched, word.English, col);
      assert word.English in Identities(gameWords);
      if col == Left {
        selectedSource := Some(word);
      } else if selectedSource.Some? {
        if selectedSource.value.English == word.English {
          relations := relations + [Relation(Id(Left, selectedSource.value.English), Id(Right, word.English))];
          matched := matched + [word.English];
        }
        selectedSource := None;
      }
    }

    /** The win effect: won once every word in play has its arrow. */
    method CheckWin()
      requires Valid()
      modifies this
      ensures Valid()
      ensures gameWon == (old(gameWon) || (|gameWords| > 0 && |relations| == |gameWords|))
      ensures gameWords == old(gameWords) && relations == old(relations) && selectedSource == old(selectedSource)
      ensures leftColumn == old(leftColumn) && rightColumn == old(rightColumn)
      ensures !old(gameWon) && gameWon ==>
        forall w :: w in gameWords ==> IsMatched(relations, w.English, Left) && IsMatched(relations, w.English, Right)
    {
      if |gameWords| > 0 && |relations| == |gameWords| {
        AllMatched(gameWords, matched);
        gameWon := true;
      }
    }
  }
}
