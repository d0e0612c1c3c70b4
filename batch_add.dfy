/**
 * The batch-add wizard (BatchAddModal.js): pasted text is cut into items,
 * each item becomes a draft entry, the drafts are translated one at a time
 * behind a cursor, and the reviewed list is handed to the dictionary.
 */
module BatchAdd {
  import opened Strings
  import opened Vocabulary
  import opened Wrappers

  /** The separator field's initial text: a backslash and an `n`, standing for a line break. */
  const NewlineToken: string := "\\n"

  /** The separator actually used for splitting. */
  function SeparatorOf(separator: string): string
  {
    if separator == NewlineToken then "\n" else separator
  }

  /** `items.filter(Boolean)` on strings: the non-empty ones, in order. */
  function DropEmpty(items: seq<string>): (r: seq<string>)
    ensures |r| <= |items|
    ensures forall x :: x in r <==> x in items && x != ""
  {
    if items == [] then []
    else (if items[0] != "" then [items[0]] else []) + DropEmpty(items[1..])
  }

  /** The filter works item by item: it distributes over concatenation; with `DropEmptySingle`, the kept items keep their order. */
  lemma {:induction false} DropEmptyAppend(a: seq<string>, b: seq<string>)
    ensures DropEmpty(a + b) == DropEmpty(a) + DropEmpty(b)
  {
    if a == [] {
      assert a + b == b;
    } else {
      var t := a[1..];
      assert (a + b)[0] == a[0] && (a + b)[1..] == t + b;
      DropEmptyAppend(t, b);
    }
  }

  /** A single item is kept exactly when it is not empty. */
  lemma DropEmptySingle(x: string)
    ensures DropEmpty([x]) == if x != "" then [x] else []
  {
    assert [x][1..] == [];
  }

  /** `parsedItems`: the pasted text split on the separator, trimmed, empty items dropped. */
  function ParseItems(rawText: string, separator: string): seq<string>
  {
    if rawText == "" then [] else DropEmpty(TrimAll(Split(rawText, SeparatorOf(separator))))
  }

  /** Every item is non-empty and already trimmed, and is the trimmed text of some piece. */
  lemma ParseItemsFacts(rawText: string, separator: string)
    ensures rawText == "" ==> ParseItems(rawText, separator) == []
    ensures forall item :: item in ParseItems(rawText, separator) ==>
      item != "" && Trim(item) == item &&
      exists piece :: piece in Split(rawText, SeparatorOf(separator)) && Trim(piece) == item
  {
    var pieces := Split(rawText, SeparatorOf(separator));
    forall item | item in ParseItems(rawText, separator)
      ensures item != "" && Trim(item) == item
      ensures exists piece :: piece in pieces && Trim(piece) == item
    {
      var trimmed := TrimAll(pieces);
      assert item in DropEmpty(trimmed);
      var i :| 0 <= i < |trimmed| && trimmed[i] == item;
      assert pieces[i] in pieces;
      TrimIdempotent(pieces[i]);
    }
  }

  /**
   * Items come in the order of the text: a first piece followed by the
   * separator contributes its trimmed text (nothing when that is empty)
   * ahead of the items of the rest.
   */
  lemma ParseItemsCons(a: string, b: string, separator: string)
    requires SeparatorOf(separator) != ""
    requires forall k :: 0 <= k < |a| ==> !OccursAt(a + SeparatorOf(separator), SeparatorOf(separator), k)
    ensures ParseItems(a + SeparatorOf(separator) + b, separator) ==
      (if Trim(a) == "" then [] else [Trim(a)]) + ParseItems(b, separator)
  {
    var sep := SeparatorOf(separator);
    SplitCons(a, sep, b);
    var rest := TrimAll(Split(b, sep));
    assert TrimAll([a] + Split(b, sep)) == [Trim(a)] + rest;
    DropEmptyAppend([Trim(a)], rest);
    DropEmptySingle(Trim(a));
    if b == "" {
      IndexOfFromIs(b, sep, 0, None);
      assert rest == [""];
      DropEmptySingle("");
    }
  }

  /** A text without the separator is one piece: its trimmed text, or no item when that is empty. */
  lemma ParseItemsPiece(a: string, separator: string)
    requires SeparatorOf(separator) != ""
    requires forall k :: !OccursAt(a, SeparatorOf(separator), k)
    ensures ParseItems(a, separator) == if Trim(a) == "" then [] else [Trim(a)]
  {
    var sep := SeparatorOf(separator);
    IndexOfFromIs(a, sep, 0, None);
    assert Split(a, sep) == [a];
    assert TrimAll([a]) == [Trim(a)];
    DropEmptySingle(Trim(a));
    if a == "" {
      TrimFacts(a);
    }
  }

  /** A dropped empty item changes nothing when there is none. */
  lemma {:induction false} DropEmptyKeeps(items: seq<string>)
    requires forall x :: x in items ==> x != ""
    ensures DropEmpty(items) == items
  {
    if items != [] {
      assert items == [items[0]] + items[1..];
      assert items[0] in items;
      assert forall x :: x in items[1..] ==> x in items;
      DropEmptyKeeps(items[1..]);
    }
  }

  /** Trimming changes nothing when every item is already trimmed. */
  lemma TrimAllKeeps(items: seq<string>)
    requires forall x :: x in items ==> Trim(x) == x
    ensures TrimAll(items) == items
  {
    forall i | 0 <= i < |items| ensures TrimAll(items)[i] == items[i] {
      assert items[i] in items;
    }
  }

  /**
   * Items pasted one per line come back unchanged, in order: for non-empty,
   * trimmed items without line breaks, parsing their line-joined text with
   * the default separator gives the items.
   */
  lemma ParseItemsOfLines(items: seq<string>)
    requires items != []
    requires forall x :: x in items ==> x != "" && Trim(x) == x && '\n' !in x
    ensures ParseItems(Join(items, "\n"), NewlineToken) == items
  {
    SplitJoin(items, '\n');
    assert Join(items, "\n") != "" by {
      assert items[0] in items;
      JoinHead(items, "\n");
    }
    TrimAllKeeps(items);
    DropEmptyKeeps(items);
  }

  lemma JoinHead(pieces: seq<string>, sep: string)
    requires pieces != []
    ensures |Join(pieces, sep)| >= |pieces[0]|
  {
  }

  /** `item.includes(' ') ? 'phrase' : 'word'`. */
  function TypeOf(item: string): (kind: string)
    ensures kind == "phrase" <==> ' ' in item
    ensures kind == "word" <==> ' ' !in item
  {
    if ' ' in item then "phrase" else "word"
  }

  /** `handleNextStep1`'s drafts: one per item, English set and both translations empty. */
  function NewEntries(items: seq<string>): (r: seq<Entry>)
    ensures |r| == |items|
    ensures forall i :: 0 <= i < |items| ==>
      r[i].English == items[i] && r[i].Telugu == "" && r[i].Konkani == "" &&
      (r[i].Type == "phrase" <==> ' ' in items[i]) && (r[i].Type == "word" <==> ' ' !in items[i])
  {
    seq(|items|, i requires 0 <= i < |items| => Entry(items[i], "", "", TypeOf(items[i])))
  }

  const PasteStep: nat := 1
  const TranslateStep: nat := 2
  const ReviewStep: nat := 3

  class BatchAddModal {
    var step: nat
    var rawText: string
    var separator: string
    var entries: seq<Entry>
    var currentIndex: nat

    /** The wizard is on one of its three steps and the cursor is on a draft (or at 0 with none). */
    predicate Valid()
      reads this
    {
      PasteStep <= step <= ReviewStep && (currentIndex == 0 || currentIndex < |entries|)
    }

    constructor ()
      ensures Valid()
      ensures step == PasteStep && rawText == "" && separator == NewlineToken
      ensures entries == [] && currentIndex == 0
    {
      step := PasteStep;
      rawText := "";
      separator := NewlineToken;
      entries := [];
      currentIndex := 0;
    }

    /** The text area's `onChange`. */
    method SetRawText(text: string)
      requires Valid()
      modifies this
      ensures Valid()
      ensures rawText == text
      ensures step == old(step) && separator == old(separator)
      ensures entries == old(entries) && currentIndex == old(currentIndex)
    {
      rawText := text;
    }

    /** The separator field's `onChange`. */
    method SetSeparator(text: string)
      requires Valid()
      modifies this
      ensures Valid()
      ensures separator == text
      ensures step == old(step) && rawText == old(rawText)
      ensures entries == old(entries) && currentIndex == old(currentIndex)
    {
      separator := text;
    }

    /** `handleNextStep1`: one draft per parsed item, cursor on the first, on to translation. */
    method NextStep1()
      requires Valid()
      modifies this
      ensures Valid()
      ensures entries == NewEntries(ParseItems(old(rawText), old(separator)))
      ensures currentIndex == 0 && step == TranslateStep
      ensures rawText == old(rawText) && separator == old(separator)
    {
      entries := NewEntries(ParseItems(rawText, separator));
      currentIndex := 0;
      step := TranslateStep;
    }

    /** `handleTranslationChange`: sets one translation of the draft under the cursor. */
    method TranslationChange(lang: Language, value: string)
      requires Valid() && currentIndex < |entries|
      modifies this
      ensures Valid()
      ensures |entries| == |old(entries)|
      ensures entries[currentIndex] == WithTranslation(old(entries)[currentIndex], lang, value)
      ensures forall i :: 0 <= i < |entries| && i != currentIndex ==> entries[i] == old(entries)[i]
      ensures step == old(step) && currentIndex == old(currentIndex)
      ensures rawText == old(rawText) && separator == old(separator)
    {
      entries := entries[currentIndex := WithTranslation(entries[currentIndex], lang, value)];
    }

    /** `goToNextWord`: the next draft, or the review step after the last one. */
    method NextWord()
      requires Valid()
      modifies this
      ensures Valid()
      ensures old(currentIndex) < |entries| - 1 ==> currentIndex == old(currentIndex) + 1 && step == old(step)
      ensures old(currentIndex) >= |entries| - 1 ==> currentIndex == old(currentIndex) && step == ReviewStep
      ensures entries == old(entries) && rawText == old(rawText) && separator == old(separator)
    {
      if currentIndex < |entries| - 1 {
        currentIndex := currentIndex + 1;
      } else {
        step := ReviewStep;
      }
    }

    /** `goToPrevWord`: the previous draft, if there is one. */
    method PrevWord()
      requires Valid()
      modifies this
      ensures Valid()
      ensures old(currentIndex) > 0 ==> currentIndex == old(currentIndex) - 1
      ensures old(currentIndex) == 0 ==> currentIndex == 0
      ensures step == old(step) && entries == old(entries)
      ensures rawText == old(rawText) && separator == old(separator)
    {
      if currentIndex > 0 {
        currentIndex := currentIndex - 1;
      }
    }

    /** "Back to Editing" on the review step. */
    method BackToEditing()
      requires Valid()
      modifies this
      ensures Valid()
      ensures step == TranslateStep
      ensures entries == old(entries) && currentIndex == old(currentIndex)
      ensures rawText == old(rawText) && separator == old(separator)
    {
      step := TranslateStep;
    }

    /** `handleClose`: back to an empty first step. */
    method Close()
      modifies this
      ensures Valid()
      ensures step == PasteStep && rawText == "" && separator == NewlineToken
      ensures entries == [] && currentIndex == 0
    {
      step := PasteStep;
      rawText := "";
      separator := NewlineToken;
      entries := [];
      currentIndex := 0;
    }

    /** `handleConfirmBatchAdd`: hands the drafts to the dictionary, then closes. */
    method Confirm() returns (added: seq<Entry>)
      modifies this
      ensures added == old(entries)
      ensures Valid()
      ensures step == PasteStep && rawText == "" && separator == NewlineToken
      ensures entries == [] && currentIndex == 0
    {
      added := entries;
      Close();
    }
  }
}
