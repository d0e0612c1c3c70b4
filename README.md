# telkonlingo in Dafny

Telkonlingo is a personal vocabulary trainer. It keeps a dictionary of
entries, each an English text with its Telugu and Konkani translations and
a `Type` of "word" or "phrase". The user builds the dictionary through:

- a form;
- a batch-add wizard;
- a CSV import;
- edits in a table.

The user practises it in four drills:

- **Bubble**: click the falling bubble that carries the current target word.
- **Word Lane**: drag sliding tiles onto their English words against a clock, with five lives.
- **Quiz**: a multiple-choice quiz.
- **Matching**: join words across two columns.

Misses are recorded in a persistent mistake ledger.

This project models that core as Dafny. Each source file becomes one module:

| module | file | form |
|---|---|---|
| `WordLane` | `WordLaneGame.js` | class |
| `Bubbles` | `BubbleGame.js` | class |
| `Quiz` | `Quiz.js` | functions, a top-up method with its loop, a class |
| `Matching` | `MatchingGame.js` | class |
| `Csv` | `parseCSV` in `utils.js` | a method with the source's two loops, proved against a specification function |
| `BatchAdd` | `BatchAddModal.js` | functions and a wizard class |
| `App` | `App.js` | class |
| `AddEntryForm` | `AddEntryForm.js` | class |
| `DataTable` | `DataTable.js` | functions and a cell-editor class |

Shared modules:

- `Strings`: JavaScript's `trim`, `split` and `join`.
- `Records`: a plain object as a list of fields in `Object.keys` order. Array-index keys (canonical decimal numbers below 2^32 - 1) come first, in numeric order; the other keys follow in the order they were created. Assigning `__proto__` creates no key.
- `Vocabulary`: entries and the word and phrase filters.
- `Ledger`: the mistake ledger, a map from English text to a count.
- `Shuffles`: `shuffleArray` driven by a list of picks, `Math.random()` index draws, and `slice`.
- `Collections`: counting facts about sets.
- `Wrappers`: `Option`.

Randomness, the fuzzy matcher, storage and timers are handled as follows:

- **Randomness** belongs to the caller.
  - A drill's setup receives its shuffles as rearrangements (`shuffled`, `arranged`, `left`, `right`). A `requires` ties each one to the list it rearranges.
  - `Shuffles.ShuffleReaches` shows that the pick-driven `Shuffle` can produce every such rearrangement.
  - Raw `Math.random()` values are parameters in [0, 1).
- **Fuse.js** is an oracle: a list of pool entries supplied by the caller.
- **localforage** is a field: `stored` for the dictionary, `mistakes` for the ledger, and `storedHighScore`.
- **Timers, animation frames and delayed callbacks** are methods the caller invokes: `Tick`, `Animate`, `FinishReplacement` and `FinishReactivate`. A drop returns the callback it leaves pending.

## Model

| member | source | states |
|---|---|---|
| Strings.Trim | src/utils.js:6 | `header.trim()`: the text with its leading and then its trailing ECMAScript white space removed; `TrimFacts`, `TrimEmptyIffAllSpace` and `TrimIdempotent` prove what it gives |
| Strings.TrimFacts | src/utils.js:6 | a trimmed text is no longer than its input and neither starts nor ends with white space |
| Strings.TrimEmptyIffAllSpace | src/utils.js:2 | `line.trim() !== ''` holds exactly when the line has a character other than white space |
| Strings.TrimIdempotent | src/components/BatchAddModal.js:14 | trimming an already trimmed item changes nothing |
| Strings.Split | src/utils.js:10 | `line.split(sep)`: a non-empty separator gives at least one piece, and the empty separator gives one piece per character; `JoinSplit`, `SplitPiecesFree` and `SplitCons` relate the pieces to the text |
| Strings.IndexOfFrom | src/utils.js:10 | the search finds the first occurrence of the separator at or after the start, and reports none only when there is none |
| Strings.JoinSplit | src/utils.js:10 | joining the pieces of a split with the same separator gives back the line |
| Strings.SplitPiecesFree | src/utils.js:10 | no piece of a split contains the separator |
| Strings.SplitCons | src/components/BatchAddModal.js:13 | a first piece free of the separator, followed by the separator, is split off whole ahead of the pieces of the rest |
| Strings.SplitJoin | src/components/BatchAddModal.js:13-14 | splitting the join of pieces that avoid a one-character separator gives the pieces back |
| Records.Get | src/components/DataTable/DataTable.js:52 | `row[header]`: the value of the field with that key, or none when the row has no such own key; `GetDefined` and `PutGet` state how it reads |
| Records.KeyIndex | src/App.js:64 | finds the first field with the key, or reports that no field has it |
| Records.Put | src/App.js:64 | `row[column] = value`: `__proto__` is ignored, an existing key keeps its place and takes the value, a new array-index key goes to its numeric place, and any other new key goes last; `PutKeys` and `PutGet` prove what it gives |
| Records.GetDefined | src/components/DataTable/DataTable.js:8 | a key reads as an own value exactly when it is one of `Object.keys` |
| Records.PutGet | src/App.js:64 | after `row[column] = value` the column reads `value` and every other key reads as before; assigning `__proto__` changes nothing |
| Records.PutKeys | src/App.js:64 | the keys after an assignment are the old keys plus the assigned one, unless it is `__proto__`; an existing key keeps its place, a new key that is not an array index comes last in creation order, and `Object.keys` order is kept |
| Records.NamedKeysMembers | src/utils.js:16 | a key is listed in creation order exactly when it is one of the keys and neither an array index nor `__proto__` |
| Records.NamedKeysAppend | src/utils.js:16 | the keys in creation order distribute over concatenation, so they keep their relative order |
| Records.IndexKeyInjective | src/utils.js:16 | two array-index keys are the same key exactly when their numeric values agree |
| Records.IndexKeysFirst | src/utils.js:15-17 | assigning `id`, then `2`, then `name` gives the keys 2, id, name: the array index comes first |
| Records.PutKeepsKeysUnique | src/utils.js:16 | assigning a key keeps an object's keys unique |
| Vocabulary.OfType | src/MatchingGame.js:20 | the filter keeps exactly the entries with the tag, none more often than in the input |
| Vocabulary.OfTypeAppend | src/MatchingGame.js:20 | the filter distributes over concatenation, so the kept entries keep their order |
| Vocabulary.OfTypeSingle | src/MatchingGame.js:20 | a single entry is kept exactly when it carries the tag |
| Vocabulary.OfTypeCount | src/MatchingGame.js:20 | each entry with the tag is kept exactly as often as it occurs, and no other entry is kept |
| Vocabulary.WithTranslation | src/components/BatchAddModal.js:31 | only the chosen translation changes |
| Vocabulary.RoundFromDictionary | src/MatchingGame.js:25-26 | the first five entries of a rearrangement of the words are dictionary words, five of them unless the dictionary has fewer |
| Vocabulary.ToRecord | src/components/AddEntryForm/AddEntryForm.js:5-10 | an entry object has the keys English, Telugu, Konkani and Type, once each and in that order, which is also their `Object.keys` order |
| Vocabulary.RecordRoundTrip | src/components/AddEntryForm/AddEntryForm.js:5-10 | reading an entry's object form back gives the entry |
| Ledger.Count | src/BubbleGame.js:76 | the count read before a miss is added: the stored count, or 0 when the key is absent; `Bump` and `BumpGrows` state how it changes |
| Ledger.Bump | src/BubbleGame.js:75-77 | the missed word's count rises by exactly one and no other count changes |
| Ledger.BumpGrows | src/WordLaneGame.js:139-141 | recording a miss never lowers any count |
| Shuffles.Draw | src/Quiz.js:42 | a random index draw returns an element of the list |
| Shuffles.Shuffle | src/Quiz.js:7-9 | a shuffle is a rearrangement: same length, same elements with the same multiplicities |
| Shuffles.ShuffleReaches | src/Quiz.js:7-9 | every rearrangement of a list is the outcome of some shuffle |
| Shuffles.Take | src/Quiz.js:57 | `slice(0, n)` is the prefix of length `n`, or the whole list when shorter |
| Csv.NonBlank | src/utils.js:2 | the kept lines are exactly the lines that are not blank |
| Csv.NonBlankAppend | src/utils.js:2 | the filter distributes over concatenation, so the kept lines keep their order |
| Csv.NonBlankSingle | src/utils.js:2 | a single line is kept exactly when it is not blank |
| Csv.Cell | src/utils.js:16 | a field's value is the field trimmed, and `''` for an empty field |
| Csv.RowObject | src/utils.js:15-17 | the object built by assigning each header in turn its cell, through `Put`; `RowObjectKeys`, `RowObjectKeyOrder` and `RowObjectValues` state its keys and values |
| Csv.RowObjectKeys | src/utils.js:15-17 | an object's keys are exactly the header names other than `__proto__`, each once, in `Object.keys` order |
| Csv.RowObjectKeyOrder | src/utils.js:15-17 | with distinct header names, the keys in creation order are the header names in header order, leaving out array indexes and `__proto__` |
| Csv.IndexHeadersFirst | src/utils.js:15-17 | the object of the header line `id,2,name` has the keys 2, id, name |
| Csv.RowObjectValues | src/utils.js:15-16 | each header other than `__proto__` maps to its trimmed field; for a repeated header, the last assignment wins |
| Csv.ExtraFieldsIgnored | src/utils.js:15 | fields beyond the header count do not affect the object |
| Csv.LineRows | src/utils.js:12-18 | a data line gives at most one object, and none exactly when it has too few fields or only blank ones |
| Csv.ParseLines | src/utils.js:8-19 | the rows of a run of data lines, line by line in order; every line gives at most one row; `ParseLinesAppend` and `ParsedRowKeys` state how it composes and what rows it gives |
| Csv.ParsedRowKeys | src/utils.js:15-18 | every output object has exactly the header names other than `__proto__` as keys, once each and in `Object.keys` order; with distinct headers the keys in creation order follow the header order |
| Csv.ParseLinesAppend | src/utils.js:8-18 | parsing distributes over a split of the data lines, so the output keeps line order |
| Csv.ParseSpec | src/utils.js:2-3 | fewer than two non-blank lines give no rows; otherwise at most one row per data line |
| Csv.ParseLine | src/utils.js:10-18 | the outer loop's body and its inner loop over the headers give exactly the line's rows |
| Csv.ParseCSV | src/utils.js:1-21 | fewer than two non-blank lines give no rows; otherwise the trimmed fields of the first non-blank line are the headers and every later non-blank line contributes its rows, in line order |
| Csv.ParseDataLines | src/utils.js:8-19 | the loop over the lines after the header line collects exactly their rows, in order |
| BatchAdd.DropEmpty | src/components/BatchAddModal.js:14 | `filter(Boolean)` keeps exactly the non-empty items |
| BatchAdd.DropEmptyAppend | src/components/BatchAddModal.js:14 | the filter distributes over concatenation, so the kept items keep their order |
| BatchAdd.DropEmptySingle | src/components/BatchAddModal.js:14 | a single item is kept exactly when it is not empty |
| BatchAdd.ParseItems | src/components/BatchAddModal.js:11-15 | `rawText.split(separator).map(trim).filter(Boolean)` with the literal `\n` turned into a line break; `ParseItemsFacts`, `ParseItemsCons`, `ParseItemsPiece` and `ParseItemsOfLines` state what items it gives |
| BatchAdd.ParseItemsFacts | src/components/BatchAddModal.js:11-15 | empty text gives no items; every item is non-empty, trimmed, and the trimmed form of a piece of the text |
| BatchAdd.ParseItemsCons | src/components/BatchAddModal.js:11-15 | a first piece followed by the separator gives its trimmed text, when that is not empty, ahead of the items of the rest of the text |
| BatchAdd.ParseItemsPiece | src/components/BatchAddModal.js:11-15 | a text without the separator gives its trimmed text as the only item, or no item when that is empty |
| BatchAdd.ParseItemsOfLines | src/components/BatchAddModal.js:12-14 | with the default `\n` separator, items pasted one per line come back unchanged and in order |
| BatchAdd.TypeOf | src/components/BatchAddModal.js:22 | the type is "phrase" exactly when the item contains a space, and "word" otherwise |
| BatchAdd.NewEntries | src/components/BatchAddModal.js:18-23 | one draft per item, in order, with English set to the item, empty translations and the inferred type |
| BatchAdd.BatchAddModal.constructor | src/components/BatchAddModal.js:5-9 | the wizard starts on step 1 with empty text, the `\n` separator, no drafts and cursor 0 |
| BatchAdd.BatchAddModal.SetRawText | src/components/BatchAddModal.js:86 | only the text changes |
| BatchAdd.BatchAddModal.SetSeparator | src/components/BatchAddModal.js:97 | only the separator changes |
| BatchAdd.BatchAddModal.NextStep1 | src/components/BatchAddModal.js:17-27 | the drafts are those of the parsed items, the cursor is 0 and the step is 2 |
| BatchAdd.BatchAddModal.TranslationChange | src/components/BatchAddModal.js:29-33 | only the chosen translation of the draft under the cursor changes; the length and the other drafts stay the same |
| BatchAdd.BatchAddModal.NextWord | src/components/BatchAddModal.js:35-42 | the cursor advances while below the last draft, and otherwise the step becomes 3; the cursor stays on a draft |
| BatchAdd.BatchAddModal.PrevWord | src/components/BatchAddModal.js:44-48 | the cursor moves back only when above 0 |
| BatchAdd.BatchAddModal.BackToEditing | src/components/BatchAddModal.js:168 | the review step returns to step 2 with nothing else changed |
| BatchAdd.BatchAddModal.Close | src/components/BatchAddModal.js:55-63 | every field returns to its initial value |
| BatchAdd.BatchAddModal.Confirm | src/components/BatchAddModal.js:50-53 | the drafts as they stand are handed over, then the wizard is reset |
| App.Without | src/App.js:57 | `data.filter((_, index) => index !== i)`; `WithoutSpec` proves what it removes and keeps |
| App.WithoutSpec | src/App.js:56-57 | deleting index `i` removes exactly that element and keeps the order of the rest; an index outside the list deletes nothing |
| App.UpdateCell | src/App.js:62-64 | the copied list with `Put` applied to one row; `UpdateCellFacts` proves what changes |
| App.UpdateCellFacts | src/App.js:62-64 | an edit keeps the length, the other rows and the row's other fields; the column takes the value, except that `__proto__` changes nothing; the column joins the keys only when it is new, and `Object.keys` order is kept |
| App.SearchResults | src/App.js:81 | the results are rows of the data, and an empty query gives the data itself |
| App.Dictionary.constructor | src/App.js:14 | the list starts empty |
| App.Dictionary.Load | src/App.js:22-27 | a saved list replaces the empty one; with nothing saved the list stays |
| App.Dictionary.AddEntry | src/App.js:50-54 | the entry goes at the end, and the same list is saved |
| App.Dictionary.DeleteEntry | src/App.js:56-60 | the row at the index is removed with the rest kept in order, and the result is saved |
| App.Dictionary.UpdateEntry | src/App.js:62-67 | one cell of one row changes, and the result is saved |
| App.Dictionary.ImportCsv | src/App.js:39-45 | the parsed rows go after the existing rows, in order, and the result is saved |
| AddEntryForm.WithField | src/components/AddEntryForm/AddEntryForm.js:12-15 | the named field takes the value and every other field keeps its value |
| AddEntryForm.WithFieldSame | src/components/AddEntryForm/AddEntryForm.js:14 | writing a field's own value back changes nothing |
| AddEntryForm.Form.constructor | src/components/AddEntryForm/AddEntryForm.js:5-10 | the draft starts blank with Type "word" |
| AddEntryForm.Form.Change | src/components/AddEntryForm/AddEntryForm.js:12-15 | only the named field changes |
| AddEntryForm.Form.Submit | src/components/AddEntryForm/AddEntryForm.js:17-23 | the entry is handed over, exactly once, exactly when English, Telugu and Konkani are all filled in; then the form is blank, and a rejected submit changes nothing |
| DataTable.Headers | src/components/DataTable/DataTable.js:8 | the keys of the first row, or none for an empty list; `HeadersOfEntries` and `HeadersOfImport` state what they are |
| DataTable.HeadersOfEntries | src/components/DataTable/DataTable.js:8 | a table whose first row came from the form shows the four entry columns |
| DataTable.HeadersOfImport | src/components/DataTable/DataTable.js:8 | after an import into an empty dictionary, the headers are the file's header names other than `__proto__`, each once, in `Object.keys` order; with distinct names the others follow the file's order |
| DataTable.CellText | src/components/DataTable/DataTable.js:52 | the text the editor loads for a cell: the row's own value under the header, or "" when the row lacks it |
| DataTable.Editor.constructor | src/components/DataTable/DataTable.js:5-6 | no cell is open and the edit text is empty |
| DataTable.Editor.DoubleClick | src/components/DataTable/DataTable.js:10-13 | the cell opens and holds the row's own value under the header, or "" when the row lacks it |
| DataTable.Editor.Blur | src/components/DataTable/DataTable.js:15-20 | an open cell is saved once with the edited text and closed; with no cell open nothing happens |
| DataTable.Editor.Change | src/components/DataTable/DataTable.js:22-24 | only the edit text changes |
| DataTable.Editor.KeyDown | src/components/DataTable/DataTable.js:26-32 | Enter saves as a blur does; Escape closes without saving; other keys do nothing |
| DataTable.EditCell | src/components/DataTable/DataTable.js:10-24 | opening a cell, typing and leaving it saves exactly the typed text for that cell |
| DataTable.AbandonEdit | src/components/DataTable/DataTable.js:26-31 | opening a cell, typing and pressing Escape saves nothing |
| Quiz.OtherThan | src/Quiz.js:54 | keeps exactly the matches whose English differs from the answer's |
| Quiz.SimilarDistractors | src/Quiz.js:51-57 | three distractors, or every match with another English text when there are fewer; all are fuzzy matches and none has the answer's English |
| Quiz.Eligible | src/Quiz.js:62 | the entries the top-up may still add are the pool entries that differ in English from the answer and from every chosen distractor |
| Quiz.EligibleNonEmpty | src/Quiz.js:60-65 | while fewer than three distractors are chosen, a pool with at least four identities has an entry left to add |
| Quiz.TopUp | src/Quiz.js:60-65 | keeps the fuzzy distractors and adds pool entries without repeating an English text or using the answer's; it stops with three, or when nothing is left to add, and always reaches three when the pool has four identities |
| Quiz.StuckPoolIsWords | src/Quiz.js:25 | the stuck pool of the finding is a word list |
| Quiz.StepAsWritten | src/Quiz.js:60-65 | one round of the top-up loop as written: a draw from the whole pool, kept only when its English is new; `TopUpSpinsAsWritten` shows it can leave the distractors unchanged forever |
| Quiz.TopUpSpinsAsWritten | src/Quiz.js:60-65 | as written, once no pool entry can be added the guard stays true and no round changes anything |
| Quiz.TopUpSpinsExample | src/Quiz.js:60-65 | a concrete pool on which the loop as written never ends |
| Quiz.AnswerOptions | src/Quiz.js:69-72 | the answer's translation first, then one distractor translation per distractor, in order |
| Quiz.ClickAsWritten | src/Quiz.js:88-107 | `handleOptionClick` as written, whose guard lets a click through after an empty option was selected; `SecondClickAsWritten` shows the double count |
| Quiz.Click | src/Quiz.js:88-107 | the first click selects the option, counts one question and scores exactly when the option is the answer; later clicks change nothing |
| Quiz.ClickKeepsScoreBound | src/Quiz.js:92-107 | the score never exceeds the number of questions answered |
| Quiz.ClicksAfterAnswer | src/Quiz.js:89 | once answered, any series of clicks leaves the question's state as it was |
| Quiz.SecondClickAsWritten | src/Quiz.js:89 | as written, a click on an empty option and then on the answer counts two questions and one point; with the intended guard, one question and no point |
| Quiz.QuizGame.constructor | src/Quiz.js:12-22 | no question, no options, no selection, score 0, no questions asked |
| Quiz.QuizGame.Generate | src/Quiz.js:27-74 | the selection is cleared; a pool below four clears the question; otherwise the answer comes from the pool, there are at most three distractors (three when the pool has four identities) from the pool without the answer's English, and the options are a rearrangement of the answer and distractor translations |
| Quiz.QuizGame.OptionClick | src/Quiz.js:88-107 | a click updates the tally as `Click` does and keeps the score within the questions asked |
| Matching.MatchRelations | src/MatchingGame.js:55-56 | one match arrow per matched word, in match order |
| Matching.IdInjective | src/MatchingGame.js:72 | element ids are equal exactly when the columns and English texts are |
| Matching.IsMatchedDecodes | src/MatchingGame.js:71-74 | with match arrows only, a word is matched in a column exactly when its English was matched |
| Matching.AllMatched | src/MatchingGame.js:65-69 | when there are as many arrows as words, every word is matched in both columns |
| Matching.MatchingGame.constructor | src/MatchingGame.js:12-18 | no words, no selection, no arrows, not won |
| Matching.MatchingGame.Setup | src/MatchingGame.js:22-30 | arrows and win are cleared, and the selection is kept; up to five dictionary words are in play; both columns rearrange them |
| Matching.MatchingGame.Select | src/MatchingGame.js:38-63 | a left click selects; a right click with no selection does nothing; otherwise exactly one arrow is added exactly when the English texts agree, and the selection is cleared either way |
| Matching.MatchingGame.CheckWin | src/MatchingGame.js:65-69 | won once the word list is non-empty and has as many arrows as words, and then every word is matched in both columns |
| Bubbles.Foreign | src/BubbleGame.js:29 | keeps exactly the dictionary words whose English no target shares |
| Bubbles.ForeignAppend | src/BubbleGame.js:29 | the filter distributes over concatenation, so the kept words keep their order |
| Bubbles.ForeignSingle | src/BubbleGame.js:29 | a single word is kept exactly when no target shares its English text |
| Bubbles.Distractors | src/BubbleGame.js:29 | the distractors are the first words of the dictionary that share no English text with a target, in order: five of them, or all when there are fewer |
| Bubbles.Spawned | src/BubbleGame.js:35-44 | one active bubble per word, numbered by position; each starts above the area at a spawn speed |
| Bubbles.SpawnedOnScreen | src/BubbleGame.js:35-45 | the shuffled bubbles are one per word, all active and on screen |
| Bubbles.WithStatus | src/BubbleGame.js:61 | the bubbles with the clicked one given the new status: the length is kept, and only that bubble's status changes |
| Bubbles.WithStatusOnScreen | src/BubbleGame.js:61 | marking bubbles burst or dispersed moves none |
| Bubbles.Fall | src/BubbleGame.js:85-93 | one bubble in one frame: an inactive one is kept, an active one falls by its speed, and past 110 it returns to `y = -10` at `x = r * 90`; `FallFacts` states what it keeps |
| Bubbles.FallFacts | src/BubbleGame.js:85-93 | inactive bubbles stay as they are; an active one moves down by its speed, or returns to the top at `y = -10` with a new x within the area, and changes nothing else |
| Bubbles.Kept | src/BubbleGame.js:94 | the filter keeps exactly the active bubbles and the inactive ones lower than -50 |
| Bubbles.KeptActives | src/BubbleGame.js:94 | the filter removes no active bubble: the active bubbles come out in order, as they went in |
| Bubbles.Frame | src/BubbleGame.js:83-94 | one frame: every bubble falls, then the filter of `Kept` applies; `FrameFacts` states what it keeps |
| Bubbles.FrameFacts | src/BubbleGame.js:82-95 | a frame keeps every bubble on screen, and every active bubble is still there, moved |
| Bubbles.Uncollected | src/BubbleGame.js:32 | one uncollected target per selected word, in order |
| Bubbles.Collect | src/BubbleGame.js:62 | the current target, and no other, becomes collected |
| Bubbles.BubbleGame.constructor | src/BubbleGame.js:8-11 | no targets, no bubbles, index 0, playing |
| Bubbles.BubbleGame.Setup | src/BubbleGame.js:17-46 | playing from index 0 with up to five uncollected dictionary words; one active bubble per target and distractor, in shuffled order; the ledger is untouched |
| Bubbles.BubbleGame.Click | src/BubbleGame.js:54-79 | no effect once won; the target's bubble bursts and collects the target, then advances the index by one or wins on the last target; any other bubble disperses and adds one miss against the current target |
| Bubbles.BubbleGame.Animate | src/BubbleGame.js:82-97 | the bubbles become the frame of the old ones; the game state is kept |
| WordLane.Entrance | src/WordLaneGame.js:43 | a tile enters at an x in [110, 160) |
| WordLane.FreshSlots | src/WordLaneGame.js:36 | one unmatched, unpassed slot per round word, in order |
| WordLane.FreshTiles | src/WordLaneGame.js:39-46 | one sliding tile per word, in order, on lane `index % 4`, entering from the right at a spawn speed |
| WordLane.MarkMatched | src/WordLaneGame.js:101 | only the slots of the dropped word become matched |
| WordLane.MarkSkipped | src/WordLaneGame.js:183 | the slots of the missed word, and only those, are marked skipped; each slot keeps its word and passes |
| WordLane.SetPasses | src/WordLaneGame.js:187 | the slots of the missed word, and only those, take the new pass count; each slot keeps its word and its mark |
| WordLane.ReplaceSlots | src/WordLaneGame.js:113 | the slots of the matched word, and only those, become fresh slots of the new word; when the new word differs, no slot keeps the old one |
| WordLane.ReplaceTile | src/WordLaneGame.js:116-119 | the dropped tile, and only it, takes the new word, slides again and re-enters at the given x; every tile keeps its id, lane and speed |
| WordLane.WithStatus | src/WordLaneGame.js:104 | the dropped tile, and only it, takes the new status; every tile keeps its id, word, lane and place |
| WordLane.SlotUpdatesKeepWords | src/WordLaneGame.js:101-188 | a match, a skip or a new pass count never changes a slot's word; a match or a skip sets the mark of exactly the word's slots and keeps every mark already set, and a pass count changes nothing else |
| WordLane.Available | src/WordLaneGame.js:107-109 | keeps exactly the dictionary words that are neither in the bar nor on a tile |
| WordLane.NewWord | src/WordLaneGame.js:107-110 | the replacement is a dictionary word, and unused by the bar and the tiles whenever such a word exists |
| WordLane.CurrentTarget | src/WordLaneGame.js:160 | the first slot neither matched nor skipped, or none when every slot is |
| WordLane.Slide | src/WordLaneGame.js:152-167 | one tile in one frame: a correct or dragged tile holds still, another moves left by its speed and re-enters from the right once past -20; `SlideFacts` states what it keeps |
| WordLane.SlideFacts | src/WordLaneGame.js:150-167 | correct and dragged tiles hold still; others move left by their speed, or re-enter in [110, 160) once past -20; only a tile's position changes |
| WordLane.Slid | src/WordLaneGame.js:150-168 | every tile slides as `Slide` does, in order, with one random value each |
| WordLane.SlideAll | src/WordLaneGame.js:150-167 | the loop slides every tile as `Slide` does and keeps each within its lane; the miss flag is set exactly when a tile of the current target wraps |
| WordLane.NewRoundSound | src/WordLaneGame.js:23-49 | a new round of at most five words, its tiles drawn from a rearrangement of the same words, with five lives and 120 seconds, satisfies the game invariant |
| WordLane.WordLaneGame.constructor | src/WordLaneGame.js:10-19 | ready, no score, high score 0, five lives, a full clock |
| WordLane.WordLaneGame.LoadHighScore | src/WordLaneGame.js:54 | the saved high score is shown |
| WordLane.WordLaneGame.Setup | src/WordLaneGame.js:23-49 | 120 seconds, five lives, no score, ready; a bar of up to five unmatched, unpassed dictionary words, and one tile per bar word |
| WordLane.WordLaneGame.Start | src/WordLaneGame.js:258 | the game starts playing with nothing else changed |
| WordLane.WordLaneGame.EndGame | src/WordLaneGame.js:64-68 | the game ends, and a score above the high score becomes the high score, shown and saved |
| WordLane.WordLaneGame.Tick | src/WordLaneGame.js:58-77 | while playing, an empty clock ends the game, with the high score rule of `EndGame`, and a running clock counts down by one; otherwise the state and clock are kept; the bar, tiles, score, lives and ledger never change |
| WordLane.WordLaneGame.Drop | src/WordLaneGame.js:92-143 | a correct drop adds 10 points and three seconds, capped at 120, marks only that word matched and leaves a replacement pending; a wrong drop on the last life ends the game with lives and ledger untouched; otherwise it costs one life and records one miss against the dragged word; the high score, shown and saved, changes only when the drop ends the game, and ledger counts never go down |
| WordLane.WordLaneGame.FinishReplacement | src/WordLaneGame.js:105-120 | the matched word's slots and the dropped tile take a new word, as fresh slots and a sliding tile re-entering from the right; nothing else changes |
| WordLane.WordLaneGame.FinishReactivate | src/WordLaneGame.js:134-136 | the tile slides again and nothing else changes |
| WordLane.WordLaneGame.CountPass | src/WordLaneGame.js:171-190 | the missed word's pass count rises by one; the fifth pass skips the word at the cost of a life, or, on the last life, ends the game with the high score rule of `EndGame` and leaves the bar and lives as they were; the tiles, score, clock and ledger are kept |
| WordLane.WordLaneGame.Animate | src/WordLaneGame.js:145-193 | the tiles slide; when a tile of the current target wraps, the word's pass count rises; the fifth pass skips the word at the cost of a life, or ends the game on the last life; otherwise the bar and lives are kept; the high score, shown and saved, changes only when the game ends |

These five classes keep an invariant, `Valid()`, that their methods preserve (App.Dictionary, AddEntryForm.Form and DataTable.Editor need none):

- Bubble: exactly the targets before the index are collected, and every bubble is on screen.
- Word Lane: one tile per slot, 1 to 5 lives, 0 to 120 seconds, pass counts below five, and tiles within their lanes.
- Matching: both columns rearrange the words in play, and the arrows are the match arrows of distinct words in play.
- Quiz: the score is at most the number of questions asked.
- Batch-add wizard: the cursor stays on a draft.

## Left out

- The mistake-weight sort before each drill's shuffle (for example src/WordLaneGame.js:29-33) is left out. A shuffle follows it, so only the shuffled order matters, and every rearrangement is allowed.
- Fuse.js ranking is left out. The fuzzy matches in the quiz and the search results in the shell are caller-supplied lists drawn from the pool, or from the data.
- `Shuffles.Draw` and `Shuffles.Shuffle` take an out-of-range pick as the first element. This is a modelling convention for injected randomness, not source behaviour.
- `Date.now()` in the bubble and tile ids is left out. An id is the item's position in its list.
- Positions and speeds are exact reals, so floating-point rounding is not modelled. `Math.random()` values are parameters in [0, 1).
- `requestAnimationFrame`, `setInterval` and `setTimeout` scheduling and cancellation are left out, and so are React's batching and stale closures. Each callback is a method run on the current state. Two consequences:
  - FinishReplacement reads the current bar and tiles, not the ones captured at the drop.
  - WordLane.WordLaneGame.Animate computes the pass flag synchronously, where the source sets it inside a state updater.
- In-place mutation of shared row objects is modelled on values, so the aliasing is not captured. This covers `handleUpdateEntry` (src/App.js:64) and `handleTranslationChange` (src/components/BatchAddModal.js:31).
- DataTable passes row indexes of the filtered search results to handlers that index the full list (src/App.js:81, 128-132). The model indexes the full list.
- The mount effects' size gates are left out: five words for the Bubble, Word Lane and Matching drills, and four entries for the quiz. Each Setup is modelled for any dictionary.
- The Word Lane `currentTargetIndex` is set once and never read, so it is left out.
- Drag plumbing is left out: `dataTransfer` JSON, drag start and end, and drag over. A drop takes the dragged tile and the slot. The dragged tile's id is a parameter of WordLane.WordLaneGame.Animate.
- Presentation is left out: JSX, CSS, confetti, feedback texts, shake and flash flags, react-archer arrow styles, and Matching's temporary mismatch arrow (`tempRelation`).
- The quiz's delayed advance to the next question and its confetti callback are left out. They only call `generateQuestion`, which is modelled.
- The settings store and the Settings, Learn, Search, ConfirmationModal and FileUpload components are left out. FileReader I/O is also left out: the import takes the file's text.
- The `Strings` module works on Unicode scalar values rather than UTF-16 code units.
- Records.GetDefined: speaks of own keys only. In JavaScript, `obj[k]` for a name that is not an own key but names an `Object.prototype` member (`__proto__`, `constructor`, `toString` and the like) gives the inherited member. The model's `Get` gives no value for it.
- Ledger.Bump: treats every English text alike and adds one. In JavaScript, `mistakeWeights[key] || 0` (src/BubbleGame.js:76, src/WordLaneGame.js:140) reads the inherited member when the key names an `Object.prototype` member. For `__proto__` the assignment is then ignored, so the count never rises. For `constructor` the stored value becomes the function's source text with "1" appended, and each later miss appends another "1". The ledger is modelled as a map from text to a count, so these keys are not modelled.
- DataTable.Editor.DoubleClick: opens a cell that is missing from its row with the text "". The headers are the keys of the first row (src/components/DataTable/DataTable.js:8), and every row is read with them (lines 52 and 67). A later row can lack one, for example a row imported from a file with other headers. JavaScript then loads `undefined` into the editor, and a blur writes `undefined` into that row. The model loads and writes "". A header that names an `Object.prototype` member reads the inherited member, as noted for Records.GetDefined.
- BatchAdd.ParseItemsCons and BatchAdd.ParseItemsPiece are stated for a non-empty separator; with an empty separator the text splits into characters, and only BatchAdd.ParseItemsFacts describes the items.
- Bubbles.BubbleGame.Setup asks for at least ten spawn draws, enough for the largest round.
- On these points the code differs from the design description, and the model follows the code:
  - The quiz never writes the mistake ledger.
  - A wrong Word Lane drop on the last life ends the game without taking the life and without recording the miss.
  - The Bubble distractors are the first five eligible dictionary words, not a random draw.
  - Delayed callbacks carry no guard against a superseded round.

## Findings

| source | as written | input that shows it | evidently intended | confidence | as-written member | corrected member |
|---|---|---|---|---|---|---|
| src/Quiz.js:60-65 | The top-up loop runs while the pool has more entries than the distractors plus one. It draws from the whole pool and keeps only entries with a new English text. | The word pool "cat", "dog", "cat", "dog" (the same two words imported twice), with question "cat". Once "dog" is chosen, the guard stays true (1 < 3 and 4 > 2), but no draw can be kept, so the loop never ends. | Stop once no pool entry can be added: three distractors, or the pool's distinct English texts used up. | not executed | Quiz.StepAsWritten, Quiz.TopUpSpinsExample | Quiz.TopUp |
| src/Quiz.js:89 | `if (selectedAnswer) return` treats a selected empty string as no selection. | An option whose text is empty, such as a batch-added entry whose translation was never filled in. A click on it, followed by a click on the answer, counts two questions and one point. | Only the first click of a question counts. | not executed | Quiz.ClickAsWritten, Quiz.SecondClickAsWritten | Quiz.Click |
