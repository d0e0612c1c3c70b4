/**
 * The dictionary held by the application shell (App.js): the list of row
 * objects, the copy persisted under `telkonlingoData`, and the handlers that
 * append, delete, edit and import rows.
 */
module App {
  import opened Wrappers
  import opened Records
  import opened Csv

  /** `s.filter((_, index) => index !== i)`. */
  function Without<T>(s: seq<T>, i: int): seq<T>
    decreases |s|
  {
    if s == [] then [] else (if i == 0 then [] else [s[0]]) + Without(s[1..], i - 1)
  }

  /** Deleting removes exactly the element at a valid index and keeps the rest in order; any other index deletes nothing. */
  lemma WithoutSpec<T>(s: seq<T>, i: int)
    ensures 0 <= i < |s| ==> Without(s, i) == s[..i] + s[i + 1..]
    ensures !(0 <= i < |s|) ==> Without(s, i) == s
  {
    if 0 <= i < |s| {
      WithoutInside(s, i);
    } else {
      WithoutOutside(s, i);
    }
  }

  lemma {:induction false} WithoutInside<T>(s: seq<T>, i: nat)
    requires i < |s|
    ensures Without(s, i) == s[..i] + s[i + 1..]
    decreases |s|
  {
    var t := s[1..];
    if i == 0 {
      WithoutOutside(t, -1);
      assert s[..i] + s[i + 1..] == t;
    } else {
      WithoutInside(t, i - 1);
      assert [s[0]] + t[..i - 1] == s[..i];
      assert t[i..] == s[i + 1..];
    }
  }

  lemma {:induction false} WithoutOutside<T>(s: seq<T>, i: int)
    requires !(0 <= i < |s|)
    ensures Without(s, i) == s
    decreases |s|
  {
    if s != [] {
      WithoutOutside(s[1..], i - 1);
      assert [s[0]] + s[1..] == s;
    }
  }

  /** `newData[row][column] = value` on a copy of the list. */
  function UpdateCell(data: seq<Record>, row: nat, column: string, value: string): seq<Record>
    requires row < |data|
  {
    data[row := Put(data[row], column, value)]
  }

  /**
   * An edit keeps the length and changes only field `column` of row `row`;
   * the key order is JavaScript's, and `__proto__` changes nothing.
   */
  lemma UpdateCellFacts(data: seq<Record>, row: nat, column: string, value: string)
    requires row < |data|
    ensures |UpdateCell(data, row, column, value)| == |data|
    ensures forall i :: 0 <= i < |data| && i != row ==> UpdateCell(data, row, column, value)[i] == data[i]
    ensures column != ProtoKey ==> Get(UpdateCell(data, row, column, value)[row], column) == Some(value)
    ensures column == ProtoKey ==> UpdateCell(data, row, column, value) == data
    ensures forall k :: k != column ==> Get(UpdateCell(data, row, column, value)[row], k) == Get(data[row], k)
    ensures forall k :: k in Keys(UpdateCell(data, row, column, value)[row]) <==>
      k in Keys(data[row]) || (k == column && column != ProtoKey)
    ensures NamedKeys(Keys(UpdateCell(data, row, column, value)[row])) ==
      if Named(column) && column !in Keys(data[row]) then NamedKeys(Keys(data[row])) + [column]
      else NamedKeys(Keys(data[row]))
    ensures KeyOrdered(data[row]) ==> KeyOrdered(UpdateCell(data, row, column, value)[row])
  {
    PutGet(data[row], column, value);
    PutKeys(data[row], column, value);
  }

  /**
   * `searchResults`: with a query, the rows the fuzzy matcher returns (`found`,
   * supplied by the caller and drawn from `data`); without one, `data` itself.
   */
  function SearchResults(data: seq<Record>, query: string, found: seq<Record>): (r: seq<Record>)
    requires forall row :: row in found ==> row in data
    ensures forall row :: row in r ==> row in data
    ensures query == "" ==> r == data
  {
    if query != "" then found else data
  }

  class Dictionary {
    /** The rows on screen. */
    var data: seq<Record>
    /** What local storage holds under `telkonlingoData`; `None` before anything was saved. */
    var stored: Option<seq<Record>>

    constructor (persisted: Option<seq<Record>>)
      ensures data == [] && stored == persisted
    {
      data := [];
      stored := persisted;
    }

    /** The mount effect: a saved list replaces the empty one. */
    method Load()
      modifies this
      ensures stored == old(stored)
      ensures data == if old(stored).Some? then old(stored).value else old(data)
    {
      if stored.Some? {
        data := stored.value;
      }
    }

    /** `handleAddEntry`: the entry goes at the end and the new list is saved. */
    method AddEntry(entry: Record)
      modifies this
      ensures data == old(data) + [entry]
      ensures stored == Some(data)
    {
      data := data + [entry];
      stored := Some(data);
    }

    /** `handleDeleteEntry`: the row at `index` is removed and the new list is saved. */
    method DeleteEntry(index: int)
      modifies this
      ensures data == Without(old(data), index)
      ensures 0 <= index < |old(data)| ==> data == old(data)[..index] + old(data)[index + 1..]
      ensures stored == Some(data)
    {
      WithoutSpec(data, index);
      data := Without(data, index);
      stored := Some(data);
    }

    /** `handleUpdateEntry`: one cell of one row takes a new value and the list is saved. */
    method UpdateEntry(row: nat, column: string, value: string)
      requires row < |data|
      modifies this
      ensures data == UpdateCell(old(data), row, column, value)
      ensures stored == Some(data)
    {
      data := UpdateCell(data, row, column, value);
      stored := Some(data);
    }

    /** The reader's `onload` in `handleFileUpload`: the parsed rows go after the existing ones. */
    method ImportCsv(csvData: string)
      modifies this
      ensures data == old(data) + ParseSpec(csvData)
      ensures stored == Some(data)
    {
      var parsedData := ParseCSV(csvData);
      data := data + parsedData;
      stored := Some(data);
    }
  }
}
