/** The dictionary table (DataTable.js): column headers and the in-place cell editor. */
module DataTable {
  import opened Wrappers
  import opened Records
  import opened Vocabulary
  import opened Collections
  import opened Csv

  /** `data.length > 0 ? Object.keys(data[0]) : []`. */
  function Headers(data: seq<Record>): seq<string>
  {
    if |data| > 0 then Keys(data[0]) else []
  }

  /** A table whose first row came from the entry form shows the four entry columns. */
  lemma HeadersOfEntries(e: Entry, rest: seq<Record>)
    ensures Headers([ToRecord(e)] + rest) == ["English", "Telugu", "Konkani", "Type"]
  {
  }

  /**
   * A table filled by importing a file into an empty dictionary shows the
   * file's header names other than `__proto__`, each once, in `Object.keys`
   * order: array-index names first, ascending, then the others in header
   * order when the names are distinct.
   */
  lemma HeadersOfImport(csvData: string)
    requires ParseSpec(csvData) != []
    ensures var header := HeaderRow(Lines(csvData)[0]);
      var shown := Headers(ParseSpec(csvData));
      Distinct(shown) && OrderedKeys(shown) &&
      (forall k :: k in shown <==> k in header && k != ProtoKey) &&
      (Distinct(header) ==> NamedKeys(shown) == NamedKeys(header))
  {
    var lines := Lines(csvData);
    var rows := ParseSpec(csvData);
    ParsedRowKeys(HeaderRow(lines[0]), lines[1..]);
    assert rows[0] in rows;
  }

  /** `row[header]` as the editor shows it; a missing field shows as empty. */
  function CellText(row: Record, header: string): string
  {
    Text(Get(row, header))
  }

  /** `editingCell`: the row index and header of the cell open for editing. */
  datatype CellRef = CellRef(rowIndex: nat, header: string)

  /** One call of `onUpdateEntry(rowIndex, column, value)`. */
  datatype UpdateCall = UpdateCall(rowIndex: nat, column: string, value: string)

  class Editor {
    var editingCell: Option<CellRef>
    var editValue: string

    constructor ()
      ensures editingCell == None && editValue == ""
    {
      editingCell := None;
      editValue := "";
    }

    /** `handleDoubleClick`: opens the cell and loads its current text. */
    method DoubleClick(rows: seq<Record>, rowIndex: nat, header: string)
      requires rowIndex < |rows|
      modifies this
      ensures editingCell == Some(CellRef(rowIndex, header))
      ensures editValue == CellText(rows[rowIndex], header)
    {
      editingCell := Some(CellRef(rowIndex, header));
      editValue := CellText(rows[rowIndex], header);
    }

    /** `handleBlur`: an open cell is saved once with the edited text and closed; otherwise nothing happens. */
    method Blur() returns (call: Option<UpdateCall>)
      modifies this
      ensures old(editingCell).Some? ==>
        call == Some(UpdateCall(old(editingCell).value.rowIndex, old(editingCell).value.header, old(editValue)))
      ensures old(editingCell).None? ==> call == None
      ensures editingCell == None && editValue == old(editValue)
    {
      call := None;
      if editingCell.Some? {
        call := Some(UpdateCall(editingCell.value.rowIndex, editingCell.value.header, editValue));
        editingCell := None;
      }
    }

    /** `handleChange`: only the edited text changes. */
    method Change(value: string)
      modifies this
      ensures editValue == value && editingCell == old(editingCell)
    {
      editValue := value;
    }

    /** `handleKeyDown`: Enter saves like a blur, Escape closes without saving, other keys do nothing. */
    method KeyDown(key: string) returns (call: Option<UpdateCall>)
      modifies this
      ensures key == "Enter" && old(editingCell).Some? ==>
        call == Some(UpdateCall(old(editingCell).value.rowIndex, old(editingCell).value.header, old(editValue)))
      ensures key != "Enter" || old(editingCell).None? ==> call == None
      ensures key == "Enter" || key == "Escape" ==> editingCell == None
      ensures key != "Enter" && key != "Escape" ==> editingCell == old(editingCell)
      ensures editValue == old(editValue)
    {
      if key == "Enter" {
        call := Blur();
      } else {
        call := None;
        if key == "Escape" {
          editingCell := None;
        }
      }
    }
  }

  /** A cell opened, retyped and saved produces exactly one update carrying the new text for that cell. */
  method EditCell(editor: Editor, rows: seq<Record>, rowIndex: nat, header: string, value: string)
    returns (call: Option<UpdateCall>)
    requires rowIndex < |rows|
    modifies editor
    ensures call == Some(UpdateCall(rowIndex, header, value))
    ensures editor.editingCell == None
  {
    editor.DoubleClick(rows, rowIndex, header);
    editor.Change(value);
    call := editor.Blur();
  }

  /** A cell opened and abandoned with Escape produces no update. */
  method AbandonEdit(editor: Editor, rows: seq<Record>, rowIndex: nat, header: string, value: string)
    returns (call: Option<UpdateCall>)
    requires rowIndex < |rows|
    modifies editor
    ensures call == None
    ensures editor.editingCell == None
  {
    editor.DoubleClick(rows, rowIndex, header);
    editor.Change(value);
    call := editor.KeyDown("Escape");
  }
}
