/** The add-entry form (AddEntryForm.js): one draft entry, edited field by field and submitted when complete. */
module AddEntryForm {
  import opened Wrappers
  import opened Vocabulary

  /** The `name` attributes of the form's inputs. */
  datatype FieldName = EnglishField | TeluguField | KonkaniField | TypeField

  /** `entry[name]`. */
  function FieldOf(e: Entry, name: FieldName): string
  {
    match name
    case EnglishField => e.English
    case TeluguField => e.Telugu
    case KonkaniField => e.Konkani
    case TypeField => e.Type
  }

  /** `{ ...entry, [name]: value }`. */
  function WithField(e: Entry, name: FieldName, value: string): (e': Entry)
    ensures FieldOf(e', name) == value
    ensures forall other :: other != name ==> FieldOf(e', other) == FieldOf(e, other)
  {
    match name
    case EnglishField => e.(English := value)
    case TeluguField => e.(Telugu := value)
    case KonkaniField => e.(Konkani := value)
    case TypeField => e.(Type := value)
  }

  /** Entries agree exactly when every field does, so `WithField`'s contract fixes its result. */
  lemma FieldsDetermine(e: Entry, f: Entry)
    requires forall name :: FieldOf(e, name) == FieldOf(f, name)
    ensures e == f
  {
    assert FieldOf(e, EnglishField) == FieldOf(f, EnglishField);
    assert FieldOf(e, TeluguField) == FieldOf(f, TeluguField);
    assert FieldOf(e, KonkaniField) == FieldOf(f, KonkaniField);
    assert FieldOf(e, TypeField) == FieldOf(f, TypeField);
  }

  /** Setting a field to the value it already has leaves the entry as it was. */
  lemma WithFieldSame(e: Entry, name: FieldName)
    ensures WithField(e, name, FieldOf(e, name)) == e
  {
    FieldsDetermine(WithField(e, name, FieldOf(e, name)), e);
  }

  /** `entry.English && entry.Telugu && entry.Konkani`: the three text fields are filled in. */
  predicate Complete(e: Entry)
  {
    e.English != "" && e.Telugu != "" && e.Konkani != ""
  }

  class Form {
    var entry: Entry

    constructor ()
      ensures entry == BlankEntry
    {
      entry := BlankEntry;
    }

    /** `handleChange`: the named field takes the input's value. */
    method Change(name: FieldName, value: string)
      modifies this
      ensures entry == WithField(old(entry), name, value)
    {
      entry := WithField(entry, name, value);
    }

    /** `handleSubmit`: a complete draft is handed over once and the form is cleared; an incomplete one stays. */
    method Submit() returns (added: Option<Entry>)
      modifies this
      ensures Complete(old(entry)) <==> added.Some?
      ensures Complete(old(entry)) ==> added == Some(old(entry)) && entry == BlankEntry
      ensures !Complete(old(entry)) ==> entry == old(entry)
    {
      added := None;
      if entry.English != "" && entry.Telugu != "" && entry.Konkani != "" {
        added := Some(entry);
        entry := BlankEntry;
      }
    }
  }
}
