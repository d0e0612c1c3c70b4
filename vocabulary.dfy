/** Dictionary entries as the drills and forms see them. */
module Vocabulary {
  import opened Wrappers
  import opened Records
  import opened Shuffles

  /** One bilingual entry; `English` is its identity and `Type` is "word" or "phrase". */
  datatype Entry = Entry(English: string, Telugu: string, Konkani: string, Type: string)

  /** The learning language chosen in the settings. */
  datatype Language = Telugu | Konkani

  const BlankEntry := Entry("", "", "", "word")

  /** `entry[learningLanguage]`. */
  function Translation(e: Entry, lang: Language): string
  {
    match lang
    case Telugu => e.Telugu
    case Konkani => e.Konkani
  }

  /** `entry[lang] = value` for one of the two translation fields. */
  function WithTranslation(e: Entry, lang: Language, value: string): (e': Entry)
    ensures Translation(e', lang) == value
    ensures forall other :: other != lang ==> Translation(e', other) == Translation(e, other)
    ensures e'.English == e.English && e'.Type == e.Type
  {
    match lang
    case Telugu => e.(Telugu := value)
    case Konkani => e.(Konkani := value)
  }

  /** `data.filter(item => item.Type === kind)`. */
  function OfType(data: seq<Entry>, kind: string): (r: seq<Entry>)
    ensures |r| <= |data|
    ensures forall e :: e in r <==> e in data && e.Type == kind
    ensures multiset(r) <= multiset(data)
  {
    if data == [] then []
    else
      assert data == [data[0]] + data[1..];
      (if data[0].Type == kind then [data[0]] else []) + OfType(data[1..], kind)
  }

  /**
   * The filter works entry by entry: it distributes over concatenation.
   * With `OfTypeSingle` this says the kept entries stay in their order.
   */
  lemma {:induction false} OfTypeAppend(a: seq<Entry>, b: seq<Entry>, kind: string)
    ensures OfType(a + b, kind) == OfType(a, kind) + OfType(b, kind)
  {
    if a == [] {
      assert a + b == b;
    } else {
      var t := a[1..];
      assert (a + b)[0] == a[0] && (a + b)[1..] == t + b;
      OfTypeAppend(t, b, kind);
    }
  }

  /** Each entry carrying the tag is kept exactly as often as it occurs; no other entry is kept. */
  lemma {:induction false} OfTypeCount(data: seq<Entry>, kind: string, e: Entry)
    ensures multiset(OfType(data, kind))[e] == if e.Type == kind then multiset(data)[e] else 0
  {
    if data != [] {
      assert data == [data[0]] + data[1..];
      OfTypeCount(data[1..], kind, e);
    }
  }

  /** A single entry is kept exactly when it carries the tag. */
  lemma OfTypeSingle(e: Entry, kind: string)
    ensures OfType([e], kind) == if e.Type == kind then [e] else []
  {
    assert [e][1..] == [];
  }

  /** Filtering a list whose entries all carry the tag keeps the whole list. */
  lemma {:induction false} OfTypeAll(data: seq<Entry>, kind: string)
    requires forall e :: e in data ==> e.Type == kind
    ensures OfType(data, kind) == data
  {
    if data != [] {
      assert data == [data[0]] + data[1..];
      assert data[0] in data;
      assert forall e :: e in data[1..] ==> e in data;
      OfTypeAll(data[1..], kind);
    }
  }

  /** The different English texts of a list of entries. */
  function Identities(s: seq<Entry>): set<string>
  {
    set e | e in s :: e.English
  }

  /** At most as many identities as entries. */
  lemma {:induction false} IdentitiesBound(s: seq<Entry>)
    ensures |Identities(s)| <= |s|
  {
    if s != [] {
      IdentitiesBound(s[1..]);
      assert Identities(s) == {s[0].English} + Identities(s[1..]);
    }
  }

  /** The entries tagged "word": the vocabulary of the Bubble, Word Lane and Matching drills. */
  function Words(data: seq<Entry>): seq<Entry>
  {
    OfType(data, "word")
  }

  /** The entries tagged "phrase". */
  function Phrases(data: seq<Entry>): seq<Entry>
  {
    OfType(data, "phrase")
  }

  /**
   * The first `size` words of a rearrangement of the dictionary's words are
   * words of the dictionary, and there are `size` of them unless the
   * dictionary has fewer.
   */
  lemma RoundFromDictionary(data: seq<Entry>, shuffled: seq<Entry>, size: nat)
    requires multiset(shuffled) == multiset(Words(data))
    ensures |shuffled| == |Words(data)|
    ensures |Take(shuffled, size)| == if |Words(data)| < size then |Words(data)| else size
    ensures forall w :: w in Take(shuffled, size) ==> w in data && w.Type == "word"
  {
    assert |multiset(shuffled)| == |shuffled| && |multiset(Words(data))| == |Words(data)|;
    forall w | w in Take(shuffled, size) ensures w in data && w.Type == "word" {
      assert w in multiset(shuffled);
      assert w in Words(data);
    }
  }

  /** The object form of an entry, fields in the order the forms create them. */
  function ToRecord(e: Entry): (r: Record)
    ensures UniqueKeys(r) && KeyOrdered(r)
    ensures Keys(r) == ["English", "Telugu", "Konkani", "Type"]
  {
    assert forall k :: k in ["English", "Telugu", "Konkani", "Type"] ==> !IsDigit(k[0]);
    [Field("English", e.English), Field("Telugu", e.Telugu), Field("Konkani", e.Konkani), Field("Type", e.Type)]
  }

  /** Reading back the object form gives the entry again. */
  lemma RecordRoundTrip(e: Entry)
    ensures FromRecord(ToRecord(e)) == e
  {
    var r := ToRecord(e);
    GetAt(r, 0);
    GetAt(r, 1);
    GetAt(r, 2);
    GetAt(r, 3);
  }

  /** Reads an object as an entry; a missing field reads as the empty string. */
  function FromRecord(r: Record): Entry
  {
    Entry(Text(Get(r, "English")), Text(Get(r, "Telugu")), Text(Get(r, "Konkani")), Text(Get(r, "Type")))
  }

  function Text(v: Option<string>): string
  {
    match v
    case Some(s) => s
    case None => ""
  }
}
