/** `parseCSV` from utils.js: comma-separated text with a header line to row objects. */
module Csv {
  import opened Wrappers
  import opened Strings
  import opened Records
  import opened Collections

  /** `lines.filter(line => line.trim() !== '')`. */
  function NonBlank(lines: seq<string>): (r: seq<string>)
    ensures |r| <= |lines|
    ensures forall l :: l in r <==> l in lines && Trim(l) != ""
  {
    if lines == [] then []
    else (if Trim(lines[0]) != "" then [lines[0]] else []) + NonBlank(lines[1..])
  }

  /** The filter works line by line: it distributes over concatenation; with `NonBlankSingle`, the kept lines keep their order. */
  lemma {:induction false} NonBlankAppend(a: seq<string>, b: seq<string>)
    ensures NonBlank(a + b) == NonBlank(a) + NonBlank(b)
  {
    if a == [] {
      assert a + b == b;
    } else {
      var t := a[1..];
      assert (a + b)[0] == a[0] && (a + b)[1..] == t + b;
      NonBlankAppend(t, b);
    }
  }

  /** A single line is kept exactly when it is not blank. */
  lemma NonBlankSingle(l: string)
    ensures NonBlank([l]) == if Trim(l) != "" then [l] else []
  {
    assert [l][1..] == [];
  }

  /** The header names: the first line split on commas, each name trimmed. */
  function HeaderRow(line: string): seq<string>
  {
    TrimAll(Split(line, ","))
  }

  /** A data line is skipped when it has fewer fields than headers or only blank fields. */
  predicate SkipsRow(headers: seq<string>, fields: seq<string>)
  {
    |fields| < |headers| || forall field :: field in fields ==> Trim(field) == ""
  }

  /** `currentline[j] ? currentline[j].trim() : ''`. */
  function Cell(field: string): (v: string)
    ensures v == Trim(field)
  {
    if field != "" then Trim(field) else ""
  }

  /** The object after the first `n` rounds of `obj[headers[j]] = ...`. */
  function RowObject(headers: seq<string>, fields: seq<string>, n: nat): Record
    requires n <= |headers| <= |fields|
  {
    if n == 0 then [] else Put(RowObject(headers, fields, n - 1), headers[n - 1], Cell(fields[n - 1]))
  }

  /**
   * The object's keys are the header names other than `__proto__`, each
   * once, in `Object.keys` order.
   */
  lemma {:induction false} RowObjectKeys(headers: seq<string>, fields: seq<string>, n: nat)
    requires n <= |headers| <= |fields|
    ensures UniqueKeys(RowObject(headers, fields, n)) && KeyOrdered(RowObject(headers, fields, n))
    ensures forall k :: k in Keys(RowObject(headers, fields, n)) <==> k in headers[..n] && k != ProtoKey
  {
    if n > 0 {
      var prev, h := RowObject(headers, fields, n - 1), headers[n - 1];
      RowObjectKeys(headers, fields, n - 1);
      PutKeysStep(prev, headers[..n - 1], h, Cell(fields[n - 1]));
      PrefixSnoc(headers, n);
    }
  }

  /**
   * With distinct header names, the keys listed in creation order (neither
   * array indices nor `__proto__`) come out in header order.
   */
  lemma {:induction false} RowObjectKeyOrder(headers: seq<string>, fields: seq<string>, n: nat)
    requires n <= |headers| <= |fields| && Distinct(headers)
    ensures NamedKeys(Keys(RowObject(headers, fields, n))) == NamedKeys(headers[..n])
  {
    if n > 0 {
      RowObjectKeyOrder(headers, fields, n - 1);
      DistinctPrefix(headers, n);
      RowObjectKeyOrderStep(headers, fields, n);
    } else {
      assert Keys(RowObject(headers, fields, n)) == [] && headers[..n] == [];
    }
  }

  lemma RowObjectKeyOrderStep(headers: seq<string>, fields: seq<string>, n: nat)
    requires 0 < n <= |headers| <= |fields|
    requires NamedKeys(Keys(RowObject(headers, fields, n - 1))) == NamedKeys(headers[..n - 1])
    requires headers[n - 1] !in headers[..n - 1]
    ensures NamedKeys(Keys(RowObject(headers, fields, n))) == NamedKeys(headers[..n])
  {
    var prev, h := RowObject(headers, fields, n - 1), headers[n - 1];
    RowObjectKeys(headers, fields, n - 1);
    NamedKeysStep(prev, headers[..n - 1], h, Cell(fields[n - 1]));
    PrefixSnoc(headers, n);
  }

  /** Array-index headers come first: the object of the header line "id,2,name" has the keys 2, id, name. */
  lemma IndexHeadersFirst(fields: seq<string>)
    requires |fields| >= 3
    ensures Keys(RowObject(["id", "2", "name"], fields, 3)) == ["2", "id", "name"]
  {
    var headers := ["id", "2", "name"];
    var x, y, z := Cell(fields[0]), Cell(fields[1]), Cell(fields[2]);
    assert headers[0] == "id" && headers[1] == "2" && headers[2] == "name";
    assert RowObject(headers, fields, 1) == Put([], "id", x) by {
      assert RowObject(headers, fields, 0) == [];
    }
    assert RowObject(headers, fields, 3) == Put(Put(Put([], "id", x), "2", y), "name", z);
    IndexKeysFirst(x, y, z);
  }

  /** Each header other than `__proto__` maps to its trimmed field; a repeated header keeps the value assigned last. */
  lemma {:induction false} RowObjectValues(headers: seq<string>, fields: seq<string>, n: nat, j: nat)
    requires n <= |headers| <= |fields| && j < n
    requires forall j' :: j < j' < n ==> headers[j'] != headers[j]
    ensures headers[j] != ProtoKey ==> Get(RowObject(headers, fields, n), headers[j]) == Some(Trim(fields[j]))
  {
    var prev := RowObject(headers, fields, n - 1);
    assert RowObject(headers, fields, n) == Put(prev, headers[n - 1], Cell(fields[n - 1]));
    PutGet(prev, headers[n - 1], Cell(fields[n - 1]));
    if j < n - 1 {
      RowObjectValues(headers, fields, n - 1, j);
      assert headers[n - 1] != headers[j];
    }
  }

  /** Only the first `|headers|` fields of a line reach the object. */
  lemma {:induction false} ExtraFieldsIgnored(headers: seq<string>, f: seq<string>, g: seq<string>, n: nat)
    requires n <= |headers| <= |f| && |headers| <= |g| && f[..|headers|] == g[..|headers|]
    ensures RowObject(headers, f, n) == RowObject(headers, g, n)
  {
    if n > 0 {
      ExtraFieldsIgnored(headers, f, g, n - 1);
      assert f[n - 1] == f[..|headers|][n - 1] == g[..|headers|][n - 1] == g[n - 1];
    }
  }

  /** What one data line contributes to the result: nothing, or its object. */
  function LineRows(headers: seq<string>, line: string): (r: seq<Record>)
    ensures |r| <= 1
    ensures r == [] <==> SkipsRow(headers, Split(line, ","))
  {
    var fields := Split(line, ",");
    if SkipsRow(headers, fields) then [] else [RowObject(headers, fields, |headers|)]
  }

  /** The objects of the data lines, in line order. */
  function ParseLines(headers: seq<string>, lines: seq<string>): (rows: seq<Record>)
    ensures |rows| <= |lines|
  {
    if lines == [] then []
    else ParseLines(headers, lines[..|lines| - 1]) + LineRows(headers, lines[|lines| - 1])
  }

  /**
   * Every parsed object has exactly the header names other than `__proto__`
   * as keys, each once and in `Object.keys` order; with distinct headers the
   * keys listed in creation order follow the header order.
   */
  lemma {:induction false} ParsedRowKeys(headers: seq<string>, lines: seq<string>)
    ensures forall row :: row in ParseLines(headers, lines) ==>
      UniqueKeys(row) && KeyOrdered(row) && forall k :: k in Keys(row) <==> k in headers && k != ProtoKey
    ensures Distinct(headers) ==> forall row :: row in ParseLines(headers, lines) ==>
      NamedKeys(Keys(row)) == NamedKeys(headers)
  {
    if lines != [] {
      ParsedRowKeys(headers, lines[..|lines| - 1]);
      var fields := Split(lines[|lines| - 1], ",");
      if !SkipsRow(headers, fields) {
        RowObjectKeys(headers, fields, |headers|);
        if Distinct(headers) { RowObjectKeyOrder(headers, fields, |headers|); }
        assert headers[..|headers|] == headers;
      }
    }
  }

  lemma ParseLinesSnoc(headers: seq<string>, lines: seq<string>, line: string)
    ensures ParseLines(headers, lines + [line]) == ParseLines(headers, lines) + LineRows(headers, line)
  {
    assert (lines + [line])[..|lines|] == lines;
  }

  lemma SliceSnoc<T>(s: seq<T>, lo: nat, hi: nat)
    requires lo <= hi < |s|
    ensures s[lo..hi + 1] == s[lo..hi] + [s[hi]]
  {
  }

  lemma SnocSplit<T>(a: seq<T>, b: seq<T>)
    requires b != []
    ensures b == b[..|b| - 1] + [b[|b| - 1]]
    ensures a + b == (a + b[..|b| - 1]) + [b[|b| - 1]]
  {
  }

  lemma AppendAssoc<T>(x: seq<T>, y: seq<T>, z: seq<T>)
    ensures (x + y) + z == x + (y + z)
  {
  }

  /** Parsing distributes over a split of the data lines, so row order follows line order. */
  lemma {:induction false} ParseLinesAppend(headers: seq<string>, a: seq<string>, b: seq<string>)
    ensures ParseLines(headers, a + b) == ParseLines(headers, a) + ParseLines(headers, b)
    decreases |b|
  {
    if b == [] {
      assert a + b == a;
    } else {
      var b', last := b[..|b| - 1], b[|b| - 1];
      var rows := LineRows(headers, last);
      SnocSplit(a, b);
      ParseLinesAppend(headers, a, b');
      assert ParseLines(headers, a + b) == ParseLines(headers, a + b') + rows by {
        ParseLinesSnoc(headers, a + b', last);
      }
      assert ParseLines(headers, b) == ParseLines(headers, b') + rows by {
        ParseLinesSnoc(headers, b', last);
      }
      AppendAssoc(ParseLines(headers, a), ParseLines(headers, b'), rows);
    }
  }

  /** The non-blank lines of the text. */
  function Lines(csvData: string): seq<string>
  {
    NonBlank(Split(csvData, "\n"))
  }

  /** The value `parseCSV(csvData)` returns. */
  function ParseSpec(csvData: string): (rows: seq<Record>)
    ensures |Lines(csvData)| < 2 ==> rows == []
    ensures |Lines(csvData)| >= 2 ==> |rows| <= |Lines(csvData)| - 1
  {
    var lines := Lines(csvData);
    if |lines| < 2 then [] else ParseLines(HeaderRow(lines[0]), lines[1..])
  }

  /** The body of `parseCSV`'s outer loop for one data line: its object, or nothing when the line is skipped. */
  method ParseLine(headers: seq<string>, line: string) returns (rows: seq<Record>)
    ensures rows == LineRows(headers, line)
  {
    var currentline := Split(line, ",");
    if |currentline| < |headers| || forall field :: field in currentline ==> Trim(field) == "" {
      return [];
    }
    var obj: Record := [];
    for j := 0 to |headers|
      invariant obj == RowObject(headers, currentline, j)
    {
      obj := Put(obj, headers[j], if currentline[j] != "" then Trim(currentline[j]) else "");
    }
    rows := [obj];
  }

  /** `parseCSV`, loop for loop. */
  method ParseCSV(csvData: string) returns (result: seq<Record>)
    ensures result == ParseSpec(csvData)
  {
    var lines := Lines(csvData);
    if |lines| < 2 {
      return [];
    }
    var headers := HeaderRow(lines[0]);
    result := ParseDataLines(headers, lines);
  }

  /** The outer loop of `parseCSV`: the objects of the lines after the header line, in order. */
  method ParseDataLines(headers: seq<string>, lines: seq<string>) returns (result: seq<Record>)
    requires |lines| >= 1
    ensures result == ParseLines(headers, lines[1..])
  {
    result := [];
    for i := 1 to |lines|
      invariant result == ParseLines(headers, lines[1..i])
    {
      SliceSnoc(lines, 1, i);
      ParseLinesSnoc(headers, lines[1..i], lines[i]);
      var rows := ParseLine(headers, lines[i]);
      result := result + rows;
    }
    assert lines[1..] == lines[1..|lines|];
  }
}
