/** The tag generator of pkg/projman/tagging.go and app/tagging.go: from the
    records of a CSV export (category, subcategory, name), one tag assignment per
    data row, numbered per category/subcategory key and named by a template. The
    two files share the row loop; they differ in where format and start come
    from and in app's check for an empty format. Reading the files and the CSV
    and YAML codecs are not modelled: their outcomes are inputs. */
module Tagging {
  import opened Wrappers
  import opened Text

  datatype TagRow = TagRow(category: string, subcat: string, name: string)

  datatype TagSpec = TagSpec(format: string, start: int)

  datatype TagAssignment = TagAssignment(id: string, category: string, subcat: string, name: string)

  /** The errors GenerateTags returns (wrapped, never fatal). */
  datatype TagError =
    | ReadingSpec | ParsingSpec | OpenCsv | ReadCsv | WriteOutput
    | MissingFormat   // app only: the configured format is empty

  // ----- the rows that count -----

  /** A data row's contribution: nothing when it has fewer than three fields,
      otherwise its first three fields trimmed. */
  function RowOf(fields: seq<string>): seq<TagRow>
  {
    if |fields| < 3 then [] else [TrimmedRow(fields)]
  }

  /** The first three fields, whitespace-trimmed. */
  function TrimmedRow(fields: seq<string>): TagRow
    requires |fields| >= 3
  {
    TagRow(TrimSpace(fields[0]), TrimSpace(fields[1]), TrimSpace(fields[2]))
  }

  /** The rows of data records, in order. */
  function RowsOf(records: seq<seq<string>>): seq<TagRow>
  {
    if records == [] then []
    else RowsOf(records[..|records| - 1]) + RowOf(records[|records| - 1])
  }

  /** The kept rows of a CSV: record 0 is the header, whatever it holds. */
  function KeptRows(records: seq<seq<string>>): seq<TagRow>
  {
    if records == [] then [] else RowsOf(records[1..])
  }

  /** The records a reader of encoding/csv hands over: with the default
      FieldsPerRecord of 0 the first record fixes the number of fields, and
      ReadAll fails as a whole on a record of any other width. */
  predicate SameWidth(records: seq<seq<string>>)
  {
    forall i :: 0 <= i < |records| ==> |records[i]| == |records[0]|
  }

  /** ReadAll's field-count check on the parsed records. */
  function ReadAll(records: seq<seq<string>>): (r: Result<seq<seq<string>>, TagError>)
    ensures r.Ok? ==> r.value == records
    ensures r.Err? ==> r.error == ReadCsv && exists i :: 0 <= i < |records| && |records[i]| != |records[0]|
    ensures r.Ok? ==> forall i :: 0 <= i < |records| ==> |records[i]| == |records[0]|
  {
    if SameWidth(records) then Ok(records) else Err(ReadCsv)
  }

  // ----- numbering -----

  /** The counter key: category and subcategory joined with "-". */
  function KeyOf(r: TagRow): string
  {
    r.category + "-" + r.subcat
  }

  /** How many of rows have key k. */
  function CountKey(rows: seq<TagRow>, k: string): nat
  {
    if rows == [] then 0
    else CountKey(rows[..|rows| - 1], k) + (if KeyOf(rows[|rows| - 1]) == k then 1 else 0)
  }

  /** The counter map after rows: each key seen, with its number of rows. */
  function CounterOf(rows: seq<TagRow>): map<string, nat>
  {
    if rows == [] then map[]
    else
      var c := CounterOf(rows[..|rows| - 1]);
      var k := KeyOf(rows[|rows| - 1]);
      c[k := Get(c, k) + 1]
  }

  /** A Go map read: a missing key reads as 0. */
  function Get(c: map<string, nat>, k: string): nat
  {
    if k in c then c[k] else 0
  }

  /** The counter map holds, for every key, the number of rows with that key. */
  lemma {:induction false} CounterCounts(rows: seq<TagRow>, k: string)
    ensures Get(CounterOf(rows), k) == CountKey(rows, k)
  {
    if rows != [] {
      CounterCounts(rows[..|rows| - 1], k);
    }
  }

  // ----- naming -----

  /** The tag ID: every "{category}" replaced first, then every "{subcat}", then
      every "{id}" by the number rendered as "%02d". */
  function Expand(format: string, r: TagRow, id: int): string
  {
    var t := ReplaceAll(format, "{category}", r.category);
    var u := ReplaceAll(t, "{subcat}", r.subcat);
    ReplaceAll(u, "{id}", ZeroPad(id, 2))
  }

  /** The assignments for rows: the row with index i gets numeric id start + (the
      number of rows up to and including i with its key) - 1. */
  function AssignmentsOf(rows: seq<TagRow>, format: string, start: int): seq<TagAssignment>
  {
    if rows == [] then []
    else
      var r := rows[|rows| - 1];
      AssignmentsOf(rows[..|rows| - 1], format, start)
        + [TagFor(r, CountKey(rows, KeyOf(r)), format, start)]
  }

  /** The numeric id of the row with index i. */
  function NumericId(rows: seq<TagRow>, i: nat, start: int): int
    requires i < |rows|
  {
    start + CountKey(rows[..i + 1], KeyOf(rows[i])) - 1
  }

  // ----- the loop -----

  /** One more record adds its row, if any. */
  lemma RowsSnoc(seen: seq<seq<string>>, row: seq<string>)
    ensures RowsOf(seen + [row]) == RowsOf(seen) + RowOf(row)
  {
    assert (seen + [row])[..|seen|] == seen;
  }

  /** One kept row: the counter of its key goes up by one, and the assignment
      appended is numbered from the counter's new value. */
  lemma AssignStep(rows: seq<TagRow>, r: TagRow, format: string, start: int)
    ensures CounterOf(rows + [r]) == CounterOf(rows)[KeyOf(r) := Get(CounterOf(rows), KeyOf(r)) + 1]
    ensures AssignmentsOf(rows + [r], format, start)
      == AssignmentsOf(rows, format, start) + [TagFor(r, Get(CounterOf(rows), KeyOf(r)) + 1, format, start)]
  {
    assert (rows + [r])[..|rows|] == rows;
    CounterCounts(rows, KeyOf(r));
  }

  /** The rows kept from the first i records. */
  function KeptPrefix(records: seq<seq<string>>, i: nat): seq<TagRow>
    requires i <= |records|
  {
    if i == 0 then [] else RowsOf(records[1..i])
  }

  /** Record i adds its row to the kept rows, unless it is the header. */
  lemma KeptStep(records: seq<seq<string>>, i: nat)
    requires i < |records|
    ensures KeptPrefix(records, i + 1) == KeptPrefix(records, i) + (if i == 0 then [] else RowOf(records[i]))
  {
    if i > 0 {
      assert records[1..i + 1] == records[1..i] + [records[i]];
      RowsSnoc(records[1..i], records[i]);
    } else {
      assert records[1..1] == [];
    }
  }

  /** The header and short records add nothing. */
  lemma KeptStepSkip(records: seq<seq<string>>, i: nat)
    requires i < |records| && (i == 0 || |records[i]| < 3)
    ensures KeptPrefix(records, i + 1) == KeptPrefix(records, i)
  {
    KeptStep(records, i);
  }

  /** The assignment a kept row receives as the n-th of its key. */
  function TagFor(r: TagRow, n: int, format: string, start: int): TagAssignment
  {
    TagAssignment(Expand(format, r, start + n - 1), r.category, r.subcat, r.name)
  }

  /** One kept record carries the loop's state from record i to record i + 1:
      its trimmed row joins the kept rows, its key's counter goes up by one and
      its assignment, numbered from the new counter, is appended. */
  lemma KeepRecord(records: seq<seq<string>>, i: nat, rows: seq<TagRow>, counter: map<string, nat>,
                   assignments: seq<TagAssignment>, format: string, start: int,
                   rows': seq<TagRow>, counter': map<string, nat>, assignments': seq<TagAssignment>)
    requires 0 < i < |records| && |records[i]| >= 3
    requires rows == KeptPrefix(records, i) && counter == CounterOf(rows)
    requires assignments == AssignmentsOf(rows, format, start)
    requires var r := TrimmedRow(records[i]);
      var n := Get(counter, KeyOf(r)) + 1;
      && rows' == rows + [r]
      && counter' == counter[KeyOf(r) := n]
      && assignments' == assignments + [TagFor(r, n, format, start)]
    ensures rows' == KeptPrefix(records, i + 1) && counter' == CounterOf(rows')
    ensures assignments' == AssignmentsOf(rows', format, start)
  {
    KeptStep(records, i);
    AssignStep(rows, TrimmedRow(records[i]), format, start);
  }

  /** The row loop both GenerateTags share: skip the header and short rows, trim,
      bump the key's counter, expand the template, append. */
  method AssignTags(records: seq<seq<string>>, format: string, start: int) returns (assignments: seq<TagAssignment>)
    ensures assignments == AssignmentsOf(KeptRows(records), format, start)
  {
    assignments := [];
    var counter: map<string, nat> := map[];
    ghost var rows: seq<TagRow> := [];
    var i := 0;
    while i < |records|
      invariant 0 <= i <= |records|
      invariant rows == KeptPrefix(records, i)
      invariant counter == CounterOf(rows)
      invariant assignments == AssignmentsOf(rows, format, start)
    {
      if i > 0 && |records[i]| >= 3 {
        var r := TrimmedRow(records[i]);
        var key := KeyOf(r);
        var n := Get(counter, key) + 1;
        ghost var rows' := rows + [r];
        var counter' := counter[key := n];
        var assignments' := assignments + [TagFor(r, n, format, start)];
        KeepRecord(records, i, rows, counter, assignments, format, start, rows', counter', assignments');
        rows, counter, assignments := rows', counter', assignments';
      } else {
        KeptStepSkip(records, i);
      }
      i := i + 1;
    }
    if |records| > 0 {
      assert records[1..|records|] == records[1..];
    }
  }

  /** GenerateTags of pkg/projman: the spec's outcome (read, then parse), the
      CSV's outcome (open, then the parsed records, before the field-count
      check) and whether the output write fails are inputs; on success the
      assignments are what is written. */
  method GenerateTags(spec: Result<TagSpec, TagError>, csv: Result<seq<seq<string>>, TagError>, writeFails: bool)
    returns (r: Result<seq<TagAssignment>, TagError>)
    requires spec.Err? ==> spec.error in {ReadingSpec, ParsingSpec}
    requires csv.Err? ==> csv.error in {OpenCsv, ReadCsv}
    ensures r.Err? ==> r.error != MissingFormat
    ensures spec.Err? ==> r == Err(spec.error)
    ensures spec.Ok? && csv.Err? ==> r == Err(csv.error)
    ensures spec.Ok? && csv.Ok? && !SameWidth(csv.value) ==> r == Err(ReadCsv)
    ensures spec.Ok? && csv.Ok? && SameWidth(csv.value) && writeFails ==> r == Err(WriteOutput)
    ensures spec.Ok? && csv.Ok? && SameWidth(csv.value) && !writeFails
      ==> r == Ok(AssignmentsOf(KeptRows(csv.value), spec.value.format, spec.value.start))
  {
    if spec.Err? {
      return Err(spec.error);
    }
    if csv.Err? {
      return Err(csv.error);
    }
    var records := ReadAll(csv.value);
    if records.Err? {
      return Err(records.error);
    }
    var assignments := AssignTags(records.value, spec.value.format, spec.value.start);
    if writeFails {
      return Err(WriteOutput);
    }
    r := Ok(assignments);
  }

  /** GenerateTags of the app package: format and start come from the
      configuration, and an empty format is rejected before the CSV is
      opened. */
  method AppGenerateTags(format: string, start: int, csv: Result<seq<seq<string>>, TagError>, writeFails: bool)
    returns (r: Result<seq<TagAssignment>, TagError>)
    requires csv.Err? ==> csv.error in {OpenCsv, ReadCsv}
    ensures r.Err? ==> r.error in {MissingFormat, OpenCsv, ReadCsv, WriteOutput}
    ensures format == "" ==> r == Err(MissingFormat)
    ensures format != "" && csv.Err? ==> r == Err(csv.error)
    ensures format != "" && csv.Ok? && !SameWidth(csv.value) ==> r == Err(ReadCsv)
    ensures format != "" && csv.Ok? && SameWidth(csv.value) && writeFails ==> r == Err(WriteOutput)
    ensures format != "" && csv.Ok? && SameWidth(csv.value) && !writeFails
      ==> r == Ok(AssignmentsOf(KeptRows(csv.value), format, start))
  {
    if format == "" {
      return Err(MissingFormat);
    }
    if csv.Err? {
      return Err(csv.error);
    }
    var records := ReadAll(csv.value);
    if records.Err? {
      return Err(records.error);
    }
    var assignments := AssignTags(records.value, format, start);
    if writeFails {
      return Err(WriteOutput);
    }
    r := Ok(assignments);
  }

  // ----- properties -----

  /** The assignment the row with index i receives: its trimmed fields and the ID
      expanded from its numeric id. */
  predicate AssignedAt(assignments: seq<TagAssignment>, rows: seq<TagRow>, i: nat, format: string, start: int)
    requires i < |rows| && i < |assignments|
  {
    assignments[i] == TagAssignment(Expand(format, rows[i], NumericId(rows, i, start)), rows[i].category, rows[i].subcat, rows[i].name)
  }

  /** One assignment per kept row. */
  lemma {:induction false} AssignmentsLength(rows: seq<TagRow>, format: string, start: int)
    ensures |AssignmentsOf(rows, format, start)| == |rows|
  {
    if rows != [] {
      AssignmentsLength(rows[..|rows| - 1], format, start);
    }
  }

  /** The last assignment belongs to the last row. */
  lemma LastAssignment(rows: seq<TagRow>, format: string, start: int)
    requires rows != []
    ensures var n := |rows| - 1;
      AssignmentsOf(rows, format, start) == AssignmentsOf(rows[..n], format, start) + [TagFor(rows[n], CountKey(rows, KeyOf(rows[n])), format, start)]
    ensures TagFor(rows[|rows| - 1], CountKey(rows, KeyOf(rows[|rows| - 1])), format, start)
      == TagAssignment(Expand(format, rows[|rows| - 1], NumericId(rows, |rows| - 1, start)),
                       rows[|rows| - 1].category, rows[|rows| - 1].subcat, rows[|rows| - 1].name)
  {
    assert rows[..|rows|] == rows;
  }

  /** The assignment at index i belongs to the row at index i. */
  lemma {:induction false} AssignmentAt(rows: seq<TagRow>, i: nat, format: string, start: int)
    requires i < |rows|
    ensures |AssignmentsOf(rows, format, start)| == |rows|
    ensures AssignedAt(AssignmentsOf(rows, format, start), rows, i, format, start)
    decreases |rows|
  {
    var n := |rows| - 1;
    var init := rows[..n];
    LastAssignment(rows, format, start);
    AssignmentsLength(init, format, start);
    if i < n {
      AssignmentAt(init, i, format, start);
      NumericIdPrefix(rows, i, n, start);
      var a := AssignmentsOf(init, format, start);
      assert AssignmentsOf(rows, format, start)[i] == a[i];
    }
  }

  /** A row's numeric id depends only on the rows up to it. */
  lemma NumericIdPrefix(rows: seq<TagRow>, i: nat, m: nat, start: int)
    requires i < m <= |rows|
    ensures rows[..m][i] == rows[i]
    ensures NumericId(rows[..m], i, start) == NumericId(rows, i, start)
  {
    assert rows[..m][..i + 1] == rows[..i + 1];
  }

  /** The assignments line up with the kept rows: one each, in order. */
  lemma AssignmentsAt(rows: seq<TagRow>, format: string, start: int)
    ensures |AssignmentsOf(rows, format, start)| == |rows|
    ensures forall i :: 0 <= i < |rows| ==> AssignedAt(AssignmentsOf(rows, format, start), rows, i, format, start)
  {
    AssignmentsLength(rows, format, start);
    forall i | 0 <= i < |rows|
      ensures AssignedAt(AssignmentsOf(rows, format, start), rows, i, format, start)
    {
      AssignmentAt(rows, i, format, start);
    }
  }

  lemma {:induction false} CountKeyMonotone(rows: seq<TagRow>, a: nat, b: nat, k: string)
    requires a <= b <= |rows|
    ensures CountKey(rows[..a], k) <= CountKey(rows[..b], k)
    decreases b - a
  {
    if a < b {
      CountKeyMonotone(rows, a, b - 1, k);
      assert rows[..b][..b - 1] == rows[..b - 1];
    }
  }

  /** Within one key the numeric ids strictly increase in row order, so two rows
      with the same key never share an id. */
  lemma SameKeyIdsIncrease(rows: seq<TagRow>, i: nat, j: nat, start: int)
    requires i < j < |rows| && KeyOf(rows[i]) == KeyOf(rows[j])
    ensures NumericId(rows, i, start) < NumericId(rows, j, start)
  {
    CountKeyMonotone(rows, i + 1, j, KeyOf(rows[j]));
    assert rows[..j + 1][..j] == rows[..j];
  }

  /** Rows of other keys in between do not advance a key's numbering: the first
      row of a key is numbered start. */
  lemma {:induction false} FirstOfKeyGetsStart(rows: seq<TagRow>, i: nat, start: int)
    requires i < |rows|
    requires forall j :: 0 <= j < i ==> KeyOf(rows[j]) != KeyOf(rows[i])
    ensures NumericId(rows, i, start) == start
  {
    NoOtherOfKey(rows[..i + 1], i, KeyOf(rows[i]));
  }

  lemma {:induction false} NoOtherOfKey(rows: seq<TagRow>, n: nat, k: string)
    requires n <= |rows|
    requires forall j :: 0 <= j < n ==> KeyOf(rows[j]) != k
    ensures CountKey(rows[..n], k) == 0
  {
    if n > 0 {
      assert rows[..n][..n - 1] == rows[..n - 1];
      NoOtherOfKey(rows, n - 1, k);
    }
  }

  /** Keys are joined with "-", so ("A-B", "C") and ("A", "B-C") share one
      counter: the second row continues the first one's numbering. */
  lemma KeysCollide(n1: string, n2: string, start: int)
    ensures KeyOf(TagRow("A-B", "C", n1)) == KeyOf(TagRow("A", "B-C", n2))
    ensures NumericId([TagRow("A-B", "C", n1), TagRow("A", "B-C", n2)], 1, start) == start + 1
  {
    var rows := [TagRow("A-B", "C", n1), TagRow("A", "B-C", n2)];
    var k := KeyOf(rows[1]);
    assert KeyOf(rows[0]) == k by {
      assert "A-B" + "-" + "C" == "A" + "-" + "B-C";
    }
    assert rows[..2] == rows;
    assert rows[..1] == [rows[0]];
    assert CountKey([rows[0]], k) == 1 by {
      assert [rows[0]][..0] == [];
    }
    assert CountKey(rows, k) == 2 by {
      assert rows[..|rows| - 1] == [rows[0]];
    }
  }

  /** An empty format is not rejected by pkg/projman's GenerateTags: every
      assignment gets the empty ID. */
  lemma EmptyFormatIds(rows: seq<TagRow>, start: int)
    ensures forall a :: a in AssignmentsOf(rows, "", start) ==> a.id == ""
  {
    AssignmentsAt(rows, "", start);
  }

  lemma {:induction false} RowsOfAppend(a: seq<seq<string>>, b: seq<seq<string>>)
    ensures RowsOf(a + b) == RowsOf(a) + RowsOf(b)
    decreases |b|
  {
    if b == [] {
      assert a + b == a;
    } else {
      var m := |b| - 1;
      assert (a + b)[..|a + b| - 1] == a + b[..m];
      RowsOfAppend(a, b[..m]);
    }
  }

  /** Records that each have fewer than three fields yield no rows. */
  lemma {:induction false} NarrowRecordsNoRows(records: seq<seq<string>>)
    requires forall i :: 0 <= i < |records| ==> |records[i]| < 3
    ensures RowsOf(records) == []
  {
    if records != [] {
      NarrowRecordsNoRows(records[..|records| - 1]);
    }
  }

  /** Records that each have at least three fields yield one row each, in
      order: the first three fields trimmed. */
  lemma {:induction false} WideRecordsRows(records: seq<seq<string>>)
    requires forall i :: 0 <= i < |records| ==> |records[i]| >= 3
    ensures |RowsOf(records)| == |records|
    ensures forall i :: 0 <= i < |records| ==> RowsOf(records)[i] == TrimmedRow(records[i])
  {
    if records != [] {
      WideRecordsRows(records[..|records| - 1]);
    }
  }

  /** The length check of the loop can skip a record only in a file narrower
      than three columns, since ReadAll lets through only records as wide as
      the header: such a file yields no assignments at all. */
  lemma ShortRowIgnored(records: seq<seq<string>>, format: string, start: int)
    requires ReadAll(records).Ok? && records != [] && |records[0]| < 3
    ensures KeptRows(records) == [] && AssignmentsOf(KeptRows(records), format, start) == []
  {
    NarrowRecordsNoRows(records[1..]);
  }

  /** In a file at least three columns wide that ReadAll accepts, every record
      after the header is kept. */
  lemma EveryRecordKept(records: seq<seq<string>>)
    requires ReadAll(records).Ok? && records != [] && |records[0]| >= 3
    ensures |KeptRows(records)| == |records| - 1
    ensures forall i :: 1 <= i < |records| ==> KeptRows(records)[i - 1] == TrimmedRow(records[i])
  {
    var d := records[1..];
    assert forall i :: 0 <= i < |d| ==> d[i] == records[i + 1];
    WideRecordsRows(d);
  }

  /** The header is skipped whatever it holds. */
  lemma HeaderIgnored(h1: seq<string>, h2: seq<string>, rest: seq<seq<string>>)
    ensures KeptRows([h1] + rest) == KeptRows([h2] + rest)
  {
    assert ([h1] + rest)[1..] == rest;
    assert ([h2] + rest)[1..] == rest;
  }

  /** Every kept field is already trimmed. */
  lemma {:induction false} RowsTrimmed(records: seq<seq<string>>)
    ensures forall r :: r in RowsOf(records) ==>
      TrimSpace(r.category) == r.category && TrimSpace(r.subcat) == r.subcat && TrimSpace(r.name) == r.name
  {
    if records != [] {
      var last := records[|records| - 1];
      RowsTrimmed(records[..|records| - 1]);
      if |last| >= 3 {
        TrimSpaceIdempotent(last[0]);
        TrimSpaceIdempotent(last[1]);
        TrimSpaceIdempotent(last[2]);
      }
    }
  }

  /** At most one row per data record. */
  lemma {:induction false} RowsOfLength(records: seq<seq<string>>)
    ensures |RowsOf(records)| <= |records|
  {
    if records != [] {
      RowsOfLength(records[..|records| - 1]);
    }
  }

  /** The template of the example CSV's specification. */
  const StandardFormat := "{category}-{subcat}-{id}"

  /** The literal pieces of the standard template between its placeholders. */
  lemma TemplateLiterals()
    ensures "{category}"[0] == '{' && "{category}"[1] == 'c'
    ensures '{' !in "-" && '{' !in "subcat}-" && '{' !in "id}"
    ensures StandardFormat == "{category}" + ("-" + (['{'] + ("subcat}-" + (['{'] + "id}"))))
    ensures "-{subcat}-{id}" == "-" + (['{'] + ("subcat}-" + (['{'] + "id}")))
  {
  }

  /** Step one of the standard template: the category goes in front. */
  lemma ReplaceCategory(c: string)
    ensures ReplaceAll(StandardFormat, "{category}", c) == c + "-{subcat}-{id}"
  {
    var pat := "{category}";
    TemplateLiterals();
    var tail := ['{'] + "id}";
    var mid := ['{'] + ("subcat}-" + tail);
    ReplaceAllHead(pat, "-" + mid, c);
    ReplaceAllSkip("-", mid, pat, c);
    assert mid[1] != pat[1];
    ReplaceAllMiss('{', "subcat}-" + tail, pat, c);
    ReplaceAllSkip("subcat}-", tail, pat, c);
    ReplaceAllMiss('{', "id}", pat, c);
    ReplaceAllSkip("id}", [], pat, c);
    assert "id}" + [] == "id}";
  }

  /** Step two: the subcategory follows. */
  lemma ReplaceSubcat(c: string, sc: string)
    requires '{' !in c
    ensures ReplaceAll(c + "-{subcat}-{id}", "{subcat}", sc) == c + "-" + sc + "-{id}"
  {
    assert c + "-{subcat}-{id}" == (c + "-") + ("{subcat}" + "-{id}");
    ReplaceAllSkip(c + "-", "{subcat}" + "-{id}", "{subcat}", sc);
    ReplaceAllHead("{subcat}", "-{id}", sc);
    ReplaceAllUnchanged("-{id}", "{subcat}", sc);
  }

  /** Step three: the rendered number ends the tag. */
  lemma ReplaceId(x: string, z: string)
    requires '{' !in x
    ensures ReplaceAll(x + "{id}", "{id}", z) == x + z
  {
    assert x + "{id}" == x + ("{id}" + []);
    ReplaceAllSkip(x, "{id}" + [], "{id}", z);
    ReplaceAllHead("{id}", [], z);
  }

  /** With the standard template and fields free of "{", the tag is category,
      subcategory and the two-digit id joined with "-". */
  lemma ExpandStandard(r: TagRow, id: int)
    requires '{' !in r.category && '{' !in r.subcat
    ensures Expand(StandardFormat, r, id) == r.category + "-" + r.subcat + "-" + ZeroPad(id, 2)
  {
    var c, sc := r.category, r.subcat;
    ReplaceCategory(c);
    ReplaceSubcat(c, sc);
    var x := c + "-" + sc + "-";
    assert '{' !in x;
    assert c + "-" + sc + "-{id}" == x + "{id}";
    ReplaceId(x, ZeroPad(id, 2));
  }

  /** "%02d" of 1 and 2. */
  lemma ZeroPadSmall()
    ensures ZeroPad(1, 2) == "01" && ZeroPad(2, 2) == "02"
  {
    assert DigitChar(1) == '1' && DigitChar(2) == '2';
    assert Digits(1) == "1" && Digits(2) == "2";
  }

  /** A header and three data records of single-character, non-space fields
      keep the three records as rows. */
  lemma ThreeRecords(h: seq<string>, r1: seq<string>, r2: seq<string>, r3: seq<string>)
    requires SingleChars(r1) && SingleChars(r2) && SingleChars(r3)
    ensures KeptRows([h, r1, r2, r3])
      == [TagRow(r1[0], r1[1], r1[2]), TagRow(r2[0], r2[1], r2[2]), TagRow(r3[0], r3[1], r3[2])]
  {
    var t1, t2, t3 := TagRow(r1[0], r1[1], r1[2]), TagRow(r2[0], r2[1], r2[2]), TagRow(r3[0], r3[1], r3[2]);
    SingleRow(r1);
    SingleRow(r2);
    SingleRow(r3);
    var none: seq<seq<string>> := [];
    RowsSnoc(none, r1);
    assert none + [r1] == [r1];
    RowsSnoc([r1], r2);
    assert [r1] + [r2] == [r1, r2];
    RowsSnoc([r1, r2], r3);
    assert [r1, r2] + [r3] == [r1, r2, r3];
    assert RowsOf([r1, r2, r3]) == [t1, t2, t3];
    assert [h, r1, r2, r3][1..] == [r1, r2, r3];
  }

  /** The example CSV's kept rows: the header dropped, the three data rows kept. */
  lemma ExampleRows()
    ensures KeptRows([["category", "subcat", "name"], ["A", "1", "p"], ["A", "1", "q"], ["B", "1", "r"]])
      == ExampleKept
  {
    ThreeRecords(["category", "subcat", "name"], ["A", "1", "p"], ["A", "1", "q"], ["B", "1", "r"]);
  }

  /** The example's numeric ids: 1 and 2 for key A-1, 1 for key B-1. */
  lemma ExampleIds()
    ensures NumericId(ExampleKept, 0, 1) == 1 && NumericId(ExampleKept, 1, 1) == 2 && NumericId(ExampleKept, 2, 1) == 1
  {
    var rows := ExampleKept;
    FirstOfKeyGetsStart(rows, 0, 1);
    assert KeyOf(rows[0]) == KeyOf(rows[1]);
    assert rows[..2][..1] == rows[..1];
    assert CountKey(rows[..1], KeyOf(rows[1])) == 1;
    assert KeyOf(rows[0]) != KeyOf(rows[2]) by {
      assert KeyOf(rows[0])[0] != KeyOf(rows[2])[0];
    }
    FirstOfKeyGetsStart(rows, 2, 1);
  }

  lemma ExampleSpelling()
    ensures "A" + "-" + "1" + "-" + "01" == "A-1-01"
    ensures "A" + "-" + "1" + "-" + "02" == "A-1-02"
    ensures "B" + "-" + "1" + "-" + "01" == "B-1-01"
  {
  }

  /** The kept rows of the example CSV. */
  const ExampleKept := [TagRow("A", "1", "p"), TagRow("A", "1", "q"), TagRow("B", "1", "r")]

  /** One tag of the example: the row at index i, with numeric id n, is tagged
      with its fields and the padded id joined by "-". */
  lemma ExampleTagAt(i: nat, n: int, tag: string)
    requires i < 3 && NumericId(ExampleKept, i, 1) == n
    requires '{' !in ExampleKept[i].category && '{' !in ExampleKept[i].subcat
    requires ExampleKept[i].category + "-" + ExampleKept[i].subcat + "-" + ZeroPad(n, 2) == tag
    ensures |AssignmentsOf(ExampleKept, StandardFormat, 1)| == 3
    ensures AssignmentsOf(ExampleKept, StandardFormat, 1)[i].id == tag
  {
    AssignmentAt(ExampleKept, i, StandardFormat, 1);
    ExpandStandard(ExampleKept[i], n);
  }

  /** The worked example: two rows keyed A-1 then one keyed B-1, with the standard
      template and start 1, are tagged A-1-01, A-1-02, B-1-01. */
  lemma ThreeRowExample()
    ensures var records := [["category", "subcat", "name"], ["A", "1", "p"], ["A", "1", "q"], ["B", "1", "r"]];
      var ids := AssignmentsOf(KeptRows(records), StandardFormat, 1);
      |ids| == 3 && ids[0].id == "A-1-01" && ids[1].id == "A-1-02" && ids[2].id == "B-1-01"
  {
    ExampleRows();
    ExampleIds();
    ZeroPadSmall();
    ExampleSpelling();
    ExampleTagAt(0, 1, "A-1-01");
    ExampleTagAt(1, 2, "A-1-02");
    ExampleTagAt(2, 1, "B-1-01");
  }

  /** Three one-character fields, none of them a space. */
  predicate SingleChars(fields: seq<string>) {
    && |fields| == 3 && |fields[0]| == |fields[1]| == |fields[2]| == 1
    && !IsSpace(fields[0][0]) && !IsSpace(fields[1][0]) && !IsSpace(fields[2][0])
  }

  /** Such a record is kept as is. */
  lemma SingleRow(fields: seq<string>)
    requires SingleChars(fields)
    ensures RowOf(fields) == [TagRow(fields[0], fields[1], fields[2])]
  {
    TrimSpaceKeeps(fields[0]);
    TrimSpaceKeeps(fields[1]);
    TrimSpaceKeeps(fields[2]);
  }
}
