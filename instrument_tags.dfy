/** The older instrument tagger of scripts/generate_tags.py: each CSV row names a
    system, a system code, an equipment type, a function, an instrument and a
    description. Rows are numbered per system-code/equipment-type key from 101,
    and a nested structure Line4 -> system -> equipment -> instrument is built
    and dumped as YAML. Opening the files, the CSV reader and the YAML writer are
    not modelled: the rows are the input and the structure is the output. */
module InstrumentTags {
  import opened Wrappers
  import opened Text

  datatype InstrumentRow = InstrumentRow(
    system: string, systemCode: string, equipType: string,
    role: string, instrument: string, description: string)

  /** An instrument entry: {Tag, Description}. */
  datatype InstrumentEntry = InstrumentEntry(tag: string, description: string)

  /** A value of an equipment branch: the function the branch was created with,
      or an instrument entry. */
  datatype EquipValue = Kind(role: string) | Entry(entry: InstrumentEntry)

  /** An equipment branch: one dict, created as {Type: function}, into which
      instruments are set by name. An instrument named "Type" therefore
      replaces the function. */
  type Equipment = map<string, EquipValue>

  /** The key under which a new equipment branch holds its function. */
  const TypeKey := "Type"

  /** A system branch: its SystemCode and its equipment by "EquipType-NNNN". */
  datatype SystemBranch = SystemBranch(systemCode: string, equipment: map<string, Equipment>)

  /** One row of the instrument table the script collects. */
  datatype TableEntry = TableEntry(system: string, equipmentId: string, instrumentId: string, description: string)

  /** The document written: empty, or the single top-level key Line4. */
  datatype Document = Empty | Line4(systems: map<string, SystemBranch>)

  /** Where a row's instrument entry lands. */
  datatype Location = Location(system: string, equipKey: string, instrument: string)

  /** The first instance number of every key. */
  const FirstInstance := 101

  // ----- numbering -----

  /** The counter key: system code and equipment type joined with "-". */
  function KeyOf(r: InstrumentRow): string
  {
    r.systemCode + "-" + r.equipType
  }

  /** A counter read with the script's default of 101. */
  function Next(c: map<string, int>, k: string): int
  {
    if k in c then c[k] else FirstInstance
  }

  /** The counters after rows: each key seen maps to its next instance number. */
  function CountersOf(rows: seq<InstrumentRow>): map<string, int>
  {
    if rows == [] then map[]
    else
      var c := CountersOf(rows[..|rows| - 1]);
      var k := KeyOf(rows[|rows| - 1]);
      c[k := Next(c, k) + 1]
  }

  /** How many of rows have key k. */
  function CountKey(rows: seq<InstrumentRow>, k: string): nat
  {
    if rows == [] then 0
    else CountKey(rows[..|rows| - 1], k) + (if KeyOf(rows[|rows| - 1]) == k then 1 else 0)
  }

  /** The instance number of the row with index i: 101 plus the number of
      earlier rows with its key. */
  function InstanceAt(rows: seq<InstrumentRow>, i: nat): int
    requires i < |rows|
  {
    FirstInstance + CountKey(rows[..i], KeyOf(rows[i]))
  }

  /** "{system_code}-{equip_type}-{n:04d}". */
  function EquipId(r: InstrumentRow, n: int): string
  {
    r.systemCode + "-" + r.equipType + "-" + ZeroPad(n, 4)
  }

  /** "{system_code}-{instrument}-{n:04d}". */
  function InstrId(r: InstrumentRow, n: int): string
  {
    r.systemCode + "-" + r.instrument + "-" + ZeroPad(n, 4)
  }

  /** The equipment branch key "{equip_type}-{n:04d}". */
  function EquipKey(r: InstrumentRow, n: int): string
  {
    r.equipType + "-" + ZeroPad(n, 4)
  }

  // ----- the structure -----

  /** One row placed with instance number n: the system branch is created with
      this row's code if absent, the equipment branch with this row's function
      under Type if absent, and the instrument entry is set under the instrument's
      name, replacing whatever that name held. */
  function Place(systems: map<string, SystemBranch>, r: InstrumentRow, n: int): map<string, SystemBranch>
  {
    var sys := if r.system in systems then systems[r.system] else SystemBranch(r.systemCode, map[]);
    var ek := EquipKey(r, n);
    var eq := if ek in sys.equipment then sys.equipment[ek] else map[TypeKey := Kind(r.role)];
    var eq2 := eq[r.instrument := Entry(InstrumentEntry(InstrId(r, n), r.description))];
    systems[r.system := sys.(equipment := sys.equipment[ek := eq2])]
  }

  /** The systems after rows. */
  function SystemsOf(rows: seq<InstrumentRow>): map<string, SystemBranch>
  {
    if rows == [] then map[]
    else
      var init := rows[..|rows| - 1];
      var r := rows[|rows| - 1];
      Place(SystemsOf(init), r, Next(CountersOf(init), KeyOf(r)))
  }

  /** The instrument table after rows. */
  function TableOf(rows: seq<InstrumentRow>): seq<TableEntry>
  {
    if rows == [] then []
    else
      var init := rows[..|rows| - 1];
      var r := rows[|rows| - 1];
      TableOf(init) + [RowEntry(r, Next(CountersOf(init), KeyOf(r)))]
  }

  /** The table entry of a row with instance number n. */
  function RowEntry(r: InstrumentRow, n: int): TableEntry
  {
    TableEntry(r.system, EquipId(r, n), InstrId(r, n), r.description)
  }

  /** The document for rows: Line4 appears with the first row. */
  function DocumentOf(rows: seq<InstrumentRow>): Document
  {
    if rows == [] then Empty else Line4(SystemsOf(rows))
  }

  /** The instrument entry at a location, if any. */
  function EntryAt(systems: map<string, SystemBranch>, at: Location): Option<InstrumentEntry>
  {
    if at.system in systems && at.equipKey in systems[at.system].equipment
      && at.instrument in systems[at.system].equipment[at.equipKey]
      && systems[at.system].equipment[at.equipKey][at.instrument].Entry?
    then Some(systems[at.system].equipment[at.equipKey][at.instrument].entry)
    else None
  }

  /** Where the row with index i writes. */
  function LocationOf(rows: seq<InstrumentRow>, i: nat): Location
    requires i < |rows|
  {
    Location(rows[i].system, EquipKey(rows[i], InstanceAt(rows, i)), rows[i].instrument)
  }

  // ----- the script -----

  /** generate_tags: the row loop, then the structure handed to the YAML writer.
      The instrument table is built alongside but never leaves the loop. */
  method GenerateTags(rows: seq<InstrumentRow>) returns (doc: Document)
    ensures doc == DocumentOf(rows)
  {
    var counters: map<string, int> := map[];
    var systems: map<string, SystemBranch> := map[];
    var table: seq<TableEntry> := [];
    var started := false;
    var i := 0;
    while i < |rows|
      invariant 0 <= i <= |rows|
      invariant Scanned(rows[..i], counters, systems, table)
      invariant started == (i > 0)
    {
      var r := rows[i];
      var n := Next(counters, KeyOf(r));
      var counters' := counters[KeyOf(r) := n + 1];
      var systems' := Place(systems, r, n);
      var table' := table + [RowEntry(r, n)];
      RowStep(rows, i, counters, systems, table, counters', systems', table');
      counters, systems, table := counters', systems', table';
      started := true;
      i := i + 1;
    }
    assert rows[..i] == rows;
    doc := if started then Line4(systems) else Empty;
  }

  /** The loop's counters, systems and table are those of the rows done. */
  ghost predicate Scanned(done: seq<InstrumentRow>, counters: map<string, int>,
                          systems: map<string, SystemBranch>, table: seq<TableEntry>) {
    counters == CountersOf(done) && systems == SystemsOf(done) && table == TableOf(done)
  }

  /** One pass of the row loop keeps the counters, the systems and the table
      those of the rows done so far. */
  lemma RowStep(rows: seq<InstrumentRow>, i: nat,
                counters: map<string, int>, systems: map<string, SystemBranch>, table: seq<TableEntry>,
                counters': map<string, int>, systems': map<string, SystemBranch>, table': seq<TableEntry>)
    requires i < |rows| && Scanned(rows[..i], counters, systems, table)
    requires counters' == counters[KeyOf(rows[i]) := Next(counters, KeyOf(rows[i])) + 1]
    requires systems' == Place(systems, rows[i], Next(counters, KeyOf(rows[i])))
    requires table' == table + [RowEntry(rows[i], Next(counters, KeyOf(rows[i])))]
    ensures Scanned(rows[..i + 1], counters', systems', table')
  {
    assert rows[..i + 1] == rows[..i] + [rows[i]];
    Snoc(rows[..i], rows[i]);
  }

  /** What one more row adds to each structure. */
  lemma Snoc(done: seq<InstrumentRow>, r: InstrumentRow)
    ensures var n := Next(CountersOf(done), KeyOf(r));
      && CountersOf(done + [r]) == CountersOf(done)[KeyOf(r) := n + 1]
      && SystemsOf(done + [r]) == Place(SystemsOf(done), r, n)
      && TableOf(done + [r]) == TableOf(done) + [RowEntry(r, n)]
  {
    assert (done + [r])[..|done|] == done;
  }

  lemma TableSnoc(done: seq<InstrumentRow>, r: InstrumentRow)
    ensures TableOf(done + [r]) == TableOf(done) + [RowEntry(r, Next(CountersOf(done), KeyOf(r)))]
  {
    assert (done + [r])[..|done|] == done;
  }

  lemma SystemsSnoc(done: seq<InstrumentRow>, r: InstrumentRow, n: int)
    requires n == Next(CountersOf(done), KeyOf(r))
    ensures SystemsOf(done + [r]) == Place(SystemsOf(done), r, n)
  {
    assert (done + [r])[..|done|] == done;
  }

  // ----- properties -----

  /** The counter of every key is 101 plus its number of rows. */
  lemma {:induction false} CountersCount(rows: seq<InstrumentRow>, k: string)
    ensures Next(CountersOf(rows), k) == FirstInstance + CountKey(rows, k)
  {
    if rows != [] {
      CountersCount(rows[..|rows| - 1], k);
    }
  }

  /** The number the loop uses for the last row is that row's instance number. */
  lemma LastInstance(rows: seq<InstrumentRow>)
    requires rows != []
    ensures Next(CountersOf(rows[..|rows| - 1]), KeyOf(rows[|rows| - 1])) == InstanceAt(rows, |rows| - 1)
  {
    CountersCount(rows[..|rows| - 1], KeyOf(rows[|rows| - 1]));
  }

  /** An earlier row keeps its instance number when rows are appended. */
  lemma InstanceStable(rows: seq<InstrumentRow>, i: nat, m: nat)
    requires i < m <= |rows|
    ensures InstanceAt(rows[..m], i) == InstanceAt(rows, i)
  {
    assert rows[..m][..i] == rows[..i];
  }

  lemma {:induction false} CountKeyMonotone(rows: seq<InstrumentRow>, a: nat, b: nat, k: string)
    requires a <= b <= |rows|
    ensures CountKey(rows[..a], k) <= CountKey(rows[..b], k)
    decreases b - a
  {
    if a < b {
      CountKeyMonotone(rows, a, b - 1, k);
      assert rows[..b][..b - 1] == rows[..b - 1];
    }
  }

  /** Within one key, instance numbers strictly increase in row order, so two rows
      with one key never share an equipment ID. */
  lemma SameKeyInstancesIncrease(rows: seq<InstrumentRow>, i: nat, j: nat)
    requires i < j < |rows| && KeyOf(rows[i]) == KeyOf(rows[j])
    ensures InstanceAt(rows, i) < InstanceAt(rows, j)
  {
    CountKeyMonotone(rows, i + 1, j, KeyOf(rows[j]));
    assert rows[..i + 1][..i] == rows[..i];
  }

  /** The first row of a key gets 101, whatever rows of other keys precede it. */
  lemma {:induction false} FirstOfKeyGets101(rows: seq<InstrumentRow>, i: nat)
    requires i < |rows|
    requires forall j :: 0 <= j < i ==> KeyOf(rows[j]) != KeyOf(rows[i])
    ensures InstanceAt(rows, i) == FirstInstance
  {
    NoEarlierOfKey(rows, i, KeyOf(rows[i]));
  }

  lemma {:induction false} NoEarlierOfKey(rows: seq<InstrumentRow>, n: nat, k: string)
    requires n <= |rows|
    requires forall j :: 0 <= j < n ==> KeyOf(rows[j]) != k
    ensures CountKey(rows[..n], k) == 0
  {
    if n > 0 {
      assert rows[..n][..n - 1] == rows[..n - 1];
      NoEarlierOfKey(rows, n - 1, k);
    }
  }

  /** The instrument table: one entry per row, in order, whose equipment and
      instrument IDs carry the row's instance number. */
  lemma {:induction false} TableAt(rows: seq<InstrumentRow>, i: nat)
    requires i < |rows|
    ensures |TableOf(rows)| == |rows|
    ensures TableOf(rows)[i] == RowEntry(rows[i], InstanceAt(rows, i))
    decreases |rows|
  {
    TableLength(rows);
    var n := |rows| - 1;
    if i == n {
      LastInstance(rows);
    } else {
      TableAt(rows[..n], i);
      InstanceStable(rows, i, n);
    }
  }

  lemma {:induction false} TableLength(rows: seq<InstrumentRow>)
    ensures |TableOf(rows)| == |rows|
  {
    if rows != [] {
      TableLength(rows[..|rows| - 1]);
    }
  }

  /** The systems are exactly the System values of the rows. */
  lemma SystemsAreRowSystems(rows: seq<InstrumentRow>, s: string)
    ensures s in SystemsOf(rows) <==> exists i :: 0 <= i < |rows| && rows[i].system == s
  {
    SystemKeys(rows);
    RowSystemsMembers(rows, s);
  }

  /** The System values of rows. */
  function RowSystems(rows: seq<InstrumentRow>): set<string>
  {
    if rows == [] then {} else RowSystems(rows[..|rows| - 1]) + {rows[|rows| - 1].system}
  }

  lemma {:induction false} SystemKeys(rows: seq<InstrumentRow>)
    ensures SystemsOf(rows).Keys == RowSystems(rows)
  {
    if rows != [] {
      var init := rows[..|rows| - 1];
      var r := rows[|rows| - 1];
      SystemKeys(init);
      PlaceKeys(SystemsOf(init), r, Next(CountersOf(init), KeyOf(r)));
    }
  }

  lemma {:induction false} RowSystemsMembers(rows: seq<InstrumentRow>, s: string)
    ensures s in RowSystems(rows) <==> exists i :: 0 <= i < |rows| && rows[i].system == s
  {
    if rows != [] {
      var m := |rows| - 1;
      RowSystemsMembers(rows[..m], s);
      if s in RowSystems(rows[..m]) {
        var i :| 0 <= i < m && rows[..m][i].system == s;
        assert rows[i].system == s;
      } else if s != rows[m].system {
        forall i | 0 <= i < |rows| ensures rows[i].system != s {
          if i < m {
            assert rows[..m][i] == rows[i];
          }
        }
      }
    }
  }

  /** Placing a row adds its system and no other. */
  lemma PlaceKeys(systems: map<string, SystemBranch>, r: InstrumentRow, n: int)
    ensures Place(systems, r, n).Keys == systems.Keys + {r.system}
  {
  }

  /** Placing a row keeps every system's code, and creates a missing system
      with the row's code. */
  lemma PlaceSystemCode(systems: map<string, SystemBranch>, r: InstrumentRow, n: int, s: string)
    ensures s in Place(systems, r, n)
    ==> Place(systems, r, n)[s].systemCode == (if s in systems then systems[s].systemCode else r.systemCode)
  {
  }

  /** A system branch keeps the SystemCode of the first row naming that system,
      even when later rows of the system carry another code. */
  lemma {:induction false} SystemCodeOfFirstRow(rows: seq<InstrumentRow>, i: nat)
    requires i < |rows|
    requires forall j :: 0 <= j < i ==> rows[j].system != rows[i].system
    ensures rows[i].system in SystemsOf(rows)
    ensures SystemsOf(rows)[rows[i].system].systemCode == rows[i].systemCode
    decreases |rows|
  {
    var m := |rows| - 1;
    var s := rows[i].system;
    var init := rows[..m];
    var n := Next(CountersOf(init), KeyOf(rows[m]));
    PlaceSystemCode(SystemsOf(init), rows[m], n, s);
    if i < m {
      assert init[i] == rows[i];
      SystemCodeOfFirstRow(init, i);
    } else {
      assert s !in SystemsOf(init) by {
        SystemsAreRowSystems(init, s);
        forall j | 0 <= j < m ensures init[j].system != s {
          assert init[j] == rows[j];
        }
      }
    }
  }

  /** After a row is placed, its location holds its entry. */
  lemma PlaceWrites(systems: map<string, SystemBranch>, r: InstrumentRow, n: int)
    ensures EntryAt(Place(systems, r, n), Location(r.system, EquipKey(r, n), r.instrument))
      == Some(InstrumentEntry(InstrId(r, n), r.description))
  {
  }

  /** Placing a row changes no other location. */
  lemma PlaceKeepsOthers(systems: map<string, SystemBranch>, r: InstrumentRow, n: int, at: Location)
    requires at != Location(r.system, EquipKey(r, n), r.instrument)
    ensures EntryAt(Place(systems, r, n), at) == EntryAt(systems, at)
  {
  }

  /** The systems after the first m + 1 rows: row m placed, with its instance
      number, on the systems of the rows before it. */
  lemma PlacePrefix(rows: seq<InstrumentRow>, m: nat)
    requires m < |rows|
    ensures SystemsOf(rows[..m + 1]) == Place(SystemsOf(rows[..m]), rows[m], InstanceAt(rows, m))
  {
    assert rows[..m + 1] == rows[..m] + [rows[m]];
    CountersCount(rows[..m], KeyOf(rows[m]));
    SystemsSnoc(rows[..m], rows[m], InstanceAt(rows, m));
  }

  /** Row i's entry is present after every prefix from row i on, as long as no
      later row in the prefix writes its location. */
  lemma {:induction false} EntryKept(rows: seq<InstrumentRow>, i: nat, m: nat)
    requires i < m <= |rows|
    requires forall j :: i < j < |rows| ==> LocationOf(rows, j) != LocationOf(rows, i)
    ensures EntryAt(SystemsOf(rows[..m]), LocationOf(rows, i))
      == Some(InstrumentEntry(InstrId(rows[i], InstanceAt(rows, i)), rows[i].description))
    decreases m
  {
    PlacePrefix(rows, m - 1);
    if m - 1 == i {
      PlaceWrites(SystemsOf(rows[..i]), rows[i], InstanceAt(rows, i));
    } else {
      EntryKept(rows, i, m - 1);
      assert LocationOf(rows, m - 1) != LocationOf(rows, i);
      PlaceKeepsOthers(SystemsOf(rows[..m - 1]), rows[m - 1], InstanceAt(rows, m - 1), LocationOf(rows, i));
    }
  }

  /** A row's entry survives to the output unless a later row writes the same
      system, equipment key and instrument name, which replaces it. */
  lemma EntrySurvives(rows: seq<InstrumentRow>, i: nat)
    requires i < |rows|
    requires forall j :: i < j < |rows| ==> LocationOf(rows, j) != LocationOf(rows, i)
    ensures EntryAt(SystemsOf(rows), LocationOf(rows, i))
      == Some(InstrumentEntry(InstrId(rows[i], InstanceAt(rows, i)), rows[i].description))
  {
    EntryKept(rows, i, |rows|);
    assert rows[..|rows|] == rows;
  }

  /** An existing equipment branch keeps its Type when a row whose instrument
      has another name lands in it. */
  lemma PlaceKeepsKind(systems: map<string, SystemBranch>, r: InstrumentRow, n: int, s: string, ek: string)
    requires s in systems && ek in systems[s].equipment && TypeKey in systems[s].equipment[ek]
    requires r.instrument != TypeKey
    ensures s in Place(systems, r, n) && ek in Place(systems, r, n)[s].equipment
    ensures TypeKey in Place(systems, r, n)[s].equipment[ek]
    ensures Place(systems, r, n)[s].equipment[ek][TypeKey] == systems[s].equipment[ek][TypeKey]
  {
  }

  /** A row whose instrument is named "Type" overwrites its branch's Type with
      its own instrument entry. */
  lemma TypeInstrumentReplacesKind(systems: map<string, SystemBranch>, r: InstrumentRow, n: int)
    requires r.instrument == TypeKey
    ensures Place(systems, r, n)[r.system].equipment[EquipKey(r, n)][TypeKey]
      == Entry(InstrumentEntry(InstrId(r, n), r.description))
  {
  }

  /** A row that finds no branch for its equipment key creates one holding
      exactly Type and the row's instrument: Type is the row's function, unless
      the instrument is itself named "Type", when the function is lost. */
  lemma PlaceCreatesBranch(systems: map<string, SystemBranch>, r: InstrumentRow, n: int)
    requires !(r.system in systems && EquipKey(r, n) in systems[r.system].equipment)
    ensures var eq := Place(systems, r, n)[r.system].equipment[EquipKey(r, n)];
      && eq.Keys == {TypeKey, r.instrument}
      && eq[TypeKey] == (if r.instrument == TypeKey then Entry(InstrumentEntry(InstrId(r, n), r.description)) else Kind(r.role))
      && (r.instrument == TypeKey ==> forall v :: v in eq.Values ==> !v.Kind?)
  {
  }

  /** Two rows of one system whose codes differ but whose equipment type,
      instance number and instrument agree share one entry: the second row's tag
      replaces the first's, and the branch keeps the first row's Type. */
  lemma SharedEntryExample()
    ensures var a := InstrumentRow("Feed", "A", "P", "pump", "PT", "first");
      var b := InstrumentRow("Feed", "B", "P", "motor", "PT", "second");
      var systems := SystemsOf([a, b]);
      && EntryAt(systems, Location("Feed", EquipKey(a, 101), "PT")) == Some(InstrumentEntry(InstrId(b, 101), "second"))
      && TypeKey in systems["Feed"].equipment[EquipKey(a, 101)]
      && systems["Feed"].equipment[EquipKey(a, 101)][TypeKey] == Kind("pump")
  {
    var a := InstrumentRow("Feed", "A", "P", "pump", "PT", "first");
    var b := InstrumentRow("Feed", "B", "P", "motor", "PT", "second");
    var rows := [a, b];
    assert rows[..1] == [a];
    assert [a][..0] == [];
    assert KeyOf(a) != KeyOf(b) by { assert KeyOf(a)[0] != KeyOf(b)[0]; }
    assert CountersOf([a]) == map[KeyOf(a) := 102];
    assert Next(CountersOf([a]), KeyOf(b)) == 101;
    var s1 := SystemsOf([a]);
    assert [a][..|[a]| - 1] == [];
    assert SystemsOf([a]) == Place(SystemsOf([]), a, Next(CountersOf([]), KeyOf(a)));
    assert s1 == Place(map[], a, 101);
    assert SystemsOf(rows) == Place(s1, b, 101);
    assert EquipKey(b, 101) == EquipKey(a, 101);
    PlaceWrites(s1, b, 101);
    PlaceKeepsKind(s1, b, 101, "Feed", EquipKey(a, 101));
  }
}
