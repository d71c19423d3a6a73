/** The catalog: tables with their row groups, persisted as one metadata blob
    and reconstructed when the file is opened again. */
module Catalog {
  import opened Seqs
  import opened Types
  import opened ByteIO
  import opened Disk
  import Footer
  import Schema

  type RowGroup = Footer.RowGroup
  type SchemaSection = Schema.SchemaSection
  type TableSchema = Schema.TableSchema

  /** A table object; the row total is a 64-bit counter. */
  datatype Table = Table(schema: TableSchema, groups: seq<RowGroup>, totalRows: nat)

  type Tables = map<Bytes, Table>

  // ----- the blob -----

  function Combined(schema: SchemaSection, groups: seq<RowGroup>): Bytes {
    EncodeU32(|Schema.EncodeSchema(schema)| % TWO32) + Schema.EncodeSchema(schema) + Footer.EncodeFooter(groups)
  }

  function Split(blob: Bytes): Option<(SchemaSection, seq<RowGroup>)> {
    var length :- DecodeU32(blob);
    var schemaBytes :- DecodeBytes(length.1, length.0);
    var schema :- Schema.DecodeSchema(schemaBytes.0);
    var footer :- Footer.DecodeFooter(schemaBytes.1);
    Some((schema.0, footer.0))
  }

  /** Every length and count fits the 32 bits it is stored in. */
  ghost predicate SizesFit(schema: SchemaSection, groups: seq<RowGroup>) {
    Schema.SchemaFits(schema) && |Schema.EncodeSchema(schema)| < TWO32 && Footer.CountsFit(groups)
  }

  /** And the footer is one whose round trip is exact. */
  ghost predicate Fits(schema: SchemaSection, groups: seq<RowGroup>) {
    SizesFit(schema, groups) && Footer.ZonesBuilt(groups)
  }

  lemma SplitUndoesCombined(schema: SchemaSection, groups: seq<RowGroup>)
    requires Fits(schema, groups)
    ensures Split(Combined(schema, groups)) == Some((schema, groups))
  {
    var s, f := Schema.EncodeSchema(schema), Footer.EncodeFooter(groups);
    CountReadsBack(|s|, s, f);
    assert (s + f)[..|s|] == s && (s + f)[|s|..] == f;
    Schema.SchemaRoundTrip(schema, []);
    Footer.FooterRoundTripIff(groups, []);
    PlusEmpty(s);
    PlusEmpty(f);
  }

  // ----- reconstruction -----

  function Blank(t: TableSchema): Table { Table(t, [], 0) }

  /** TableObject::AddRowGroup; None is the exception for a foreign table id. */
  function Added(t: Table, g: RowGroup): Option<Table> {
    if g.tableId != t.schema.id then None
    else Some(t.(groups := t.groups + [g], totalRows := (t.totalRows + g.rowCount) % TWO64))
  }

  /** emplace: the first table of a name stays. */
  function Named(entries: seq<TableSchema>): Tables {
    if entries == [] then map[]
    else
      var rest, last := Named(entries[..|entries| - 1]), entries[|entries| - 1];
      if last.name in rest then rest else rest[last.name := Blank(last)]
  }

  function ById(entries: seq<TableSchema>): map<U32, Bytes> {
    if entries == [] then map[]
    else
      var rest, last := ById(entries[..|entries| - 1]), entries[|entries| - 1];
      if last.id in rest then rest else rest[last.id := last.name]
  }

  /** One row group goes to the table with its id. */
  function Placed(tables: Tables, ids: map<U32, Bytes>, g: RowGroup): Option<Tables> {
    if g.tableId !in ids || ids[g.tableId] !in tables then None
    else
      var t :- Added(tables[ids[g.tableId]], g);
      Some(tables[ids[g.tableId] := t])
  }

  function AllPlaced(tables: Tables, ids: map<U32, Bytes>, groups: seq<RowGroup>): Option<Tables> {
    if groups == [] then Some(tables)
    else
      var before :- AllPlaced(tables, ids, groups[..|groups| - 1]);
      Placed(before, ids, groups[|groups| - 1])
  }

  function Reconstructed(blob: Bytes): Option<(SchemaSection, Tables)> {
    var parts :- Split(blob);
    var tables :- AllPlaced(Named(parts.0.tables), ById(parts.0.tables), parts.1);
    Some((parts.0, tables))
  }

  // ----- consistency -----

  /** A table as adding its row groups one by one leaves it. */
  function Grown(t: Table, groups: seq<RowGroup>): Option<Table> {
    if groups == [] then Some(t)
    else
      var before :- Grown(t, groups[..|groups| - 1]);
      Added(before, groups[|groups| - 1])
  }

  function RowsIn(groups: seq<RowGroup>): nat {
    if groups == [] then 0 else RowsIn(groups[..|groups| - 1]) + groups[|groups| - 1].rowCount
  }

  /** A grown table holds exactly the row groups added, all of its own id, and
      its total is their row count in 64 bits. */
  lemma {:induction false} GrownTable(s: TableSchema, groups: seq<RowGroup>)
    ensures Grown(Blank(s), groups).Some? <==> forall g :: g in groups ==> g.tableId == s.id
    ensures Grown(Blank(s), groups).Some? ==> Grown(Blank(s), groups).value == Table(s, groups, RowsIn(groups) % TWO64)
  {
    if groups != [] {
      var init, last := groups[..|groups| - 1], groups[|groups| - 1];
      SplitLast(groups);
      GrownTable(s, init);
      WrappedSum(RowsIn(init), last.rowCount);
    }
  }

  lemma WrappedSum(a: nat, b: nat)
    ensures (a % TWO64 + b) % TWO64 == (a + b) % TWO64
  {
  }

  predicate DistinctTables(entries: seq<TableSchema>) {
    forall i, j :: 0 <= i < j < |entries| ==> entries[i].name != entries[j].name && entries[i].id != entries[j].id
  }

  /** The schema section and the table map tell the same story. */
  ghost predicate Consistent(schema: SchemaSection, tables: Tables) {
    && DistinctTables(schema.tables)
    && (forall e :: e in schema.tables ==> e.id < schema.nextId && e.name in tables && tables[e.name].schema == e)
    && (forall name :: name in tables ==> tables[name].schema.name == name && tables[name].schema in schema.tables)
    && (forall name :: name in tables ==> Grown(Blank(tables[name].schema), tables[name].groups) == Some(tables[name]))
  }

  // ----- the table map is rebuilt -----

  lemma {:induction false} NamedHolds(entries: seq<TableSchema>, e: TableSchema)
    requires DistinctTables(entries) && e in entries
    ensures e.name in Named(entries) && Named(entries)[e.name] == Blank(e)
    ensures e.id in ById(entries) && ById(entries)[e.id] == e.name
  {
    var init, last := entries[..|entries| - 1], entries[|entries| - 1];
    if e in init {
      NamedHolds(init, e);
    } else {
      NamedOnly(init);
      assert e == last;
      forall x | x in init ensures x.name != last.name && x.id != last.id {
        var i :| 0 <= i < |init| && init[i] == x;
        assert entries[i] == x;
      }
    }
  }

  lemma {:induction false} NamedOnly(entries: seq<TableSchema>)
    ensures forall name :: name in Named(entries) ==> exists e :: e in entries && e.name == name
    ensures forall id :: id in ById(entries) ==> exists e :: e in entries && e.id == id
  {
    if entries != [] {
      var init, last := entries[..|entries| - 1], entries[|entries| - 1];
      NamedOnly(init);
      assert forall e :: e in init ==> e in entries;
      assert last in entries;
    }
  }

  lemma {:induction false} PlacedConcat(tables: Tables, ids: map<U32, Bytes>, a: seq<RowGroup>, b: seq<RowGroup>)
    requires AllPlaced(tables, ids, a).Some?
    ensures AllPlaced(tables, ids, a + b) == AllPlaced(AllPlaced(tables, ids, a).value, ids, b)
  {
    if b == [] {
      PlusEmpty(a);
    } else {
      PlacedConcat(tables, ids, a, b[..|b| - 1]);
      assert (a + b)[..|a + b| - 1] == a + b[..|b| - 1];
    }
  }

  /** Row groups of one table grow that table and no other. */
  lemma {:induction false} OneTableGrows(tables: Tables, ids: map<U32, Bytes>, name: Bytes, groups: seq<RowGroup>)
    requires name in tables && tables[name].schema.id in ids && ids[tables[name].schema.id] == name
    requires Grown(tables[name], groups).Some?
    ensures AllPlaced(tables, ids, groups) == Some(tables[name := Grown(tables[name], groups).value])
    ensures Grown(tables[name], groups).value.schema == tables[name].schema
  {
    if groups == [] {
      assert tables[name := tables[name]] == tables;
    } else {
      var init := groups[..|groups| - 1];
      OneTableGrows(tables, ids, name, init);
      var before := Grown(tables[name], init).value;
      var after := Grown(tables[name], groups).value;
      assert tables[name := before][name := after] == tables[name := after];
    }
  }

  /** The map while the tables of `done` have their row groups back. */
  function Partly(tables: Tables, done: set<Bytes>): Tables {
    map name | name in tables :: if name in done then tables[name] else Blank(tables[name].schema)
  }

  function GroupsOf(tables: Tables): Bytes -> seq<RowGroup> {
    (name: Bytes) => if name in tables then tables[name].groups else []
  }

  /** Iterating the table map in the given order. */
  function FooterIn(tables: Tables, order: seq<Bytes>): seq<RowGroup> { ConcatMap(order, GroupsOf(tables)) }

  function Names(order: seq<Bytes>): set<Bytes> { set n | n in order }

  predicate NoRepeats(order: seq<Bytes>) { forall i, j :: 0 <= i < j < |order| ==> order[i] != order[j] }

  /** A possible iteration order of the table map: every name once. */
  ghost predicate Enumerates(order: seq<Bytes>, tables: Tables) { NoRepeats(order) && Names(order) == tables.Keys }

  lemma StartBlank(schema: SchemaSection, tables: Tables)
    requires Consistent(schema, tables)
    ensures Named(schema.tables) == Partly(tables, {})
  {
    var named := Named(schema.tables);
    NamedOnly(schema.tables);
    forall name | name in tables ensures name in named && named[name] == Blank(tables[name].schema) {
      NamedHolds(schema.tables, tables[name].schema);
    }
  }

  lemma GrowOne(schema: SchemaSection, tables: Tables, done: set<Bytes>, name: Bytes)
    requires Consistent(schema, tables) && name in tables && name !in done
    ensures AllPlaced(Partly(tables, done), ById(schema.tables), tables[name].groups) ==
      Some(Partly(tables, done + {name}))
  {
    NamedHolds(schema.tables, tables[name].schema);
    OneTableGrows(Partly(tables, done), ById(schema.tables), name, tables[name].groups);
    assert Partly(tables, done)[name := tables[name]] == Partly(tables, done + {name});
  }

  lemma {:induction false} GrowAll(schema: SchemaSection, tables: Tables, order: seq<Bytes>)
    requires Consistent(schema, tables) && NoRepeats(order) && Names(order) <= tables.Keys
    ensures AllPlaced(Partly(tables, {}), ById(schema.tables), FooterIn(tables, order)) ==
      Some(Partly(tables, Names(order)))
  {
    if order == [] {
      assert Names(order) == {};
    } else {
      var init, last := order[..|order| - 1], order[|order| - 1];
      assert last in Names(order);
      assert Names(init) <= Names(order);
      GrowAll(schema, tables, init);
      assert last !in init;
      GrowOne(schema, tables, Names(init), last);
      PlacedConcat(Partly(tables, {}), ById(schema.tables), FooterIn(tables, init), tables[last].groups);
      SplitLast(order);
      assert Names(order) == Names(init) + {last};
    }
  }

  /** Reconstruction restores the schema with its next id, every table with its
      row groups in order and its row total, in whatever order the table map
      was iterated when it was written. */
  lemma ReconstructRestores(schema: SchemaSection, tables: Tables, order: seq<Bytes>)
    requires Consistent(schema, tables) && Enumerates(order, tables) && Fits(schema, FooterIn(tables, order))
    ensures Reconstructed(Combined(schema, FooterIn(tables, order))) == Some((schema, tables))
  {
    SplitUndoesCombined(schema, FooterIn(tables, order));
    TablesRestored(schema, tables, order);
    ReconstructedFrom(Combined(schema, FooterIn(tables, order)), schema, FooterIn(tables, order), tables);
  }

  lemma TablesRestored(schema: SchemaSection, tables: Tables, order: seq<Bytes>)
    requires Consistent(schema, tables) && Enumerates(order, tables)
    ensures AllPlaced(Named(schema.tables), ById(schema.tables), FooterIn(tables, order)) == Some(tables)
  {
    StartBlank(schema, tables);
    GrowAll(schema, tables, order);
    assert Partly(tables, Names(order)) == tables;
  }

  lemma ReconstructedFrom(blob: Bytes, schema: SchemaSection, groups: seq<RowGroup>, tables: Tables)
    requires Split(blob) == Some((schema, groups))
    requires AllPlaced(Named(schema.tables), ById(schema.tables), groups) == Some(tables)
    ensures Reconstructed(blob) == Some((schema, tables))
  {
  }

  function PersistIn(disk: DiskState, schema: SchemaSection, tables: Tables, order: seq<Bytes>): DiskState
    requires InRange(disk) && AppendOffset(disk) < TWO64
  {
    WriteMetadataBlob(disk, Combined(schema, FooterIn(tables, order)))
  }

  /** Catalog::Open on the file's bytes. */
  function Opened(file: Bytes): Option<(DiskState, SchemaSection, Tables)> {
    var disk :- Open(file);
    var blob :- ReadMetadataBlob(disk);
    var state :- Reconstructed(blob);
    Some((disk, state.0, state.1))
  }

  /** Closing and reopening the database gives back the same catalog. */
  lemma PersistThenOpen(disk: DiskState, schema: SchemaSection, tables: Tables, order: seq<Bytes>)
    requires HeaderOnDisk(disk) && AppendOffset(disk) < TWO64
    requires Consistent(schema, tables) && Enumerates(order, tables) && Fits(schema, FooterIn(tables, order))
    ensures Opened(PersistIn(disk, schema, tables, order).file) ==
      Some((PersistIn(disk, schema, tables, order), schema, tables))
  {
    var blob := Combined(schema, FooterIn(tables, order));
    assert |blob| >= 4;
    BlobRoundTrip(disk, blob);
    ReconstructRestores(schema, tables, order);
  }

  // ----- the operations keep the catalog consistent -----

  function WithTable(schema: SchemaSection, name: Bytes, columns: seq<Schema.ColumnDef>): SchemaSection
    requires schema.nextId + 1 < TWO32
  {
    Schema.SchemaSection(schema.nextId + 1, schema.tables + [Schema.TableSchema(schema.nextId, name, columns)])
  }

  lemma CreateConsistent(schema: SchemaSection, tables: Tables, name: Bytes, columns: seq<Schema.ColumnDef>)
    requires Consistent(schema, tables) && name !in tables && schema.nextId + 1 < TWO32
    ensures var e := Schema.TableSchema(schema.nextId, name, columns);
      Consistent(WithTable(schema, name, columns), tables[name := Blank(e)])
  {
    var e := Schema.TableSchema(schema.nextId, name, columns);
    var entries := schema.tables + [e];
    forall i | 0 <= i < |schema.tables| ensures schema.tables[i].name != name && schema.tables[i].id != e.id {
      assert schema.tables[i] in schema.tables;
    }
    assert entries[|schema.tables|] in entries;
    forall x | x in schema.tables ensures x in entries { }
  }

  lemma AddConsistent(schema: SchemaSection, tables: Tables, name: Bytes, g: RowGroup)
    requires Consistent(schema, tables) && name in tables && Added(tables[name], g).Some?
    ensures Consistent(schema, tables[name := Added(tables[name], g).value])
  {
    var t, t' := tables[name], Added(tables[name], g).value;
    assert t'.groups[..|t'.groups| - 1] == t.groups;
    assert Grown(Blank(t'.schema), t'.groups) == Some(t');
  }

  // ----- the catalog object -----

  class CatalogManager {
    const disk: DiskManager
    var schema: SchemaSection
    var tables: Tables

    ghost predicate Valid()
      reads this, disk
    {
      Consistent(schema, tables) && HeaderOnDisk(disk.state)
    }

    constructor Create(d: DiskManager)
      requires HeaderOnDisk(d.state)
      ensures Valid() && disk == d && schema == Schema.SchemaSection(0, []) && tables == map[]
    {
      disk, schema, tables := d, Schema.SchemaSection(0, []), map[];
    }

    /** The map is iterated in some order, which the file may depend on but
        reopening does not. */
    method CollectRowGroups() returns (groups: seq<RowGroup>, ghost order: seq<Bytes>)
      ensures Enumerates(order, tables) && groups == FooterIn(tables, order)
    {
      groups, order := [], [];
      var left := tables.Keys;
      while left != {}
        invariant left <= tables.Keys && NoRepeats(order) && Names(order) == tables.Keys - left
        invariant groups == FooterIn(tables, order)
        decreases left
      {
        var name :| name in left;
        assert forall n :: n in order ==> n in Names(order);
        ConcatMapSnoc(order, name, GroupsOf(tables));
        assert Names(order + [name]) == Names(order) + {name};
        groups := groups + tables[name].groups;
        order := order + [name];
        left := left - {name};
      }
    }

    method PersistMetadata() returns (ghost order: seq<Bytes>)
      requires HeaderOnDisk(disk.state) && AppendOffset(disk.state) < TWO64
      modifies disk
      ensures HeaderOnDisk(disk.state)
      ensures Enumerates(order, tables) && disk.state == PersistIn(old(disk.state), schema, tables, order)
    {
      var groups: seq<RowGroup>;
      groups, order := CollectRowGroups();
      var schemaBytes := Schema.Serialize(schema);
      var footerBytes := Footer.Serialize(groups);
      var blob := WriteU32([], |schemaBytes| % TWO32);
      PlusEmpty(EncodeU32(|schemaBytes| % TWO32));
      blob := blob + schemaBytes + footerBytes;
      assert |blob| >= 4;
      BlobInPlace(disk.state, blob);
      disk.WriteBlob(blob);
    }

    /** None is the exception for a name already taken. */
    method CreateTable(name: Bytes, columns: seq<Schema.ColumnDef>) returns (id: Option<U32>, ghost order: seq<Bytes>)
      requires Valid() && AppendOffset(disk.state) < TWO64 && schema.nextId + 1 < TWO32
      modifies this, disk
      ensures Valid()
      ensures id.None? <==> name in old(tables)
      ensures id.None? ==> schema == old(schema) && tables == old(tables) && disk.state == old(disk.state)
      ensures id.Some? ==>
        && id.value == old(schema).nextId && schema.nextId == id.value + 1
        && schema.tables == old(schema).tables + [Schema.TableSchema(id.value, name, columns)]
        && tables == old(tables)[name := Blank(Schema.TableSchema(id.value, name, columns))]
        && Enumerates(order, tables) && disk.state == PersistIn(old(disk.state), schema, tables, order)
    {
      if name in tables {
        id, order := None, [];
        return;
      }
      CreateConsistent(schema, tables, name, columns);
      var entry := Schema.TableSchema(schema.nextId, name, columns);
      schema := Schema.SchemaSection(schema.nextId + 1, schema.tables + [entry]);
      tables := tables[name := Table(entry, [], 0)];
      order := PersistMetadata();
      id := Some(entry.id);
    }

    /** False is the exception for an unknown table or a foreign row group. */
    method AddRowGroup(name: Bytes, g: RowGroup) returns (ok: bool)
      requires Consistent(schema, tables)
      modifies this`tables
      ensures Consistent(schema, tables)
      ensures ok <==> name in old(tables) && g.tableId == old(tables)[name].schema.id
      ensures tables == if ok then old(tables)[name := Added(old(tables)[name], g).value] else old(tables)
    {
      if name !in tables || g.tableId != tables[name].schema.id {
        return false;
      }
      ghost var before := tables;
      var t := tables[name];
      tables := tables[name := t.(groups := t.groups + [g], totalRows := (t.totalRows + g.rowCount) % TWO64)];
      ok := true;
      assert tables == before[name := Added(before[name], g).value];
      AddConsistent(schema, before, name, g);
    }

    /** ReconstructFromDisk; false is an exception or a read past the blob. */
    method ReconstructFromDisk() returns (ok: bool)
      modifies this
      ensures match ReadMetadataBlob(disk.state)
              case None => !ok
              case Some(blob) => match Reconstructed(blob)
                                 case None => !ok
                                 case Some(state) => ok && schema == state.0 && tables == state.1
    {
      var blob := ReadMetadataBlob(disk.state);
      if blob.None? {
        return false;
      }
      var parts := SplitBlob(blob.value);
      if parts.None? {
        return false;
      }
      schema := parts.value.0;
      ok := RebuildTables(parts.value.1);
    }

    method SplitBlob(blob: Bytes) returns (parts: Option<(SchemaSection, seq<RowGroup>)>)
      ensures parts == Split(blob)
    {
      var reader := new ByteReader(blob);
      var length :- reader.ReadU32();
      var schemaBytes :- reader.ReadBytes(length);
      var section :- Schema.Deserialize(schemaBytes);
      var groups :- Footer.Deserialize(reader.Rest());
      parts := Some((section, groups));
    }

    method RebuildTables(groups: seq<RowGroup>) returns (ok: bool)
      modifies this`tables
      ensures match AllPlaced(Named(schema.tables), ById(schema.tables), groups)
              case None => !ok
              case Some(t) => ok && tables == t
    {
      tables := map[];
      var ids: map<U32, Bytes> := map[];
      var entries := schema.tables;
      for i := 0 to |entries|
        invariant tables == Named(entries[..i]) && ids == ById(entries[..i])
      {
        assert entries[..i + 1][..i] == entries[..i];
        if entries[i].name !in tables {
          tables := tables[entries[i].name := Table(entries[i], [], 0)];
        }
        if entries[i].id !in ids {
          ids := ids[entries[i].id := entries[i].name];
        }
      }
      assert entries[..|entries|] == entries;
      ghost var start := tables;
      for i := 0 to |groups|
        invariant AllPlaced(start, ids, groups[..i]) == Some(tables)
      {
        assert groups[..i + 1][..i] == groups[..i];
        var g := groups[i];
        if g.tableId !in ids || ids[g.tableId] !in tables || g.tableId != tables[ids[g.tableId]].schema.id {
          PlacedFails(start, ids, groups, i + 1);
          return false;
        }
        var t := tables[ids[g.tableId]];
        tables := tables[ids[g.tableId] :=
          t.(groups := t.groups + [g], totalRows := (t.totalRows + g.rowCount) % TWO64)];
      }
      assert groups[..|groups|] == groups;
      ok := true;
    }
  }

  /** The first exception is final. */
  lemma {:induction false} PlacedFails(tables: Tables, ids: map<U32, Bytes>, groups: seq<RowGroup>, k: nat)
    requires k <= |groups| && AllPlaced(tables, ids, groups[..k]).None?
    ensures AllPlaced(tables, ids, groups).None?
  {
    if k == |groups| {
      assert groups[..k] == groups;
    } else {
      var init := groups[..|groups| - 1];
      assert init[..k] == groups[..k];
      PlacedFails(tables, ids, init, k);
    }
  }
}
