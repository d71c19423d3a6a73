/** What a reopened database still knows: the rows that were inserted before it
    was closed. */
module Durability {
  import opened Seqs
  import opened Types
  import opened ByteIO
  import opened ZoneMaps
  import opened Footer
  import opened Disk
  import opened Chunks
  import opened Layout
  import opened Insert
  import opened RoundTrip
  import Catalog
  import Schema

  lemma BlobKeepsPage(d: DiskState, blob: Bytes, p: nat)
    requires HeaderOnDisk(d) && AppendOffset(d) < TWO64 && blob != []
    requires 1 <= p < d.nextFree && (p + 1) * PAGE_SIZE <= |d.file|
    ensures FilePage(WriteMetadataBlob(d, blob).file, p) == FilePage(d.file, p)
  {
    var off, mid := AppendOffset(d), Disk.Appended(d, blob);
    assert (p + 1) * PAGE_SIZE <= d.nextFree * PAGE_SIZE <= off;
    PwriteElsewhere(d.file, off, blob, p * PAGE_SIZE, (p + 1) * PAGE_SIZE);
    PersistedPage(mid, p);
  }

  /** Writing the metadata leaves every page handed out as it was. */
  lemma BlobKeepsPages(d: DiskState, blob: Bytes)
    requires HeaderOnDisk(d) && AppendOffset(d) < TWO64 && blob != []
    ensures Kept(d, WriteMetadataBlob(d, blob))
  {
    BlobInPlace(d, blob);
    var d' := WriteMetadataBlob(d, blob);
    forall p | 1 <= p < d.nextFree && (p + 1) * PAGE_SIZE <= |d.file|
      ensures FilePage(d'.file, p) == FilePage(d.file, p)
    {
      BlobKeepsPage(d, blob, p);
    }
  }

  lemma TableKept(d: DiskState, d': DiskState, groups: seq<RowGroup>, contents: seq<Content>, extents: seq<(nat, nat)>)
    requires TableStored(d, groups, contents, extents) && Kept(d, d')
    ensures TableStored(d', groups, contents, extents)
  {
    forall k | 0 <= k < |groups| ensures StoredIn(d', groups[k], contents[k], extents[k]) {
      StoredKept(d, d', groups[k], contents[k], extents[k]);
    }
  }

  /** The footer of an inserted table survives its round trip. */
  lemma StoredZonesBuilt(d: DiskState, groups: seq<RowGroup>, contents: seq<Content>, extents: seq<(nat, nat)>)
    requires TableStored(d, groups, contents, extents)
    ensures ZonesBuilt(groups)
  {
    forall g, e | g in groups && e in g.columns ensures WellBuilt(ZoneOfEntry(e)) {
      var k :| 0 <= k < |groups| && groups[k] == g;
      assert StoredIn(d, groups[k], contents[k], extents[k]);
      var c :| 0 <= c < |g.columns| && g.columns[c] == e;
      assert ColumnStored(FilePages(d.file), g.columns[c], contents[k].columns[c], extents[k].0, extents[k].1);
      ZoneOfWellBuilt(contents[k].columns[c].ty, contents[k].columns[c].cells);
    }
  }

  /** What every table of the catalog stores, and where. */
  type Stores = map<Bytes, (seq<Content>, seq<(nat, nat)>)>

  ghost predicate AllStored(d: DiskState, tables: Catalog.Tables, stores: Stores) {
    forall name :: name in tables ==>
      name in stores && TableStored(d, tables[name].groups, stores[name].0, stores[name].1)
  }

  /** The footer of a catalog whose tables were inserted reads back exactly. */
  lemma FooterZonesBuilt(d: DiskState, tables: Catalog.Tables, order: seq<Bytes>, stores: Stores)
    requires AllStored(d, tables, stores)
    ensures ZonesBuilt(Catalog.FooterIn(tables, order))
  {
    forall g, e | g in Catalog.FooterIn(tables, order) && e in g.columns ensures WellBuilt(ZoneOfEntry(e)) {
      ConcatMapMember(order, Catalog.GroupsOf(tables), g);
      var name :| name in order && g in Catalog.GroupsOf(tables)(name);
      StoredZonesBuilt(d, tables[name].groups, stores[name].0, stores[name].1);
    }
  }

  /** A database as it is before it is closed: a consistent catalog of stored tables. */
  ghost predicate Closable(d: DiskState, schema: Catalog.SchemaSection, tables: Catalog.Tables, order: seq<Bytes>,
                           stores: Stores) {
    && HeaderOnDisk(d) && AppendOffset(d) < TWO64
    && Catalog.Consistent(schema, tables) && Catalog.Enumerates(order, tables)
    && Catalog.SizesFit(schema, Catalog.FooterIn(tables, order)) && AllStored(d, tables, stores)
  }

  /** Closing and reopening the database: the catalog is back, and the file
      still stores the rows of every row group it names. */
  lemma ReopenedTablesStored(d: DiskState, schema: Catalog.SchemaSection, tables: Catalog.Tables, order: seq<Bytes>,
                             stores: Stores)
    requires Closable(d, schema, tables, order, stores)
    ensures var d' := Catalog.PersistIn(d, schema, tables, order);
      && HeaderOnDisk(d') && Catalog.Opened(d'.file) == Some((d', schema, tables))
      && AllStored(d', tables, stores)
  {
    var blob := Catalog.Combined(schema, Catalog.FooterIn(tables, order));
    assert |blob| >= 4;
    FooterZonesBuilt(d, tables, order, stores);
    Catalog.PersistThenOpen(d, schema, tables, order);
    BlobInPlace(d, blob);
    BlobKeepsPages(d, blob);
    forall name | name in tables
      ensures TableStored(WriteMetadataBlob(d, blob), tables[name].groups, stores[name].0, stores[name].1)
    {
      TableKept(d, WriteMetadataBlob(d, blob), tables[name].groups, stores[name].0, stores[name].1);
    }
  }

  function ColumnTypes(table: Catalog.Table): seq<TypeId> { Map(table.schema.columns, (c: Schema.ColumnDef) => c.ty) }

  /** Reopening a file that was persisted and scanning one of its tables gives
      back exactly the rows that were stored, in order, if and only if the first
      bitmap page covers every VARCHAR column. */
  method ScanReopened(file: Bytes, name: Bytes, poolSize: nat, ghost d: DiskState, ghost schema: Catalog.SchemaSection,
                      ghost tables: Catalog.Tables, ghost order: seq<Bytes>, ghost stores: Stores)
      returns (ok: bool, chunks: seq<Chunk>)
    requires Closable(d, schema, tables, order, stores)
    requires file == Catalog.PersistIn(d, schema, tables, order).file
    requires name in tables && poolSize >= 2
    requires ContentsTyped(stores[name].0, ColumnTypes(tables[name])) && AllTextsFit(stores[name].0)
    ensures ok <==> AllReadable(tables[name].groups, ColumnTypes(tables[name]))
    ensures ok ==> AllValid(chunks) && Stream(chunks) == StoredRows(stores[name].0)
  {
    ghost var d' := Catalog.PersistIn(d, schema, tables, order);
    ReopenedIs(d, schema, tables, order, stores, d', file);
    var table := Catalog.Opened(file).value.2[name];
    var disk := new DiskManager.OpenExisting(file);
    ok, chunks := ScanStored(disk, poolSize, ColumnTypes(table), table.groups, stores[name].0, stores[name].1);
  }

  lemma ReopenedIs(d: DiskState, schema: Catalog.SchemaSection, tables: Catalog.Tables, order: seq<Bytes>,
                   stores: Stores,
                   d': DiskState, file: Bytes)
    requires Closable(d, schema, tables, order, stores)
    requires d' == Catalog.PersistIn(d, schema, tables, order) && file == d'.file
    ensures Catalog.Opened(file) == Some((d', schema, tables)) && Open(file) == Some(d') && Usable(d')
    ensures AllStored(d', tables, stores)
  {
    ReopenedTablesStored(d, schema, tables, order, stores);
    ReopenRestoresState(d');
  }
}
