/** The schema section: table ids, names and column definitions as bytes. */
module Schema {
  import opened Seqs
  import opened Types
  import opened ByteIO

  datatype ColumnDef = ColumnDef(name: Bytes, ty: TypeId, ordinal: U32)
  datatype TableSchema = TableSchema(id: U32, name: Bytes, columns: seq<ColumnDef>)
  datatype SchemaSection = SchemaSection(nextId: U32, tables: seq<TableSchema>)

  function TypeByte(ty: TypeId): Byte { match ty case Integer => 0 case Float => 1 case Varchar => 2 }

  /** None is the exception thrown for an invalid TypeId byte. */
  function TypeOfByte(b: Byte): Option<TypeId> {
    if b == 0 then Some(Integer) else if b == 1 then Some(Float) else if b == 2 then Some(Varchar) else None
  }

  /** WriteString narrows the length to 32 bits. */
  function EncodeName(s: Bytes): Bytes { EncodeU32(|s| % TWO32) + s }

  function EncodeColumnDef(c: ColumnDef): Bytes { EncodeName(c.name) + [TypeByte(c.ty)] + EncodeU32(c.ordinal) }

  function DecodeColumnDef(s: Bytes): Option<(ColumnDef, Bytes)> {
    var name :- DecodeString(s);
    var raw :- DecodeU8(name.1);
    var ty :- TypeOfByte(raw.0);
    var ordinal :- DecodeU32(raw.1);
    Some((ColumnDef(name.0, ty, ordinal.0), ordinal.1))
  }

  function DefBytes(): ColumnDef -> Bytes { (c: ColumnDef) => EncodeColumnDef(c) }
  function DefReader(): Bytes -> Option<(ColumnDef, Bytes)> { (s: Bytes) => DecodeColumnDef(s) }
  function SameDef(): ColumnDef -> ColumnDef { (c: ColumnDef) => c }

  function EncodeTable(t: TableSchema): Bytes {
    EncodeU32(t.id) + EncodeName(t.name) + EncodeList(t.columns, DefBytes())
  }

  function DecodeTable(s: Bytes): Option<(TableSchema, Bytes)> {
    var id :- DecodeU32(s);
    var name :- DecodeString(id.1);
    var columns :- DecodeList(name.1, DefReader());
    Some((TableSchema(id.0, name.0, columns.0), columns.1))
  }

  function TableBytes(): TableSchema -> Bytes { (t: TableSchema) => EncodeTable(t) }
  function TableReader(): Bytes -> Option<(TableSchema, Bytes)> { (s: Bytes) => DecodeTable(s) }
  function SameTable(): TableSchema -> TableSchema { (t: TableSchema) => t }

  function EncodeSchema(s: SchemaSection): Bytes { EncodeU32(s.nextId) + EncodeList(s.tables, TableBytes()) }

  function DecodeSchema(s: Bytes): Option<(SchemaSection, Bytes)> {
    var nextId :- DecodeU32(s);
    var tables :- DecodeList(nextId.1, TableReader());
    Some((SchemaSection(nextId.0, tables.0), tables.1))
  }

  // ----- round trip -----

  predicate TableFits(t: TableSchema) {
    |t.name| < TWO32 && |t.columns| < TWO32 && forall c :: c in t.columns ==> |c.name| < TWO32
  }

  /** Every length fits the 32 bits it is stored in. */
  predicate SchemaFits(s: SchemaSection) {
    |s.tables| < TWO32 && forall t :: t in s.tables ==> TableFits(t)
  }

  lemma NameRoundTrip(s: Bytes, rest: Bytes)
    requires |s| < TWO32
    ensures DecodeString(EncodeName(s) + rest) == Some((s, rest))
  {
    CountReadsBack(|s|, s, rest);
    assert (s + rest)[..|s|] == s && (s + rest)[|s|..] == rest;
  }

  lemma ColumnDefRoundTrip(c: ColumnDef, rest: Bytes)
    requires |c.name| < TWO32
    ensures DecodeColumnDef(EncodeColumnDef(c) + rest) == Some((c, rest))
  {
    Nest3(EncodeName(c.name), [TypeByte(c.ty)], EncodeU32(c.ordinal), rest);
    NameRoundTrip(c.name, [TypeByte(c.ty)] + (EncodeU32(c.ordinal) + rest));
    U8RoundTrip(TypeByte(c.ty), EncodeU32(c.ordinal) + rest);
    U32RoundTrip(c.ordinal, rest);
  }

  lemma TableRoundTrip(t: TableSchema, rest: Bytes)
    requires TableFits(t)
    ensures DecodeTable(EncodeTable(t) + rest) == Some((t, rest))
  {
    var body := EncodeList(t.columns, DefBytes());
    Nest3(EncodeU32(t.id), EncodeName(t.name), body, rest);
    U32RoundTrip(t.id, EncodeName(t.name) + (body + rest));
    NameRoundTrip(t.name, body + rest);
    forall c: ColumnDef, r: Bytes | c in t.columns ensures DefReader()(DefBytes()(c) + r) == Some((SameDef()(c), r)) {
      ColumnDefRoundTrip(c, r);
    }
    ListReadsBack(t.columns, rest, DefBytes(), DefReader(), SameDef());
    assert Map(t.columns, SameDef()) == t.columns;
  }

  /** The schema section reads back whole, ids, names, types and ordinals alike. */
  lemma SchemaRoundTrip(s: SchemaSection, rest: Bytes)
    requires SchemaFits(s)
    ensures DecodeSchema(EncodeSchema(s) + rest) == Some((s, rest))
  {
    var body := EncodeList(s.tables, TableBytes());
    Assoc(EncodeU32(s.nextId), body, rest);
    U32RoundTrip(s.nextId, body + rest);
    forall t: TableSchema, r: Bytes | t in s.tables
      ensures TableReader()(TableBytes()(t) + r) == Some((SameTable()(t), r))
    {
      TableRoundTrip(t, r);
    }
    ListReadsBack(s.tables, rest, TableBytes(), TableReader(), SameTable());
    assert Map(s.tables, SameTable()) == s.tables;
  }

  // ----- writers and readers -----

  method WriteName(buf: Bytes, s: Bytes) returns (out: Bytes)
    ensures out == buf + EncodeName(s)
  {
    out := WriteU32(buf, |s| % TWO32);
    out := out + s;
    Assoc(buf, EncodeU32(|s| % TWO32), s);
  }

  method WriteColumnDefs(buf: Bytes, columns: seq<ColumnDef>) returns (out: Bytes)
    ensures out == buf + EncodeList(columns, DefBytes())
  {
    out := WriteU32(buf, |columns| % TWO32);
    ghost var head := EncodeU32(|columns| % TWO32);
    PlusEmpty(buf + head);
    for i := 0 to |columns|
      invariant out == (buf + head) + ConcatMap(columns[..i], DefBytes())
    {
      var c := columns[i];
      assert columns[..i + 1] == columns[..i] + [c];
      ConcatMapSnoc(columns[..i], c, DefBytes());
      ghost var before := out;
      out := WriteName(out, c.name);
      out := WriteU32(out + [TypeByte(c.ty)], c.ordinal);
      Nest3(before, EncodeName(c.name), [TypeByte(c.ty)], EncodeU32(c.ordinal));
      Assoc(EncodeName(c.name), [TypeByte(c.ty)], EncodeU32(c.ordinal));
      Assoc(buf + head, ConcatMap(columns[..i], DefBytes()), EncodeColumnDef(c));
    }
    assert columns[..|columns|] == columns;
    Assoc(buf, head, ConcatMap(columns, DefBytes()));
  }

  method WriteTable(buf: Bytes, t: TableSchema) returns (out: Bytes)
    ensures out == buf + EncodeTable(t)
  {
    out := WriteU32(buf, t.id);
    out := WriteName(out, t.name);
    out := WriteColumnDefs(out, t.columns);
    Nest3(buf, EncodeU32(t.id), EncodeName(t.name), EncodeList(t.columns, DefBytes()));
    Assoc(EncodeU32(t.id), EncodeName(t.name), EncodeList(t.columns, DefBytes()));
  }

  method Serialize(s: SchemaSection) returns (out: Bytes)
    ensures out == EncodeSchema(s)
  {
    out := WriteU32([], s.nextId);
    out := WriteU32(out, |s.tables| % TWO32);
    ghost var head := EncodeU32(s.nextId) + EncodeU32(|s.tables| % TWO32);
    PlusEmpty(EncodeU32(s.nextId));
    PlusEmpty(head);
    for i := 0 to |s.tables|
      invariant out == head + ConcatMap(s.tables[..i], TableBytes())
    {
      assert s.tables[..i + 1] == s.tables[..i] + [s.tables[i]];
      ConcatMapSnoc(s.tables[..i], s.tables[i], TableBytes());
      out := WriteTable(out, s.tables[i]);
      Assoc(head, ConcatMap(s.tables[..i], TableBytes()), EncodeTable(s.tables[i]));
    }
    assert s.tables[..|s.tables|] == s.tables;
    Assoc(EncodeU32(s.nextId), EncodeU32(|s.tables| % TWO32), ConcatMap(s.tables, TableBytes()));
  }

  method ReadName(reader: ByteReader) returns (r: Option<Bytes>)
    requires reader.Valid()
    modifies reader
    ensures reader.Valid()
    ensures match DecodeString(old(reader.Rest()))
            case None => r.None?
            case Some(p) => r == Some(p.0) && reader.Rest() == p.1
  {
    var length :- reader.ReadU32();
    r := reader.ReadBytes(length);
  }

  method ReadColumnDef(reader: ByteReader) returns (r: Option<ColumnDef>)
    requires reader.Valid()
    modifies reader
    ensures reader.Valid()
    ensures match DecodeColumnDef(old(reader.Rest()))
            case None => r.None?
            case Some(p) => r == Some(p.0) && reader.Rest() == p.1
  {
    var name :- ReadName(reader);
    var raw :- reader.ReadU8();
    if raw > 2 {
      return None;
    }
    var ty := if raw == 0 then Integer else if raw == 1 then Float else Varchar;
    var ordinal :- reader.ReadU32();
    r := Some(ColumnDef(name, ty, ordinal));
  }

  method ReadTable(reader: ByteReader) returns (r: Option<TableSchema>)
    requires reader.Valid()
    modifies reader
    ensures reader.Valid()
    ensures match DecodeTable(old(reader.Rest()))
            case None => r.None?
            case Some(p) => r == Some(p.0) && reader.Rest() == p.1
  {
    var id :- reader.ReadU32();
    var name :- ReadName(reader);
    var n :- reader.ReadU32();
    ghost var start := reader.Rest();
    var columns: seq<ColumnDef> := [];
    for c := 0 to n
      invariant reader.Valid() && DecodeAll(c, start, DefReader()) == Some((columns, reader.Rest()))
    {
      if DecodeAll(c + 1, start, DefReader()).None? { DecodeAllFails(c + 1, n, start, DefReader()); }
      var column :- ReadColumnDef(reader);
      columns := columns + [column];
    }
    r := Some(TableSchema(id, name, columns));
  }

  method Deserialize(bytes: Bytes) returns (r: Option<SchemaSection>)
    ensures match DecodeSchema(bytes)
            case None => r.None?
            case Some(p) => r == Some(p.0)
  {
    var reader := new ByteReader(bytes);
    var nextId :- reader.ReadU32();
    var n :- reader.ReadU32();
    ghost var start := reader.Rest();
    var tables: seq<TableSchema> := [];
    for t := 0 to n
      invariant reader.Valid() && DecodeAll(t, start, TableReader()) == Some((tables, reader.Rest()))
    {
      if DecodeAll(t + 1, start, TableReader()).None? { DecodeAllFails(t + 1, n, start, TableReader()); }
      var table :- ReadTable(reader);
      tables := tables + [table];
    }
    r := Some(SchemaSection(nextId, tables));
  }
}
