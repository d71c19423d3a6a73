/** The row-group footer: page ranges, null counts and zone maps of every row
    group, packed into bytes and read back. */
module Footer {
  import opened Seqs
  import opened Types
  import opened ByteIO
  import opened ZoneMaps

  datatype PageRange = PageRange(start: U32, count: U32)

  datatype ColumnEntry =
    | IntEntry(pages: PageRange, nullCount: U32, ints: Zone<Int32>)
    | FloatEntry(pages: PageRange, nullCount: U32, floats: Zone<Float32>)
    | StrEntry(offsets: PageRange, data: PageRange, nullCount: U32, strs: Zone<Str>)

  datatype RowGroup = RowGroup(tableId: U32, rowCount: U32, bitmap: PageRange, columns: seq<ColumnEntry>)

  const TAG_INTEGER: Byte := 0
  const TAG_FLOAT: Byte := 1
  const TAG_VARCHAR: Byte := 2

  // ----- scalars and prefixes -----

  function EncodeRange(r: PageRange): Bytes { EncodeU32(r.start) + EncodeU32(r.count) }

  function DecodeRange(s: Bytes): Option<(PageRange, Bytes)> {
    var start :- DecodeU32(s);
    var count :- DecodeU32(start.1);
    Some((PageRange(start.0, count.0), count.1))
  }

  function Padded(s: Str): (b: Bytes)
    ensures |b| == PREFIX_LENGTH
  {
    seq(PREFIX_LENGTH, i => if 0 <= i < |s| then s[i] else 0)
  }

  /** A length byte, then eight bytes padded with zeros. */
  function EncodePrefix(s: Str): Bytes { [|s| % 256] + Padded(s) }

  /** std::string::resize. */
  function Resized(b: Bytes, n: nat): (r: Bytes)
    ensures |r| == n
  {
    if n <= |b| then b[..n] else b + seq(n - |b|, _ => 0)
  }

  /** The prefix as the zone map takes it, which truncates again. */
  function DecodePrefix(s: Bytes): Option<(Str, Bytes)> {
    var length :- DecodeU8(s);
    var padded :- DecodeBytes(length.1, PREFIX_LENGTH);
    Some((Prefix(Resized(padded.0, length.0)), padded.1))
  }

  function IntBytes(): Int32 -> Bytes { (v: Int32) => EncodeU32(ToU32(v)) }
  function FloatBytes(): Float32 -> Bytes { (v: Float32) => EncodeU32(v) }
  function StrBytes(): Str -> Bytes { (v: Str) => EncodePrefix(v) }

  function DecodeInt(s: Bytes): Option<(Int32, Bytes)> {
    var u :- DecodeU32(s);
    Some((OfU32(u.0), u.1))
  }

  function IntReader(): Bytes -> Option<(Int32, Bytes)> { (s: Bytes) => DecodeInt(s) }
  function FloatReader(): Bytes -> Option<(Float32, Bytes)> { (s: Bytes) => DecodeU32(s) }
  function StrReader(): Bytes -> Option<(Str, Bytes)> { (s: Bytes) => DecodePrefix(s) }

  function SameInt(): Int32 -> Int32 { (v: Int32) => v }
  function SameFloat(): Float32 -> Float32 { (v: Float32) => v }

  /** What a prefix of any length reads back as. */
  function Reread(v: Str): Str { Prefix(Resized(Padded(v), |v| % 256)) }
  function RereadStr(): Str -> Str { (v: Str) => Reread(v) }

  // ----- zones -----

  function EncodeZone<T>(z: Zone<T>, enc: T -> Bytes): Bytes {
    if z.has then [1] + enc(z.min) + enc(z.max) else [0]
  }

  /** The ends are put back by updating an empty map twice. */
  function FromEnds<T>(a: T, b: T, less: (T, T) -> bool, blank: T): Zone<T> {
    UpdateWith(UpdateWith(Zone(false, blank, blank), a, less), b, less)
  }

  function DecodeZone<T>(s: Bytes, dec: Bytes -> Option<(T, Bytes)>, less: (T, T) -> bool, blank: T)
      : Option<(Zone<T>, Bytes)> {
    var has :- DecodeU8(s);
    if has.0 == 0 then Some((Zone(false, blank, blank), has.1))
    else
      var a :- dec(has.1);
      var b :- dec(a.1);
      Some((FromEnds(a.0, b.0, less, blank), b.1))
  }

  /** Reading what was written yields `image` of it and leaves the rest. */
  ghost predicate Inverts<T(!new)>(enc: T -> Bytes, dec: Bytes -> Option<(T, Bytes)>, image: T -> T) {
    forall x: T, rest: Bytes :: dec(enc(x) + rest) == Some((image(x), rest))
  }

  function RebuiltZone<T>(z: Zone<T>, image: T -> T, less: (T, T) -> bool, blank: T): Zone<T> {
    if z.has then FromEnds(image(z.min), image(z.max), less, blank) else Zone(false, blank, blank)
  }

  lemma ZoneReadsBack<T(!new)>(z: Zone<T>, rest: Bytes, enc: T -> Bytes, dec: Bytes -> Option<(T, Bytes)>,
                               image: T -> T,
                         less: (T, T) -> bool, blank: T)
    requires Inverts(enc, dec, image)
    ensures DecodeZone(EncodeZone(z, enc) + rest, dec, less, blank) == Some((RebuiltZone(z, image, less, blank), rest))
  {
    if z.has {
      Nest3([1], enc(z.min), enc(z.max), rest);
      U8RoundTrip(1, enc(z.min) + (enc(z.max) + rest));
      assert dec(enc(z.min) + (enc(z.max) + rest)) == Some((image(z.min), enc(z.max) + rest));
      assert dec(enc(z.max) + rest) == Some((image(z.max), rest));
    } else {
      U8RoundTrip(0, rest);
    }
  }

  lemma IntsInvert()
    ensures Inverts(IntBytes(), IntReader(), SameInt())
  {
    forall x: Int32, rest: Bytes ensures IntReader()(IntBytes()(x) + rest) == Some((SameInt()(x), rest)) {
      U32RoundTrip(ToU32(x), rest);
    }
  }

  lemma FloatsInvert()
    ensures Inverts(FloatBytes(), FloatReader(), SameFloat())
  {
    forall x: Float32, rest: Bytes ensures FloatReader()(FloatBytes()(x) + rest) == Some((SameFloat()(x), rest)) {
      U32RoundTrip(x, rest);
    }
  }

  lemma PrefixReadsBack(s: Str, rest: Bytes)
    ensures DecodePrefix(EncodePrefix(s) + rest) == Some((Reread(s), rest))
  {
    Assoc([|s| % 256], Padded(s), rest);
    U8RoundTrip(|s| % 256, Padded(s) + rest);
    var t := Padded(s) + rest;
    assert t[..PREFIX_LENGTH] == Padded(s) && t[PREFIX_LENGTH..] == rest;
  }

  lemma StrsInvert()
    ensures Inverts(StrBytes(), StrReader(), RereadStr())
  {
    forall x: Str, rest: Bytes ensures StrReader()(StrBytes()(x) + rest) == Some((RereadStr()(x), rest)) {
      PrefixReadsBack(x, rest);
    }
  }

  /** Embedded zero bytes survive: the length byte tells them from padding. */
  lemma ShortPrefixExact(s: Str)
    requires |s| <= PREFIX_LENGTH
    ensures Reread(s) == s
  {
    assert Padded(s)[..|s|] == s;
  }

  // ----- columns -----

  function EncodeFixed<T>(pages: PageRange, nullCount: U32, z: Zone<T>, enc: T -> Bytes): Bytes {
    EncodeRange(pages) + EncodeU32(nullCount) + EncodeZone(z, enc)
  }

  function DecodeFixed<T>(s: Bytes, dec: Bytes -> Option<(T, Bytes)>, less: (T, T) -> bool, blank: T)
    : Option<((PageRange, U32, Zone<T>), Bytes)>
  {
    var pages :- DecodeRange(s);
    var nullCount :- DecodeU32(pages.1);
    var zone :- DecodeZone(nullCount.1, dec, less, blank);
    Some(((pages.0, nullCount.0, zone.0), zone.1))
  }

  function EncodeVarchar(offsets: PageRange, data: PageRange, nullCount: U32, z: Zone<Str>): Bytes {
    EncodeRange(offsets) + EncodeFixed(data, nullCount, z, StrBytes())
  }

  function EncodeColumn(c: ColumnEntry): Bytes {
    match c
    case IntEntry(pages, n, z) => [TAG_INTEGER] + EncodeFixed(pages, n, z, IntBytes())
    case FloatEntry(pages, n, z) => [TAG_FLOAT] + EncodeFixed(pages, n, z, FloatBytes())
    case StrEntry(offsets, data, n, z) => [TAG_VARCHAR] + EncodeVarchar(offsets, data, n, z)
  }

  /** Any other tag is taken for VARCHAR. */
  function DecodeColumn(s: Bytes): Option<(ColumnEntry, Bytes)> {
    var tag :- DecodeU8(s);
    if tag.0 == TAG_INTEGER then
      var e :- DecodeFixed(tag.1, IntReader(), IntOrder(), 0);
      Some((IntEntry(e.0.0, e.0.1, e.0.2), e.1))
    else if tag.0 == TAG_FLOAT then
      var e :- DecodeFixed(tag.1, FloatReader(), FloatOrder(), 0);
      Some((FloatEntry(e.0.0, e.0.1, e.0.2), e.1))
    else
      var offsets :- DecodeRange(tag.1);
      var e :- DecodeFixed<Str>(offsets.1, StrReader(), StrOrder(), []);
      Some((StrEntry(offsets.0, e.0.0, e.0.1, e.0.2), e.1))
  }

  function Rebuilt(c: ColumnEntry): ColumnEntry {
    match c
    case IntEntry(pages, n, z) => IntEntry(pages, n, RebuiltZone(z, SameInt(), IntOrder(), 0))
    case FloatEntry(pages, n, z) => FloatEntry(pages, n, RebuiltZone(z, SameFloat(), FloatOrder(), 0))
    case StrEntry(offsets, data, n, z) => StrEntry(offsets, data, n, RebuiltZone<Str>(z, RereadStr(), StrOrder(), []))
  }

  lemma RangeRoundTrip(r: PageRange, rest: Bytes)
    ensures DecodeRange(EncodeRange(r) + rest) == Some((r, rest))
  {
    Assoc(EncodeU32(r.start), EncodeU32(r.count), rest);
    U32RoundTrip(r.start, EncodeU32(r.count) + rest);
    U32RoundTrip(r.count, rest);
  }

  lemma FixedReadsBack<T(!new)>(pages: PageRange, n: U32, z: Zone<T>, rest: Bytes, enc: T -> Bytes,
                                dec: Bytes -> Option<(T, Bytes)>,
                          image: T -> T, less: (T, T) -> bool, blank: T)
    requires Inverts(enc, dec, image)
    ensures DecodeFixed(EncodeFixed(pages, n, z, enc) + rest, dec, less, blank)
         == Some(((pages, n, RebuiltZone(z, image, less, blank)), rest))
  {
    Nest3(EncodeRange(pages), EncodeU32(n), EncodeZone(z, enc), rest);
    RangeRoundTrip(pages, EncodeU32(n) + (EncodeZone(z, enc) + rest));
    U32RoundTrip(n, EncodeZone(z, enc) + rest);
    ZoneReadsBack(z, rest, enc, dec, image, less, blank);
  }

  lemma ColumnReadsBack(c: ColumnEntry, rest: Bytes)
    ensures DecodeColumn(EncodeColumn(c) + rest) == Some((Rebuilt(c), rest))
  {
    match c
    case IntEntry(pages, n, z) =>
      var body := EncodeFixed(pages, n, z, IntBytes());
      Assoc([TAG_INTEGER], body, rest);
      U8RoundTrip(TAG_INTEGER, body + rest);
      IntsInvert();
      FixedReadsBack<Int32>(pages, n, z, rest, IntBytes(), IntReader(), SameInt(), IntOrder(), 0);
    case FloatEntry(pages, n, z) =>
      var body := EncodeFixed(pages, n, z, FloatBytes());
      Assoc([TAG_FLOAT], body, rest);
      U8RoundTrip(TAG_FLOAT, body + rest);
      FloatsInvert();
      FixedReadsBack<Float32>(pages, n, z, rest, FloatBytes(), FloatReader(), SameFloat(), FloatOrder(), 0);
    case StrEntry(offsets, data, n, z) =>
      var body := EncodeFixed(data, n, z, StrBytes());
      Nest3([TAG_VARCHAR], EncodeRange(offsets), body, rest);
      Assoc([TAG_VARCHAR], EncodeRange(offsets), body);
      U8RoundTrip(TAG_VARCHAR, EncodeRange(offsets) + (body + rest));
      RangeRoundTrip(offsets, body + rest);
      StrsInvert();
      FixedReadsBack<Str>(data, n, z, rest, StrBytes(), StrReader(), RereadStr(), StrOrder(), []);
  }

  function ZoneOfEntry(c: ColumnEntry): ColumnZone {
    match c
    case IntEntry(_, _, z) => IntZone(z)
    case FloatEntry(_, _, z) => FloatZone(z)
    case StrEntry(_, _, _, z) => StrZone(z)
  }

  /** Rebuilding always gives a map that Update could have built. */
  lemma RebuiltIsWellBuilt(c: ColumnEntry)
    ensures WellBuilt(ZoneOfEntry(Rebuilt(c)))
  {
    match c
    case IntEntry(_, _, z) =>
    case FloatEntry(_, _, z) =>
    case StrEntry(_, _, _, z) =>
      StrLessTotal(Reread(z.min), Reread(z.max));
  }

  /** A column entry reads back as itself exactly when Update built its zone map. */
  lemma RebuiltIff(c: ColumnEntry)
    ensures Rebuilt(c) == c <==> WellBuilt(ZoneOfEntry(c))
  {
    RebuiltIsWellBuilt(c);
    match c
    case IntEntry(_, _, z) =>
    case FloatEntry(_, _, z) =>
    case StrEntry(_, _, _, z) =>
      if WellBuilt(StrZone(z)) {
        ShortPrefixExact(z.min);
        ShortPrefixExact(z.max);
        StrLessTotal(z.min, z.max);
      }
  }

  // ----- row groups and the footer -----

  function ColumnBytes(): ColumnEntry -> Bytes { (c: ColumnEntry) => EncodeColumn(c) }
  function ColumnReader(): Bytes -> Option<(ColumnEntry, Bytes)> { (s: Bytes) => DecodeColumn(s) }
  function RebuiltColumn(): ColumnEntry -> ColumnEntry { (c: ColumnEntry) => Rebuilt(c) }

  function GroupHeader(g: RowGroup): Bytes {
    EncodeU32(g.tableId) + EncodeU32(g.rowCount) + EncodeRange(g.bitmap)
  }

  function EncodeRowGroup(g: RowGroup): Bytes { GroupHeader(g) + EncodeList(g.columns, ColumnBytes()) }

  function DecodeHeader(s: Bytes): Option<((U32, U32, PageRange), Bytes)> {
    var tableId :- DecodeU32(s);
    var rowCount :- DecodeU32(tableId.1);
    var bitmap :- DecodeRange(rowCount.1);
    Some(((tableId.0, rowCount.0, bitmap.0), bitmap.1))
  }

  function DecodeRowGroup(s: Bytes): Option<(RowGroup, Bytes)> {
    var header :- DecodeHeader(s);
    var columns :- DecodeList(header.1, ColumnReader());
    Some((RowGroup(header.0.0, header.0.1, header.0.2, columns.0), columns.1))
  }

  function GroupBytes(): RowGroup -> Bytes { (g: RowGroup) => EncodeRowGroup(g) }
  function GroupReader(): Bytes -> Option<(RowGroup, Bytes)> { (s: Bytes) => DecodeRowGroup(s) }

  function EncodeFooter(groups: seq<RowGroup>): Bytes { EncodeList(groups, GroupBytes()) }

  function DecodeFooter(s: Bytes): Option<(seq<RowGroup>, Bytes)> { DecodeList(s, GroupReader()) }

  function RebuiltGroup(): RowGroup -> RowGroup {
    (g: RowGroup) => g.(columns := Map(g.columns, RebuiltColumn()))
  }

  lemma HeaderReadsBack(g: RowGroup, rest: Bytes)
    ensures DecodeHeader(GroupHeader(g) + rest) == Some(((g.tableId, g.rowCount, g.bitmap), rest))
  {
    Nest3(EncodeU32(g.tableId), EncodeU32(g.rowCount), EncodeRange(g.bitmap), rest);
    U32RoundTrip(g.tableId, EncodeU32(g.rowCount) + (EncodeRange(g.bitmap) + rest));
    U32RoundTrip(g.rowCount, EncodeRange(g.bitmap) + rest);
    RangeRoundTrip(g.bitmap, rest);
  }

  lemma ColumnsReadBack(cs: seq<ColumnEntry>)
    ensures ReadsBack(cs, ColumnBytes(), ColumnReader(), RebuiltColumn())
  {
    forall c: ColumnEntry, rest: Bytes
      ensures ColumnReader()(ColumnBytes()(c) + rest) == Some((RebuiltColumn()(c), rest))
    {
      ColumnReadsBack(c, rest);
    }
  }

  lemma GroupReadsBack(g: RowGroup, rest: Bytes)
    requires |g.columns| < TWO32
    ensures DecodeRowGroup(EncodeRowGroup(g) + rest) == Some((RebuiltGroup()(g), rest))
  {
    var body := EncodeList(g.columns, ColumnBytes());
    Assoc(GroupHeader(g), body, rest);
    HeaderReadsBack(g, body + rest);
    ColumnsReadBack(g.columns);
    ListReadsBack(g.columns, rest, ColumnBytes(), ColumnReader(), RebuiltColumn());
  }

  /** The counts fit the 32 bits they are stored in. */
  predicate CountsFit(groups: seq<RowGroup>) {
    |groups| < TWO32 && forall g :: g in groups ==> |g.columns| < TWO32
  }

  /** The reader consumes exactly what the writer produced. */
  lemma FooterReadsBack(groups: seq<RowGroup>, rest: Bytes)
    requires CountsFit(groups)
    ensures DecodeFooter(EncodeFooter(groups) + rest) == Some((Map(groups, RebuiltGroup()), rest))
  {
    forall g: RowGroup, r: Bytes | g in groups
      ensures GroupReader()(GroupBytes()(g) + r) == Some((RebuiltGroup()(g), r))
    {
      GroupReadsBack(g, r);
    }
    ListReadsBack(groups, rest, GroupBytes(), GroupReader(), RebuiltGroup());
  }

  ghost predicate ZonesBuilt(groups: seq<RowGroup>) {
    forall g, c :: g in groups && c in g.columns ==> WellBuilt(ZoneOfEntry(c))
  }

  lemma RebuiltColumnsIff(cs: seq<ColumnEntry>)
    ensures Map(cs, RebuiltColumn()) == cs <==> forall c :: c in cs ==> WellBuilt(ZoneOfEntry(c))
  {
    if Map(cs, RebuiltColumn()) == cs {
      forall i | 0 <= i < |cs| ensures WellBuilt(ZoneOfEntry(cs[i])) {
        assert RebuiltColumn()(cs[i]) == cs[i];
        RebuiltIff(cs[i]);
      }
    }
    if forall c :: c in cs ==> WellBuilt(ZoneOfEntry(c)) {
      forall i | 0 <= i < |cs| ensures RebuiltColumn()(cs[i]) == cs[i] { RebuiltIff(cs[i]); }
    }
  }

  lemma RebuiltGroupsIff(groups: seq<RowGroup>)
    ensures Map(groups, RebuiltGroup()) == groups <==> ZonesBuilt(groups)
  {
    forall i | 0 <= i < |groups|
      ensures RebuiltGroup()(groups[i]) == groups[i] <==>
        forall c :: c in groups[i].columns ==> WellBuilt(ZoneOfEntry(c))
    {
      RebuiltColumnsIff(groups[i].columns);
    }
    if Map(groups, RebuiltGroup()) == groups {
      forall g, c | g in groups && c in g.columns ensures WellBuilt(ZoneOfEntry(c)) {
        var i :| 0 <= i < |groups| && groups[i] == g;
        assert RebuiltGroup()(groups[i]) == groups[i];
      }
    }
    if ZonesBuilt(groups) {
      forall i | 0 <= i < |groups| ensures RebuiltGroup()(groups[i]) == groups[i] {
        assert groups[i] in groups;
      }
    }
  }

  /** A footer survives the round trip exactly when its zone maps are ones that
      Update builds, and then nothing is left unread. */
  lemma FooterRoundTripIff(groups: seq<RowGroup>, rest: Bytes)
    requires CountsFit(groups)
    ensures DecodeFooter(EncodeFooter(groups) + rest) == Some((groups, rest)) <==> ZonesBuilt(groups)
  {
    FooterReadsBack(groups, rest);
    RebuiltGroupsIff(groups);
  }

  // ----- the writers -----

  method WriteRange(buf: Bytes, r: PageRange) returns (out: Bytes)
    ensures out == buf + EncodeRange(r)
  {
    out := WriteU32(buf, r.start);
    out := WriteU32(out, r.count);
    Assoc(buf, EncodeU32(r.start), EncodeU32(r.count));
  }

  method WriteFixedPrefix(buf: Bytes, data: Str) returns (out: Bytes)
    ensures out == buf + EncodePrefix(data)
  {
    out := buf + [|data| % 256];
    for i := 0 to PREFIX_LENGTH
      invariant out == buf + [|data| % 256] + Padded(data)[..i]
    {
      out := out + [if i < |data| then data[i] else 0];
    }
    assert Padded(data)[..PREFIX_LENGTH] == Padded(data);
  }

  method WriteIntZone(buf: Bytes, z: Zone<Int32>) returns (out: Bytes)
    ensures out == buf + EncodeZone(z, IntBytes())
  {
    out := buf + [if z.has then 1 else 0];
    if z.has {
      out := WriteU32(out, ToU32(z.min));
      out := WriteU32(out, ToU32(z.max));
      Nest3(buf, [1], IntBytes()(z.min), IntBytes()(z.max));
      Assoc([1], IntBytes()(z.min), IntBytes()(z.max));
    }
  }

  method WriteFloatZone(buf: Bytes, z: Zone<Float32>) returns (out: Bytes)
    ensures out == buf + EncodeZone(z, FloatBytes())
  {
    out := buf + [if z.has then 1 else 0];
    if z.has {
      out := WriteU32(out, z.min);
      out := WriteU32(out, z.max);
      Nest3(buf, [1], FloatBytes()(z.min), FloatBytes()(z.max));
      Assoc([1], FloatBytes()(z.min), FloatBytes()(z.max));
    }
  }

  method WriteStrZone(buf: Bytes, z: Zone<Str>) returns (out: Bytes)
    ensures out == buf + EncodeZone(z, StrBytes())
  {
    out := buf + [if z.has then 1 else 0];
    if z.has {
      out := WriteFixedPrefix(out, z.min);
      out := WriteFixedPrefix(out, z.max);
      Nest3(buf, [1], StrBytes()(z.min), StrBytes()(z.max));
      Assoc([1], StrBytes()(z.min), StrBytes()(z.max));
    }
  }

  lemma Append4(buf: Bytes, a: Bytes, b: Bytes, c: Bytes, d: Bytes)
    ensures buf + a + b + c + d == buf + (a + (b + c + d))
  {
  }

  lemma Append5(buf: Bytes, a: Bytes, b: Bytes, c: Bytes, d: Bytes, e: Bytes)
    ensures buf + a + b + c + d + e == buf + (a + (b + (c + d + e)))
  {
  }

  method WriteColumn(buf: Bytes, c: ColumnEntry) returns (out: Bytes)
    ensures out == buf + EncodeColumn(c)
  {
    match c {
      case IntEntry(pages, n, z) =>
        out := WriteRange(buf + [TAG_INTEGER], pages);
        out := WriteU32(out, n);
        out := WriteIntZone(out, z);
        Append4(buf, [TAG_INTEGER], EncodeRange(pages), EncodeU32(n), EncodeZone(z, IntBytes()));
      case FloatEntry(pages, n, z) =>
        out := WriteRange(buf + [TAG_FLOAT], pages);
        out := WriteU32(out, n);
        out := WriteFloatZone(out, z);
        Append4(buf, [TAG_FLOAT], EncodeRange(pages), EncodeU32(n), EncodeZone(z, FloatBytes()));
      case StrEntry(offsets, data, n, z) =>
        out := WriteRange(buf + [TAG_VARCHAR], offsets);
        out := WriteRange(out, data);
        out := WriteU32(out, n);
        out := WriteStrZone(out, z);
        Append5(buf, [TAG_VARCHAR], EncodeRange(offsets), EncodeRange(data), EncodeU32(n), EncodeZone(z, StrBytes()));
    }
  }

  method WriteColumns(buf: Bytes, columns: seq<ColumnEntry>) returns (out: Bytes)
    ensures out == buf + ConcatMap(columns, ColumnBytes())
  {
    out := buf;
    for i := 0 to |columns|
      invariant out == buf + ConcatMap(columns[..i], ColumnBytes())
    {
      assert columns[..i + 1] == columns[..i] + [columns[i]];
      ConcatMapSnoc(columns[..i], columns[i], ColumnBytes());
      Assoc(buf, ConcatMap(columns[..i], ColumnBytes()), EncodeColumn(columns[i]));
      out := WriteColumn(out, columns[i]);
    }
    assert columns[..|columns|] == columns;
  }

  method WriteRowGroup(buf: Bytes, g: RowGroup) returns (out: Bytes)
    ensures out == buf + EncodeRowGroup(g)
  {
    out := WriteU32(buf, g.tableId);
    out := WriteU32(out, g.rowCount);
    out := WriteRange(out, g.bitmap);
    out := WriteU32(out, |g.columns| % TWO32);
    out := WriteColumns(out, g.columns);
    GroupAppended(buf, EncodeU32(g.tableId), EncodeU32(g.rowCount), EncodeRange(g.bitmap),
                  EncodeU32(|g.columns| % TWO32), ConcatMap(g.columns, ColumnBytes()));
  }

  lemma GroupAppended(buf: Bytes, a: Bytes, b: Bytes, c: Bytes, d: Bytes, e: Bytes)
    ensures buf + a + b + c + d + e == buf + ((a + b + c) + (d + e))
  {
  }

  method Serialize(groups: seq<RowGroup>) returns (out: Bytes)
    ensures out == EncodeFooter(groups)
  {
    ghost var head := EncodeU32(|groups| % TWO32);
    out := WriteU32([], |groups| % TWO32);
    PlusEmpty(head);
    for i := 0 to |groups|
      invariant out == head + ConcatMap(groups[..i], GroupBytes())
    {
      assert groups[..i + 1] == groups[..i] + [groups[i]];
      ConcatMapSnoc(groups[..i], groups[i], GroupBytes());
      Assoc(head, ConcatMap(groups[..i], GroupBytes()), EncodeRowGroup(groups[i]));
      out := WriteRowGroup(out, groups[i]);
    }
    assert groups[..|groups|] == groups;
  }

  // ----- the readers -----

  method ReadRange(reader: ByteReader) returns (r: Option<PageRange>)
    requires reader.Valid()
    modifies reader
    ensures reader.Valid()
    ensures match DecodeRange(old(reader.Rest()))
            case None => r.None?
            case Some(p) => r == Some(p.0) && reader.Rest() == p.1
  {
    var start :- reader.ReadU32();
    var count :- reader.ReadU32();
    r := Some(PageRange(start, count));
  }

  method ReadFixedPrefix(reader: ByteReader) returns (r: Option<Str>)
    requires reader.Valid()
    modifies reader
    ensures reader.Valid()
    ensures match DecodePrefix(old(reader.Rest()))
            case None => r.None?
            case Some(p) => r == Some(p.0) && reader.Rest() == p.1
  {
    var length :- reader.ReadU8();
    var padded :- reader.ReadBytes(PREFIX_LENGTH);
    r := Some(Prefix(Resized(padded, length)));
  }

  method ReadIntZone(reader: ByteReader) returns (r: Option<Zone<Int32>>)
    requires reader.Valid()
    modifies reader
    ensures reader.Valid()
    ensures match DecodeZone<Int32>(old(reader.Rest()), IntReader(), IntOrder(), 0)
            case None => r.None?
            case Some(p) => r == Some(p.0) && reader.Rest() == p.1
  {
    var zone: Zone<Int32> := Zone(false, 0, 0);
    var has :- reader.ReadU8();
    if has != 0 {
      var a :- reader.ReadU32();
      var b :- reader.ReadU32();
      var low, high := OfU32(a), OfU32(b);
      zone := UpdateWith(zone, low, IntOrder());
      zone := UpdateWith(zone, high, IntOrder());
    }
    r := Some(zone);
  }

  method ReadFloatZone(reader: ByteReader) returns (r: Option<Zone<Float32>>)
    requires reader.Valid()
    modifies reader
    ensures reader.Valid()
    ensures match DecodeZone<Float32>(old(reader.Rest()), FloatReader(), FloatOrder(), 0)
            case None => r.None?
            case Some(p) => r == Some(p.0) && reader.Rest() == p.1
  {
    var zone: Zone<Float32> := Zone(false, 0, 0);
    var has :- reader.ReadU8();
    if has != 0 {
      var low :- reader.ReadU32();
      var high :- reader.ReadU32();
      zone := UpdateWith(zone, low, FloatOrder());
      zone := UpdateWith(zone, high, FloatOrder());
    }
    r := Some(zone);
  }

  method ReadStrZone(reader: ByteReader) returns (r: Option<Zone<Str>>)
    requires reader.Valid()
    modifies reader
    ensures reader.Valid()
    ensures match DecodeZone<Str>(old(reader.Rest()), StrReader(), StrOrder(), [])
            case None => r.None?
            case Some(p) => r == Some(p.0) && reader.Rest() == p.1
  {
    var zone: Zone<Str> := Zone(false, [], []);
    var has :- reader.ReadU8();
    if has != 0 {
      var low :- ReadFixedPrefix(reader);
      var high :- ReadFixedPrefix(reader);
      zone := UpdateWith(zone, low, StrOrder());
      zone := UpdateWith(zone, high, StrOrder());
    }
    r := Some(zone);
  }

  method ReadColumn(reader: ByteReader) returns (r: Option<ColumnEntry>)
    requires reader.Valid()
    modifies reader
    ensures reader.Valid()
    ensures match DecodeColumn(old(reader.Rest()))
            case None => r.None?
            case Some(p) => r == Some(p.0) && reader.Rest() == p.1
  {
    var tag :- reader.ReadU8();
    if tag == TAG_INTEGER {
      var pages :- ReadRange(reader);
      var n :- reader.ReadU32();
      var zone :- ReadIntZone(reader);
      r := Some(IntEntry(pages, n, zone));
    } else if tag == TAG_FLOAT {
      var pages :- ReadRange(reader);
      var n :- reader.ReadU32();
      var zone :- ReadFloatZone(reader);
      r := Some(FloatEntry(pages, n, zone));
    } else {
      var offsets :- ReadRange(reader);
      var data :- ReadRange(reader);
      var n :- reader.ReadU32();
      var zone :- ReadStrZone(reader);
      r := Some(StrEntry(offsets, data, n, zone));
    }
  }

  method ReadColumns(reader: ByteReader) returns (r: Option<seq<ColumnEntry>>)
    requires reader.Valid()
    modifies reader
    ensures reader.Valid()
    ensures match DecodeList(old(reader.Rest()), ColumnReader())
            case None => r.None?
            case Some(p) => r == Some(p.0) && reader.Rest() == p.1
  {
    var n :- reader.ReadU32();
    ghost var start := reader.Rest();
    var columns: seq<ColumnEntry> := [];
    for c := 0 to n
      invariant reader.Valid() && DecodeAll(c, start, ColumnReader()) == Some((columns, reader.Rest()))
    {
      if DecodeAll(c + 1, start, ColumnReader()).None? { DecodeAllFails(c + 1, n, start, ColumnReader()); }
      var column :- ReadColumn(reader);
      columns := columns + [column];
    }
    r := Some(columns);
  }

  method ReadRowGroup(reader: ByteReader) returns (r: Option<RowGroup>)
    requires reader.Valid()
    modifies reader
    ensures reader.Valid()
    ensures match DecodeRowGroup(old(reader.Rest()))
            case None => r.None?
            case Some(p) => r == Some(p.0) && reader.Rest() == p.1
  {
    var tableId :- reader.ReadU32();
    var rowCount :- reader.ReadU32();
    var bitmap :- ReadRange(reader);
    var columns :- ReadColumns(reader);
    r := Some(RowGroup(tableId, rowCount, bitmap, columns));
  }

  method Deserialize(bytes: Bytes) returns (r: Option<seq<RowGroup>>)
    ensures match DecodeFooter(bytes)
            case None => r.None?
            case Some(p) => r == Some(p.0)
  {
    var reader := new ByteReader(bytes);
    var n :- reader.ReadU32();
    ghost var start := reader.Rest();
    var groups: seq<RowGroup> := [];
    for g := 0 to n
      invariant reader.Valid() && DecodeAll(g, start, GroupReader()) == Some((groups, reader.Rest()))
    {
      if DecodeAll(g + 1, start, GroupReader()).None? { DecodeAllFails(g + 1, n, start, GroupReader()); }
      var group :- ReadRowGroup(reader);
      groups := groups + [group];
    }
    r := Some(groups);
  }
}
