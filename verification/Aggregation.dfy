/** The aggregation operator: drain the child into per-group accumulators,
    then emit the groups in batches. */
module Aggregation {
  import opened Seqs
  import opened Types
  import opened ByteIO
  import opened Aggregates
  import opened Grouping
  import opened LogicalPlan
  import opened Physical
  import opened Chunks
  import opened Keys

  datatype Config = Config(fpu: FloatUnit, columns: seq<nat>, groupTypes: seq<TypeId>, specs: seq<AggregateSpec>,
                           inputTypes: seq<TypeId>)

  function OutType(s: AggregateSpec): TypeId {
    match s.spec.fn
    case CountStar => Integer
    case Count => Integer
    case Avg => Float
    case _ => s.spec.ty
  }

  function OutTypeOf(): AggregateSpec -> TypeId { (s: AggregateSpec) => OutType(s) }
  function OutTypes(cfg: Config): seq<TypeId> { cfg.groupTypes + Map(cfg.specs, OutTypeOf()) }

  /** Positions exist and have the announced types; SUM and AVG are numeric. */
  predicate WellTyped(cfg: Config) {
    && |cfg.groupTypes| == |cfg.columns|
    && (forall i :: 0 <= i < |cfg.columns| ==>
          cfg.columns[i] < |cfg.inputTypes| && cfg.inputTypes[cfg.columns[i]] == cfg.groupTypes[i])
    && (forall s :: s in cfg.specs ==>
          && (s.column.Some? ==> s.column.value < |cfg.inputTypes| && cfg.inputTypes[s.column.value] == s.spec.ty)
          && (s.spec.fn.Sum? || s.spec.fn.Avg? ==> s.spec.ty != Varchar))
  }

  /** What the operator delivers for these input rows. */
  function Groups(cfg: Config, rows: seq<Cells>): seq<Cells> {
    GroupFold(cfg.fpu, Map(cfg.specs, SpecPart()), PhysKey(cfg.columns), PhysArg(cfg.specs), cfg.columns == [], rows)
  }

  function KeysOf(cfg: Config, rows: seq<Cells>): seq<Key> { GroupKeys(rows, PhysKey(cfg.columns), cfg.columns == []) }
  function MembersOf(cfg: Config, rows: seq<Cells>, k: Key): seq<Cells> {
    Members(rows, PhysKey(cfg.columns), cfg.columns == [], k)
  }

  // ----- the state -----

  datatype Tally = Tally(order: seq<Bytes>, display: map<Bytes, Key>, accumulators: map<Bytes, seq<Accumulator>>)

  function ArgCells(cfg: Config, rows: seq<Cells>, k: Key, i: nat): seq<Datum> {
    Map(MembersOf(cfg, rows, k), ArgAt(PhysArg(cfg.specs), i))
  }

  function FoldedAt(cfg: Config, rows: seq<Cells>, k: Key, i: nat): Accumulator
    requires i < |cfg.specs|
  {
    Fold(cfg.fpu, cfg.specs[i].spec.fn, cfg.specs[i].spec.ty, ArgCells(cfg, rows, k, i))
  }

  function Folded(cfg: Config, rows: seq<Cells>, k: Key): seq<Accumulator> {
    seq(|cfg.specs|, i requires 0 <= i < |cfg.specs| => FoldedAt(cfg, rows, k, i))
  }

  function KeyCode(): Key -> Bytes { (k: Key) => GroupKeyBytes(k) }

  /** The maps hold, for every group so far, its key and the fold of exactly its rows. */
  ghost predicate Tracks(cfg: Config, t: Tally, rows: seq<Cells>) {
    && t.order == Map(KeysOf(cfg, rows), KeyCode())
    && (forall b :: b in t.accumulators <==> b in t.order)
    && (forall k :: k in KeysOf(cfg, rows) ==>
          && GroupKeyBytes(k) in t.display && t.display[GroupKeyBytes(k)] == k
          && GroupKeyBytes(k) in t.accumulators && t.accumulators[GroupKeyBytes(k)] == Folded(cfg, rows, k))
  }

  predicate KeyShaped(cfg: Config, k: Key) { |k| == |cfg.columns| && forall d :: d in k ==> Storable(d) }

  ghost predicate RowsShaped(cfg: Config, rows: seq<Cells>) {
    forall r :: r in rows ==> KeyShaped(cfg, PhysKey(cfg.columns)(r))
  }

  lemma KeysShaped(cfg: Config, rows: seq<Cells>)
    requires RowsShaped(cfg, rows)
    ensures forall k :: k in KeysOf(cfg, rows) ==> KeyShaped(cfg, k)
  {
    forall k | k in KeysOf(cfg, rows) ensures KeyShaped(cfg, k) {
      if cfg.columns != [] { DistinctMember(Map(rows, PhysKey(cfg.columns)), k); }
    }
  }

  lemma TypedRowShaped(cfg: Config, row: Cells)
    requires WellTyped(cfg) && CellsTyped(row, cfg.inputTypes)
    ensures KeyShaped(cfg, PhysKey(cfg.columns)(row))
  {
    var k := PhysKey(cfg.columns)(row);
    forall d | d in k ensures Storable(d) {
      var i :| 0 <= i < |k| && k[i] == d;
    }
  }

  // ----- one more row -----

  lemma MembersSnoc(cfg: Config, rows: seq<Cells>, row: Cells, k: Key)
    ensures MembersOf(cfg, rows + [row], k)
         == if cfg.columns == [] || PhysKey(cfg.columns)(row) == k then MembersOf(cfg, rows, k) + [row]
            else MembersOf(cfg, rows, k)
  {
    FilterSnoc(rows, row, WithKey(PhysKey(cfg.columns), k));
  }

  lemma FoldedSnoc(cfg: Config, rows: seq<Cells>, row: Cells, k: Key, i: nat)
    requires i < |cfg.specs|
    requires cfg.columns == [] || PhysKey(cfg.columns)(row) == k
    ensures FoldedAt(cfg, rows + [row], k, i) ==
      Accumulate(cfg.fpu, FoldedAt(cfg, rows, k, i), PhysArg(cfg.specs)(row, i))
  {
    MembersSnoc(cfg, rows, row, k);
    MapSnoc(MembersOf(cfg, rows, k), row, ArgAt(PhysArg(cfg.specs), i));
    var cells, d := ArgCells(cfg, rows, k, i), PhysArg(cfg.specs)(row, i);
    assert (cells + [d])[..|cells|] == cells;
  }

  lemma FoldedOther(cfg: Config, rows: seq<Cells>, row: Cells, k: Key)
    requires cfg.columns != [] && PhysKey(cfg.columns)(row) != k
    ensures Folded(cfg, rows + [row], k) == Folded(cfg, rows, k)
  {
    MembersSnoc(cfg, rows, row, k);
  }

  lemma KeysSnoc(cfg: Config, rows: seq<Cells>, row: Cells)
    ensures KeysOf(cfg, rows + [row])
         == if cfg.columns == [] || PhysKey(cfg.columns)(row) in KeysOf(cfg, rows) then KeysOf(cfg, rows)
            else KeysOf(cfg, rows) + [PhysKey(cfg.columns)(row)]
  {
    MapSnoc(rows, row, PhysKey(cfg.columns));
    DistinctSnoc(Map(rows, PhysKey(cfg.columns)), PhysKey(cfg.columns)(row));
    DistinctMember(Map(rows, PhysKey(cfg.columns)), PhysKey(cfg.columns)(row));
  }

  /** Among the groups seen, a key's bytes stand for that key alone. */
  lemma BytesIdentifyKey(cfg: Config, rows: seq<Cells>, k: Key)
    requires RowsShaped(cfg, rows) && KeyShaped(cfg, k)
    ensures GroupKeyBytes(k) in Map(KeysOf(cfg, rows), KeyCode()) <==> k in KeysOf(cfg, rows)
    ensures forall k' :: k' in KeysOf(cfg, rows) && GroupKeyBytes(k') == GroupKeyBytes(k) ==> k' == k
  {
    KeysShaped(cfg, rows);
    var keys := KeysOf(cfg, rows);
    forall k' | k' in keys && GroupKeyBytes(k') == GroupKeyBytes(k) ensures k' == k { GroupKeyInjective(k', k); }
    if GroupKeyBytes(k) in Map(keys, KeyCode()) {
      var i :| 0 <= i < |keys| && Map(keys, KeyCode())[i] == GroupKeyBytes(k);
      assert keys[i] in keys;
    }
    if k in keys {
      var i :| 0 <= i < |keys| && keys[i] == k;
      assert Map(keys, KeyCode())[i] == GroupKeyBytes(k);
    }
  }

  /** The tally after a row of group `k` whose accumulators have become `accs`. */
  function Noted(t: Tally, k: Key, accs: seq<Accumulator>): Tally {
    var b := GroupKeyBytes(k);
    if b in t.accumulators then t.(accumulators := t.accumulators[b := accs])
    else Tally(t.order + [b], t.display[b := k], t.accumulators[b := accs])
  }

  lemma TracksSnoc(cfg: Config, t: Tally, rows: seq<Cells>, row: Cells)
    requires Tracks(cfg, t, rows) && RowsShaped(cfg, rows) && KeyShaped(cfg, PhysKey(cfg.columns)(row))
    ensures var k := PhysKey(cfg.columns)(row);
      Tracks(cfg, Noted(t, k, Folded(cfg, rows + [row], k)), rows + [row])
  {
    var k := PhysKey(cfg.columns)(row);
    var keys, keys' := KeysOf(cfg, rows), KeysOf(cfg, rows + [row]);
    var t' := Noted(t, k, Folded(cfg, rows + [row], k));
    KeysSnoc(cfg, rows, row);
    BytesIdentifyKey(cfg, rows, k);
    if cfg.columns == [] { assert k == [] && k in keys; }
    if k !in keys { MapSnoc(keys, k, KeyCode()); }
    forall x | x in keys'
      ensures GroupKeyBytes(x) in t'.display && t'.display[GroupKeyBytes(x)] == x
      ensures GroupKeyBytes(x) in t'.accumulators && t'.accumulators[GroupKeyBytes(x)] == Folded(cfg, rows + [row], x)
    {
      if x != k { OtherGroup(cfg, t, rows, row, x); }
    }
  }

  /** The other groups are as they were. */
  lemma OtherGroup(cfg: Config, t: Tally, rows: seq<Cells>, row: Cells, x: Key)
    requires Tracks(cfg, t, rows) && RowsShaped(cfg, rows) && KeyShaped(cfg, PhysKey(cfg.columns)(row))
    requires x in KeysOf(cfg, rows + [row]) && x != PhysKey(cfg.columns)(row)
    ensures var k := PhysKey(cfg.columns)(row);
      var t' := Noted(t, k, Folded(cfg, rows + [row], k));
      && GroupKeyBytes(x) in t'.display && t'.display[GroupKeyBytes(x)] == x
      && GroupKeyBytes(x) in t'.accumulators && t'.accumulators[GroupKeyBytes(x)] == Folded(cfg, rows + [row], x)
  {
    KeysSnoc(cfg, rows, row);
    BytesIdentifyKey(cfg, rows, PhysKey(cfg.columns)(row));
    assert x in KeysOf(cfg, rows);
    FoldedOther(cfg, rows, row, x);
  }

  lemma NewGroupIsEmpty(cfg: Config, rows: seq<Cells>, k: Key)
    requires cfg.columns != [] && k !in KeysOf(cfg, rows)
    ensures MembersOf(cfg, rows, k) == []
  {
    var keys := Map(rows, PhysKey(cfg.columns));
    DistinctMember(keys, k);
    forall r | r in rows ensures !WithKey(PhysKey(cfg.columns), k)(r) {
      var i :| 0 <= i < |rows| && rows[i] == r;
      assert keys[i] in keys;
    }
    FilterNone(rows, WithKey(PhysKey(cfg.columns), k));
  }

  /** A group that is not there yet starts from fresh accumulators. */
  lemma FreshAccumulators(cfg: Config, rows: seq<Cells>, k: Key, i: nat)
    requires i < |cfg.specs| && cfg.columns != [] && k !in KeysOf(cfg, rows)
    ensures FoldedAt(cfg, rows, k, i) == MakeAccumulator(cfg.fpu, cfg.specs[i].spec.fn, cfg.specs[i].spec.ty)
  {
    NewGroupIsEmpty(cfg, rows, k);
  }

  /** Feeds one row to every accumulator of its group. */
  method FeedAccumulators(cfg: Config, accs: seq<Accumulator>, chunk: Chunk, row: nat, k: Key, ghost before: seq<Cells>)
      returns (accs': seq<Accumulator>)
    requires WellTyped(cfg) && Valid(chunk) && TypesOf(chunk) == cfg.inputTypes && row < chunk.rowCount
    requires k == PhysKey(cfg.columns)(RowAt(chunk, row)) && accs == Folded(cfg, before, k)
    ensures accs' == Folded(cfg, before + [RowAt(chunk, row)], k)
  {
    ghost var cells := RowAt(chunk, row);
    accs' := accs;
    for i := 0 to |cfg.specs|
      invariant |accs'| == |cfg.specs|
      invariant forall j :: 0 <= j < i ==> accs'[j] == FoldedAt(cfg, before + [cells], k, j)
      invariant forall j :: i <= j < |cfg.specs| ==> accs'[j] == FoldedAt(cfg, before, k, j)
    {
      assert cfg.specs[i] in cfg.specs;
      var arg := if cfg.specs[i].column.Some? then chunk.columns[cfg.specs[i].column.value].cells[row] else Null;
      FoldedSnoc(cfg, before, cells, k, i);
      accs' := accs'[i := Accumulate(cfg.fpu, accs'[i], arg)];
    }
  }

  function FreshTally(cfg: Config): seq<Accumulator> {
    seq(|cfg.specs|, i requires 0 <= i < |cfg.specs| =>
      MakeAccumulator(cfg.fpu, cfg.specs[i].spec.fn, cfg.specs[i].spec.ty))
  }

  /** Without GROUP BY there is one group from the start. */
  lemma GlobalKeyKnown(cfg: Config, rows: seq<Cells>, k: Key)
    requires cfg.columns == [] && KeyShaped(cfg, k)
    ensures k in KeysOf(cfg, rows)
  {
    assert k == [];
  }

  /** The group's accumulators before the row, whether it is known already or not. */
  lemma AccumulatorsBefore(cfg: Config, t: Tally, rows: seq<Cells>, k: Key)
    requires Tracks(cfg, t, rows) && RowsShaped(cfg, rows) && KeyShaped(cfg, k)
    ensures (if GroupKeyBytes(k) in t.accumulators then t.accumulators[GroupKeyBytes(k)] else FreshTally(cfg))
         == Folded(cfg, rows, k)
  {
    BytesIdentifyKey(cfg, rows, k);
    if cfg.columns == [] { GlobalKeyKnown(cfg, rows, k); }
    if GroupKeyBytes(k) !in t.accumulators {
      forall i | 0 <= i < |cfg.specs| ensures FreshTally(cfg)[i] == FoldedAt(cfg, rows, k, i) {
        FreshAccumulators(cfg, rows, k, i);
      }
    }
  }

  /** Drain's loop body: find or create the group, then feed every accumulator. */
  method AccumulateRow(cfg: Config, t: Tally, chunk: Chunk, row: nat, ghost before: seq<Cells>) returns (t': Tally)
    requires WellTyped(cfg) && Valid(chunk) && TypesOf(chunk) == cfg.inputTypes && row < chunk.rowCount
    requires Tracks(cfg, t, before) && RowsShaped(cfg, before)
    ensures Tracks(cfg, t', before + [RowAt(chunk, row)]) && RowsShaped(cfg, before + [RowAt(chunk, row)])
  {
    ghost var cells := RowAt(chunk, row);
    ChunkRowTyped(chunk, row);
    TypedRowShaped(cfg, cells);
    var key, values := SerializeGroupKey(chunk, cfg.columns, row);
    AccumulatorsBefore(cfg, t, before, values);
    var accs := if key in t.accumulators then t.accumulators[key] else FreshTally(cfg);
    accs := FeedAccumulators(cfg, accs, chunk, row, values, before);
    TracksSnoc(cfg, t, before, cells);
    t' := Noted(t, values, accs);
  }

  method DrainChunk(cfg: Config, t: Tally, chunk: Chunk, ghost before: seq<Cells>) returns (t': Tally)
    requires WellTyped(cfg) && Valid(chunk) && TypesOf(chunk) == cfg.inputTypes
    requires Tracks(cfg, t, before) && RowsShaped(cfg, before)
    ensures Tracks(cfg, t', before + SelectedRows(chunk)) && RowsShaped(cfg, before + SelectedRows(chunk))
  {
    t' := t;
    PlusEmpty(before);
    for i := 0 to chunk.rowCount
      invariant Tracks(cfg, t', before + SelectedPrefix(chunk, i)) && RowsShaped(cfg, before + SelectedPrefix(chunk, i))
    {
      if chunk.selected[i] {
        Assoc(before, SelectedPrefix(chunk, i), [RowAt(chunk, i)]);
        t' := AccumulateRow(cfg, t', chunk, i, before + SelectedPrefix(chunk, i));
      }
    }
  }

  ghost predicate InputTyped(cfg: Config, input: seq<Chunk>) {
    ChunksTyped(input, cfg.inputTypes)
  }

  method Drain(cfg: Config, input: seq<Chunk>) returns (t: Tally)
    requires WellTyped(cfg) && InputTyped(cfg, input)
    ensures AllValid(input) && Tracks(cfg, t, Stream(input)) && RowsShaped(cfg, Stream(input))
  {
    t := Tally([], map[], map[]);
    if cfg.columns == [] {
      t := Tally([[]], map[[] := []], map[[] := FreshTally(cfg)]);
      assert FreshTally(cfg) == Folded(cfg, [], []);
      assert GroupKeyBytes([]) == [];
    }
    for c := 0 to |input|
      invariant AllValid(input[..c]) && Tracks(cfg, t, Stream(input[..c])) && RowsShaped(cfg, Stream(input[..c]))
    {
      assert input[c] in input;
      assert input[..c + 1] == input[..c] + [input[c]];
      StreamSnoc(input[..c], input[c]);
      t := DrainChunk(cfg, t, input[c], Stream(input[..c]));
    }
    assert input[..|input|] == input;
  }

  // ----- emission -----

  function Emitted(cfg: Config, accs: seq<Accumulator>): Cells
    requires |accs| == |cfg.specs|
  {
    seq(|cfg.specs|, i requires 0 <= i < |cfg.specs| => Emit(cfg.fpu, accs[i], cfg.specs[i].spec.fn))
  }

  function SummaryAt(cfg: Config, rows: seq<Cells>, k: Key, i: nat): Datum
    requires i < |cfg.specs|
  {
    Summarize(cfg.fpu, cfg.specs[i].spec.fn, cfg.specs[i].spec.ty, ArgCells(cfg, rows, k, i))
  }

  function Summaries(cfg: Config, rows: seq<Cells>, k: Key): Cells {
    seq(|cfg.specs|, i requires 0 <= i < |cfg.specs| => SummaryAt(cfg, rows, k, i))
  }

  lemma EmittedFolded(cfg: Config, rows: seq<Cells>, k: Key)
    ensures Emitted(cfg, Folded(cfg, rows, k)) == Summaries(cfg, rows, k)
  {
    forall i | 0 <= i < |cfg.specs|
      ensures Emit(cfg.fpu, FoldedAt(cfg, rows, k, i), cfg.specs[i].spec.fn) == SummaryAt(cfg, rows, k, i)
    {
      FoldSummarizes(cfg.fpu, cfg.specs[i].spec.fn, cfg.specs[i].spec.ty, ArgCells(cfg, rows, k, i));
    }
  }

  /** The n-th group row, cell by cell. */
  lemma GroupAt(cfg: Config, rows: seq<Cells>, n: nat)
    requires n < |KeysOf(cfg, rows)|
    ensures |Groups(cfg, rows)| == |KeysOf(cfg, rows)|
    ensures Groups(cfg, rows)[n] == KeysOf(cfg, rows)[n] + Summaries(cfg, rows, KeysOf(cfg, rows)[n])
  {
  }

  predicate Emittable(cfg: Config, t: Tally, n: nat) {
    && n < |t.order| && t.order[n] in t.display && t.order[n] in t.accumulators
    && |t.accumulators[t.order[n]]| == |cfg.specs|
  }

  /** The output row for the n-th group: its display values, then its aggregates. */
  function EmitRow(cfg: Config, t: Tally, n: nat): Cells
    requires Emittable(cfg, t, n)
  {
    t.display[t.order[n]] + Emitted(cfg, t.accumulators[t.order[n]])
  }

  /** Emitting a group gives the key and the meaning of every aggregate. */
  lemma EmitRowIsGroup(cfg: Config, t: Tally, rows: seq<Cells>, n: nat)
    requires Tracks(cfg, t, rows) && n < |t.order|
    ensures Emittable(cfg, t, n) && |Groups(cfg, rows)| == |t.order|
    ensures EmitRow(cfg, t, n) == Groups(cfg, rows)[n]
  {
    var k := KeysOf(cfg, rows)[n];
    assert k in KeysOf(cfg, rows) && t.order[n] == GroupKeyBytes(k);
    GroupAt(cfg, rows, n);
    EmittedFolded(cfg, rows, k);
  }

  lemma SummaryTyped(fpu: FloatUnit, s: AggregateSpec, values: seq<Datum>)
    requires s.spec.fn.Sum? || s.spec.fn.Avg? ==> s.spec.ty != Varchar
    ensures HasType(Summarize(fpu, s.spec.fn, s.spec.ty, values), OutType(s))
  {
  }

  lemma KeyTyped(cfg: Config, rows: seq<Cells>, k: Key)
    requires WellTyped(cfg) && (forall r :: r in rows ==> CellsTyped(r, cfg.inputTypes)) && k in KeysOf(cfg, rows)
    ensures CellsTyped(k, cfg.groupTypes)
  {
    if cfg.columns != [] {
      DistinctMember(Map(rows, PhysKey(cfg.columns)), k);
      var i :| 0 <= i < |rows| && Map(rows, PhysKey(cfg.columns))[i] == k;
      assert CellsTyped(rows[i], cfg.inputTypes);
    }
  }

  lemma GroupRowTyped(cfg: Config, rows: seq<Cells>, n: nat)
    requires WellTyped(cfg) && (forall r :: r in rows ==> CellsTyped(r, cfg.inputTypes)) && n < |Groups(cfg, rows)|
    ensures CellsTyped(Groups(cfg, rows)[n], OutTypes(cfg))
  {
    var k := KeysOf(cfg, rows)[n];
    assert k in KeysOf(cfg, rows);
    GroupAt(cfg, rows, n);
    KeyTyped(cfg, rows, k);
    SummariesTyped(cfg, rows, k);
    SideBySideTyped(k, Summaries(cfg, rows, k), cfg.groupTypes, Map(cfg.specs, OutTypeOf()));
  }

  lemma SummariesTyped(cfg: Config, rows: seq<Cells>, k: Key)
    requires WellTyped(cfg) && (forall r :: r in rows ==> CellsTyped(r, cfg.inputTypes))
    ensures CellsTyped(Summaries(cfg, rows, k), Map(cfg.specs, OutTypeOf()))
  {
    forall i | 0 <= i < |cfg.specs| ensures HasType(SummaryAt(cfg, rows, k, i), OutType(cfg.specs[i])) {
      assert cfg.specs[i] in cfg.specs;
      SummaryTyped(cfg.fpu, cfg.specs[i], ArgCells(cfg, rows, k, i));
    }
  }

  lemma SideBySideTyped(a: Cells, b: Cells, ta: seq<TypeId>, tb: seq<TypeId>)
    requires CellsTyped(a, ta) && CellsTyped(b, tb)
    ensures CellsTyped(a + b, ta + tb)
  {
  }

  /** Counted over all groups, the members are the input rows, each once. */
  function TotalMembers(rows: seq<Cells>, key: Cells -> Key, keys: seq<Key>): nat {
    if keys == [] then 0
    else TotalMembers(rows, key, keys[..|keys| - 1]) + |Filter(rows, WithKey(key, keys[|keys| - 1]))|
  }

  lemma {:induction false} TotalMembersSnocRow(rows: seq<Cells>, row: Cells, key: Cells -> Key, keys: seq<Key>)
    requires forall i, j :: 0 <= i < j < |keys| ==> keys[i] != keys[j]
    ensures TotalMembers(rows + [row], key, keys) == TotalMembers(rows, key, keys) + (if key(row) in keys then 1 else 0)
  {
    if keys != [] {
      var init, last := keys[..|keys| - 1], keys[|keys| - 1];
      TotalMembersSnocRow(rows, row, key, init);
      FilterSnoc(rows, row, WithKey(key, last));
      SplitLast(keys);
      if key(row) == last { assert last !in init; }
    }
  }

  /** Every input row is a member of exactly one group. */
  lemma {:induction false} GroupCountsAddUp(rows: seq<Cells>, key: Cells -> Key)
    ensures TotalMembers(rows, key, GroupKeys(rows, key, false)) == |rows|
  {
    if rows != [] {
      var init, last := rows[..|rows| - 1], rows[|rows| - 1];
      GroupCountsAddUp(init, key);
      SplitLast(rows);
      MapSnoc(init, last, key);
      DistinctSnoc(Map(init, key), key(last));
      DistinctUnique(Map(init, key));
      var keys := GroupKeys(init, key, false);
      TotalMembersSnocRow(init, last, key, keys);
      DistinctMember(Map(init, key), key(last));
      if key(last) !in keys {
        var ks := keys + [key(last)];
        assert ks[..|ks| - 1] == keys;
        assert key(last) !in Map(init, key);
        forall r | r in init ensures !WithKey(key, key(last))(r) {
          var i :| 0 <= i < |init| && init[i] == r;
          assert Map(init, key)[i] in Map(init, key);
        }
        FilterNone(init, WithKey(key, key(last)));
        FilterSnoc(init, last, WithKey(key, key(last)));
      }
    }
  }

  // ----- the COUNT(*) cells -----

  function IntAt(row: Cells, at: nat): int { if at < |row| && row[at].IntD? then row[at].i else 0 }

  /** The sum of an integer column of the output. */
  function ColumnSum(rows: seq<Cells>, at: nat): int {
    if rows == [] then 0 else ColumnSum(rows[..|rows| - 1], at) + IntAt(rows[|rows| - 1], at)
  }

  lemma KeyLength(cfg: Config, rows: seq<Cells>, n: nat)
    requires n < |KeysOf(cfg, rows)|
    ensures |KeysOf(cfg, rows)[n]| == |cfg.columns|
  {
    if cfg.columns != [] { DistinctMember(Map(rows, PhysKey(cfg.columns)), KeysOf(cfg, rows)[n]); }
  }

  lemma CellBehind(k: Cells, rest: Cells, i: nat)
    requires i < |rest|
    ensures IntAt(k + rest, |k| + i) == if rest[i].IntD? then rest[i].i else 0
  {
  }

  lemma CountSummary(cfg: Config, rows: seq<Cells>, k: Key, i: nat)
    requires i < |cfg.specs| && cfg.specs[i].spec.fn.CountStar?
    ensures Summaries(cfg, rows, k)[i] == IntD(WrapInt32(|MembersOf(cfg, rows, k)|))
  {
    assert Summaries(cfg, rows, k)[i] == SummaryAt(cfg, rows, k, i);
  }

  /** The COUNT(*) cell of a group row is the number of members, narrowed to int32. */
  lemma CountCell(cfg: Config, rows: seq<Cells>, k: Key, i: nat, row: Cells)
    requires i < |cfg.specs| && cfg.specs[i].spec.fn.CountStar? && |k| == |cfg.columns|
    requires row == k + Summaries(cfg, rows, k)
    ensures IntAt(row, |cfg.columns| + i) == WrapInt32(|MembersOf(cfg, rows, k)|)
  {
    CountSummary(cfg, rows, k, i);
    CellBehind(k, Summaries(cfg, rows, k), i);
  }

  function SumOf(counts: seq<nat>): nat {
    if counts == [] then 0 else SumOf(counts[..|counts| - 1]) + counts[|counts| - 1]
  }

  /** Adding up narrowed counts: right in 32 bits, and exact when none was cut. */
  lemma {:induction false} NarrowedSum(groups: seq<Cells>, at: nat, counts: seq<nat>)
    requires |groups| == |counts| && forall n :: 0 <= n < |groups| ==> IntAt(groups[n], at) == WrapInt32(counts[n])
    ensures (ColumnSum(groups, at) - SumOf(counts)) % TWO32 == 0
    ensures (forall n :: 0 <= n < |counts| ==> counts[n] < TWO31) ==> ColumnSum(groups, at) == SumOf(counts)
  {
    if groups != [] {
      var n := |groups| - 1;
      var init, most := groups[..n], counts[..n];
      NarrowedSum(init, at, most);
      Congruent(ColumnSum(init, at) - SumOf(most), IntAt(groups[n], at) - counts[n]);
    }
  }

  lemma Congruent(x: int, y: int)
    requires x % TWO32 == 0 && y % TWO32 == 0
    ensures (x + y) % TWO32 == 0
  {
  }

  function MemberCount(rows: seq<Cells>, key: Cells -> Key): Key -> nat { (k: Key) => |Filter(rows, WithKey(key, k))| }

  lemma {:induction false} TotalIsSum(rows: seq<Cells>, key: Cells -> Key, keys: seq<Key>)
    ensures TotalMembers(rows, key, keys) == SumOf(Map(keys, MemberCount(rows, key)))
  {
    if keys != [] {
      var init := keys[..|keys| - 1];
      TotalIsSum(rows, key, init);
      SplitLast(keys);
      MapSnoc(init, keys[|keys| - 1], MemberCount(rows, key));
      var counts := Map(init, MemberCount(rows, key));
      assert (counts + [MemberCount(rows, key)(keys[|keys| - 1])])[..|counts|] == counts;
    }
  }

  lemma {:induction false} FilterLength<T>(s: seq<T>, p: T -> bool)
    ensures |Filter(s, p)| <= |s|
  {
    if s != [] { FilterLength(s[..|s| - 1], p); }
  }

  /** Each group row is its key and the summaries of its members. */
  ghost predicate RowsAreGroups(cfg: Config, rows: seq<Cells>, keys: seq<Key>, groups: seq<Cells>) {
    |groups| == |keys| && forall n :: 0 <= n < |keys| ==>
      |keys[n]| == |cfg.columns| && groups[n] == keys[n] + Summaries(cfg, rows, keys[n])
  }

  lemma GroupsAreRows(cfg: Config, rows: seq<Cells>)
    ensures RowsAreGroups(cfg, rows, KeysOf(cfg, rows), Groups(cfg, rows))
  {
    forall n: nat | n < |KeysOf(cfg, rows)|
      ensures |KeysOf(cfg, rows)[n]| == |cfg.columns|
      ensures Groups(cfg, rows)[n] == KeysOf(cfg, rows)[n] + Summaries(cfg, rows, KeysOf(cfg, rows)[n])
    {
      KeyLength(cfg, rows, n);
      GroupAt(cfg, rows, n);
    }
  }

  lemma CountCells(cfg: Config, rows: seq<Cells>, keys: seq<Key>, groups: seq<Cells>, i: nat, counts: seq<nat>)
    requires i < |cfg.specs| && cfg.specs[i].spec.fn.CountStar? && RowsAreGroups(cfg, rows, keys, groups)
    requires |counts| == |keys| && forall n :: 0 <= n < |keys| ==> counts[n] == |MembersOf(cfg, rows, keys[n])|
    ensures (ColumnSum(groups, |cfg.columns| + i) - SumOf(counts)) % TWO32 == 0
    ensures |rows| < TWO31 ==> ColumnSum(groups, |cfg.columns| + i) == SumOf(counts)
  {
    forall n: nat | n < |keys|
      ensures IntAt(groups[n], |cfg.columns| + i) == WrapInt32(counts[n]) && counts[n] <= |rows|
    {
      CountCellAt(cfg, rows, keys, groups, i, n);
    }
    NarrowedSum(groups, |cfg.columns| + i, counts);
  }

  lemma CountCellAt(cfg: Config, rows: seq<Cells>, keys: seq<Key>, groups: seq<Cells>, i: nat, n: nat)
    requires i < |cfg.specs| && cfg.specs[i].spec.fn.CountStar? && RowsAreGroups(cfg, rows, keys, groups)
    requires n < |keys|
    ensures IntAt(groups[n], |cfg.columns| + i) == WrapInt32(|MembersOf(cfg, rows, keys[n])|)
    ensures |MembersOf(cfg, rows, keys[n])| <= |rows|
  {
    CountCell(cfg, rows, keys[n], i, groups[n]);
    FilterLength(rows, WithKey(PhysKey(cfg.columns), keys[n]));
  }

  lemma CountsTotal(cfg: Config, rows: seq<Cells>, keys: seq<Key>, groups: seq<Cells>, i: nat)
    requires i < |cfg.specs| && cfg.specs[i].spec.fn.CountStar?
    requires keys == KeysOf(cfg, rows) && RowsAreGroups(cfg, rows, keys, groups)
    ensures (ColumnSum(groups, |cfg.columns| + i) - |rows|) % TWO32 == 0
    ensures |rows| < TWO31 ==> ColumnSum(groups, |cfg.columns| + i) == |rows|
  {
    var counts := GroupSizes(cfg, rows);
    CountCells(cfg, rows, keys, groups, i, counts);
  }

  /** The sizes of the groups, which add up to the number of rows. */
  lemma GroupSizes(cfg: Config, rows: seq<Cells>) returns (counts: seq<nat>)
    ensures |counts| == |KeysOf(cfg, rows)| && SumOf(counts) == |rows|
    ensures forall n :: 0 <= n < |counts| ==> counts[n] == |MembersOf(cfg, rows, KeysOf(cfg, rows)[n])|
  {
    if cfg.columns == [] {
      counts := [|rows|];
      assert counts[..0] == [];
    } else {
      var key, keys := PhysKey(cfg.columns), KeysOf(cfg, rows);
      counts := Map(keys, MemberCount(rows, key));
      TotalIsSum(rows, key, keys);
      GroupCountsAddUp(rows, key);
    }
  }

  /** The COUNT(*) cells of all groups add up to the number of input rows, in 32
      bits; exactly, when the rows fit int32. */
  lemma CountStarsAddUp(cfg: Config, rows: seq<Cells>, i: nat)
    requires i < |cfg.specs| && cfg.specs[i].spec.fn.CountStar?
    ensures (ColumnSum(Groups(cfg, rows), |cfg.columns| + i) - |rows|) % TWO32 == 0
    ensures |rows| < TWO31 ==> ColumnSum(Groups(cfg, rows), |cfg.columns| + i) == |rows|
  {
    GroupsAreRows(cfg, rows);
    CountsTotal(cfg, rows, KeysOf(cfg, rows), Groups(cfg, rows), i);
  }

  lemma SliceSplit<T>(s: seq<T>, i: nat, j: nat)
    requires i <= j <= |s|
    ensures s[i..] == s[i..j] + s[j..]
  {
  }

  lemma SliceSnoc<T>(s: seq<T>, i: nat, j: nat)
    requires i <= j < |s|
    ensures s[i..j + 1] == s[i..j] + [s[j]]
  {
  }

  /** The tally has every output row ready, with the announced types. */
  ghost predicate Emits(cfg: Config, t: Tally, all: seq<Cells>) {
    && |t.order| == |all|
    && (forall n: nat :: n < |all| ==> Emittable(cfg, t, n) && EmitRow(cfg, t, n) == all[n])
    && (forall n: nat :: n < |all| ==> CellsTyped(all[n], OutTypes(cfg)))
  }

  lemma TallyEmits(cfg: Config, t: Tally, rows: seq<Cells>)
    requires WellTyped(cfg) && Tracks(cfg, t, rows) && (forall r :: r in rows ==> CellsTyped(r, cfg.inputTypes))
    requires |t.order| == |Groups(cfg, rows)|
    ensures Emits(cfg, t, Groups(cfg, rows))
  {
    var all := Groups(cfg, rows);
    forall n: nat | n < |all| ensures Emittable(cfg, t, n) && EmitRow(cfg, t, n) == all[n] {
      EmitRowIsGroup(cfg, t, rows, n);
    }
    forall n: nat | n < |all| ensures CellsTyped(all[n], OutTypes(cfg)) {
      GroupRowTyped(cfg, rows, n);
    }
  }

  /** The output columns for a run of groups. */
  method BuildBatch(cfg: Config, t: Tally, ghost all: seq<Cells>, start: nat, size: nat) returns (cols: seq<Column>)
    requires Emits(cfg, t, all) && start + size <= |all|
    ensures ColumnsValid(cols, size) && ColumnsTyped(cols, OutTypes(cfg)) &&
      RowsOf(cols, size) == all[start..start + size]
  {
    var types := OutTypes(cfg);
    cols := EmptyColumns(types);
    assert RowsOf(cols, 0) == all[start..start];
    for i := 0 to size
      invariant ColumnsValid(cols, i) && ColumnsTyped(cols, types)
      invariant RowsOf(cols, i) == all[start..start + i]
    {
      var n: nat := start + i;
      var row := EmitRow(cfg, t, n);
      SliceSnoc(all, start, n);
      cols := AppendRow(cols, i, types, row);
    }
  }

  /** What the operator hands over: a non-empty chunk of groups, nothing filtered out. */
  predicate GroupChunk(cfg: Config, c: Chunk) {
    Valid(c) && TypesOf(c) == OutTypes(cfg) && |SelectedRows(c)| == c.rowCount > 0
  }

  /** A batch is full unless it is the last one. */
  function BatchSize(left: nat): nat { if left < VECTOR_SIZE then left else VECTOR_SIZE }

  /** At most 1024 groups from `start` up to `stop`, as a chunk. */
  method BatchChunk(cfg: Config, t: Tally, ghost all: seq<Cells>, start: nat) returns (chunk: Chunk, stop: nat)
    requires Emits(cfg, t, all) && start < |all|
    ensures start < stop <= |all| && GroupChunk(cfg, chunk) && chunk.rowCount == BatchSize(|all| - start)
    ensures all[start..] == SelectedRows(chunk) + all[stop..]
  {
    var left := |t.order| - start;
    var size: nat := if VECTOR_SIZE <= left then VECTOR_SIZE else left;
    var cols := BuildBatch(cfg, t, all, start, size);
    AllSelectedRows(cols, size);
    TypedColumns(cols, size, OutTypes(cfg));
    chunk := AllSelected(cols, size);
    stop := start + size;
    SliceSplit(all, start, stop);
  }

  method NextBatch(cfg: Config, ghost input: seq<Chunk>, t: Tally, start: nat) returns (chunk: Chunk, stop: nat)
    requires WellTyped(cfg) && InputTyped(cfg, input) && AllValid(input) && Tracks(cfg, t, Stream(input))
    requires start < |t.order| == |Groups(cfg, Stream(input))|
    ensures start < stop <= |t.order| && GroupChunk(cfg, chunk) && chunk.rowCount == BatchSize(|t.order| - start)
    ensures Groups(cfg, Stream(input))[start..] == SelectedRows(chunk) + Groups(cfg, Stream(input))[stop..]
  {
    DrainedEmits(cfg, input, t);
    chunk, stop := BatchChunk(cfg, t, Groups(cfg, Stream(input)), start);
  }

  // ----- the operator -----

  class AggregationOperator {
    const cfg: Config
    const input: seq<Chunk>
    var drained: bool
    var tally: Tally
    var emitCursor: nat

    ghost predicate Consistent()
      reads this
    {
      && WellTyped(cfg) && InputTyped(cfg, input) && AllValid(input)
      && (drained ==> Tracks(cfg, tally, Stream(input)) && emitCursor <= |tally.order| == |Groups(cfg, Stream(input))|)
      && (!drained ==> emitCursor == 0)
    }

    /** The groups not delivered yet. */
    ghost function Remaining(): seq<Cells>
      requires Consistent()
      reads this
    {
      if drained then Groups(cfg, Stream(input))[emitCursor..] else Groups(cfg, Stream(input))
    }

    constructor (config: Config, chunks: seq<Chunk>)
      requires WellTyped(config) && InputTyped(config, chunks)
      ensures Consistent() && cfg == config && input == chunks
      ensures Remaining() == Groups(config, Stream(chunks))
    {
      cfg, input, drained, tally, emitCursor := config, chunks, false, Tally([], map[], map[]), 0;
    }

    method EmitBatch() returns (chunk: Chunk)
      requires Consistent() && drained && emitCursor < |tally.order|
      modifies `emitCursor
      ensures Consistent() && GroupChunk(cfg, chunk) && chunk.rowCount == BatchSize(|old(Remaining())|)
      ensures old(Remaining()) == SelectedRows(chunk) + Remaining()
    {
      var stop: nat;
      chunk, stop := NextBatch(cfg, input, tally, emitCursor);
      emitCursor := stop;
    }

    /** One pull: the next 1024 groups, or all that are left, until none is. */
    method GetNext() returns (r: Option<Chunk>)
      requires Consistent()
      modifies this
      ensures Consistent() && drained
      ensures r.None? <==> old(Remaining()) == []
      ensures r.None? ==> Remaining() == []
      ensures r.Some? ==> GroupChunk(cfg, r.value) && r.value.rowCount == BatchSize(|old(Remaining())|)
      ensures r.Some? ==> old(Remaining()) == SelectedRows(r.value) + Remaining()
    {
      if !drained {
        tally := Drain(cfg, input);
        drained := true;
        assert |tally.order| == |Groups(cfg, Stream(input))|;
        assert Groups(cfg, Stream(input))[0..] == Groups(cfg, Stream(input));
      }
      if emitCursor >= |tally.order| {
        return None;
      }
      var chunk := EmitBatch();
      r := Some(chunk);
    }
  }

  lemma DrainedEmits(cfg: Config, input: seq<Chunk>, t: Tally)
    requires WellTyped(cfg) && InputTyped(cfg, input) && AllValid(input) && Tracks(cfg, t, Stream(input))
    requires |t.order| == |Groups(cfg, Stream(input))|
    ensures Emits(cfg, t, Groups(cfg, Stream(input)))
  {
    InputRowsTyped(cfg, input);
    TallyEmits(cfg, t, Stream(input));
  }

  lemma InputRowsTyped(cfg: Config, input: seq<Chunk>)
    requires InputTyped(cfg, input)
    ensures AllValid(input) && forall r :: r in Stream(input) ==> CellsTyped(r, cfg.inputTypes)
  {
    StreamRowsTyped(input, cfg.inputTypes);
  }

  /** Pulling until the end delivers every group once, in order of first appearance. */
  method RunAggregation(cfg: Config, input: seq<Chunk>) returns (chunks: seq<Chunk>)
    requires WellTyped(cfg) && InputTyped(cfg, input)
    ensures forall c :: c in chunks ==> GroupChunk(cfg, c)
    ensures AllValid(input) && AllValid(chunks) && Stream(chunks) == Groups(cfg, Stream(input))
  {
    var op := new AggregationOperator(cfg, input);
    ghost var all := op.Remaining();
    chunks := [];
    PlusEmpty(all);
    var more := true;
    while more
      invariant op.Consistent() && (!more ==> op.Remaining() == [])
      invariant forall c :: c in chunks ==> GroupChunk(cfg, c)
      invariant AllValid(chunks) && all == Stream(chunks) + op.Remaining()
      invariant fresh(op) && op.cfg == cfg
      decreases |op.Remaining()|, more
    {
      ghost var left := op.Remaining();
      var r := op.GetNext();
      if r.Some? {
        Assoc(Stream(chunks), SelectedRows(r.value), op.Remaining());
        StreamSnoc(chunks, r.value);
        chunks := chunks + [r.value];
      } else {
        more := false;
      }
    }
    PlusEmpty(Stream(chunks));
  }
}
