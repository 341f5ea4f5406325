/** report_module/generator.py: blocks are merged for rendering without losing a record. */
module BlockCollapse {
  import opened Wrappers

  /** Decoded data, members in order. A scalar is known by a text. */
  datatype Value = Scalar(text: string) | List(items: seq<Value>) | Mapping(entries: Record)

  type Record = seq<(string, Value)>

  datatype Block = Block(
    kind: string, title: Option<string>, taskType: Option<string>, id: Option<string>, targets: Record, data: Value)

  // ----- Ordered dictionaries -----------------------------------------------------------------------

  ghost predicate IsDict(d: Record) {
    forall i, j :: 0 <= i < j < |d| ==> d[i].0 != d[j].0
  }

  predicate HasKey(d: Record, key: string) {
    exists i :: 0 <= i < |d| && d[i].0 == key
  }

  /** `d[key] = value`: an existing key keeps its place. */
  function SetItem(d: Record, key: string, value: Value): Record {
    if d == [] then [(key, value)]
    else if d[0].0 == key then [(key, value)] + d[1..]
    else [d[0]] + SetItem(d[1..], key, value)
  }

  /** `d.setdefault(key, value)` */
  function SetDefault(d: Record, key: string, value: Value): Record {
    if HasKey(d, key) then d else d + [(key, value)]
  }

  /** `d.get(key)` */
  function Lookup(d: Record, key: string): Option<Value> {
    if d == [] then None
    else if d[|d| - 1].0 == key then Some(d[|d| - 1].1)
    else Lookup(d[..|d| - 1], key)
  }

  // ----- Flattening ---------------------------------------------------------------------------------

  /** A mapping that holds no mapping is what one level of flattening dissolves. */
  predicate IsFlatMapping(v: Value) {
    v.Mapping? && forall i :: 0 <= i < |v.entries| ==> !v.entries[i].1.Mapping?
  }

  function Defaults(out: Record, entries: Record): Record {
    if entries == [] then out
    else SetDefault(Defaults(out, entries[..|entries| - 1]), entries[|entries| - 1].0, entries[|entries| - 1].1)
  }

  function FlattenEntry(out: Record, key: string, value: Value): Record {
    if IsFlatMapping(value) then Defaults(out, value.entries) else SetItem(out, key, value)
  }

  function Flatten(record: Record): Record {
    if record == [] then []
    else FlattenEntry(Flatten(record[..|record| - 1]), record[|record| - 1].0, record[|record| - 1].1)
  }

  method FlattenOneLevel(record: Record) returns (out: Record)
    ensures out == Flatten(record)
  {
    out := [];
    for i := 0 to |record|
      invariant out == Flatten(record[..i])
    {
      var (key, value) := record[i];
      assert IsFlatMapping(value) ==> value.Mapping?;
      hide IsFlatMapping;
      ghost var before := out;
      if IsFlatMapping(value) {
        for j := 0 to |value.entries|
          invariant out == Defaults(before, value.entries[..j])
        {
          out := SetDefault(out, value.entries[j].0, value.entries[j].1);
          assert value.entries[..j + 1][..j] == value.entries[..j];
        }
        assert value.entries[..|value.entries|] == value.entries;
      } else {
        out := SetItem(out, key, value);
      }
      assert record[..i + 1][..i] == record[..i];
    }
    assert record[..|record|] == record;
  }

  /** What flattening leaves: a dictionary with nothing more to dissolve. */
  ghost predicate IsFlattened(d: Record) {
    IsDict(d) && forall i :: 0 <= i < |d| ==> !IsFlatMapping(d[i].1)
  }

  /** An item replaces the one under its key, or else comes last. */
  lemma {:induction false} SetItemEntries(d: Record, key: string, value: Value)
    requires IsDict(d)
    ensures var r := SetItem(d, key, value);
            && |d| <= |r| <= |d| + 1
            && (forall j :: 0 <= j < |d| ==> r[j] == if d[j].0 == key then (key, value) else d[j])
            && (|r| > |d| ==> r[|d|] == (key, value) && forall j :: 0 <= j < |d| ==> d[j].0 != key)
  {
    if d != [] && d[0].0 != key {
      SetItemEntries(d[1..], key, value);
      var rest, r := SetItem(d[1..], key, value), SetItem(d, key, value);
      assert r == [d[0]] + rest;
      forall j | 0 <= j < |d| ensures r[j] == if d[j].0 == key then (key, value) else d[j] {
        if j > 0 {
          assert r[j] == rest[j - 1] && d[j] == d[1..][j - 1];
        }
      }
      if |r| > |d| {
        forall j | 0 <= j < |d| ensures d[j].0 != key {
          if j > 0 {
            assert d[1..][j - 1].0 != key;
          }
        }
      }
    }
  }

  lemma SetItemKeeps(d: Record, key: string, value: Value)
    requires IsFlattened(d) && !IsFlatMapping(value)
    ensures IsFlattened(SetItem(d, key, value))
  {
    hide IsFlatMapping;
    SetItemEntries(d, key, value);
    hide SetItem;
  }

  lemma {:induction false} DefaultsKeep(out: Record, entries: Record)
    requires IsFlattened(out) && forall i :: 0 <= i < |entries| ==> !entries[i].1.Mapping?
    ensures IsFlattened(Defaults(out, entries))
  {
    if entries != [] {
      DefaultsKeep(out, entries[..|entries| - 1]);
    }
  }

  lemma {:induction false} FlattenFlattens(record: Record)
    ensures IsFlattened(Flatten(record))
  {
    if record != [] {
      var n := |record| - 1;
      FlattenFlattens(record[..n]);
      hide IsFlattened;
      if IsFlatMapping(record[n].1) {
        DefaultsKeep(Flatten(record[..n]), record[n].1.entries);
      } else {
        SetItemKeeps(Flatten(record[..n]), record[n].0, record[n].1);
      }
    }
  }

  lemma {:induction false} SetNewAppends(d: Record, key: string, value: Value)
    requires !HasKey(d, key)
    ensures SetItem(d, key, value) == d + [(key, value)]
  {
    if d != [] {
      assert d[0].0 != key;
      forall i | 0 <= i < |d[1..]| ensures d[1..][i].0 != key {
        assert d[1..][i] == d[i + 1];
      }
      SetNewAppends(d[1..], key, value);
    }
  }

  lemma {:induction false} FlattenedStays(d: Record)
    requires IsFlattened(d)
    ensures Flatten(d) == d
  {
    if d != [] {
      var n := |d| - 1;
      FlattenedStays(d[..n]);
      assert !HasKey(d[..n], d[n].0);
      SetNewAppends(d[..n], d[n].0, d[n].1);
      assert d == d[..n] + [d[n]];
    }
  }

  /** Flattening again changes nothing. */
  lemma FlattenIdempotent(record: Record)
    ensures Flatten(Flatten(record)) == Flatten(record)
  {
    FlattenFlattens(record);
    FlattenedStays(Flatten(record));
  }

  /** The value an entry of the record itself gives a key. */
  function Plain(record: Record, key: string): Option<Value> {
    if record == [] then None
    else
      var (k, v) := record[|record| - 1];
      if k == key && !IsFlatMapping(v) then Some(v) else Plain(record[..|record| - 1], key)
  }

  /** The value the first nested mapping that has the key gives it. */
  function Nested(record: Record, key: string): Option<Value> {
    if record == [] then None
    else
      var earlier, v := Nested(record[..|record| - 1], key), record[|record| - 1].1;
      if earlier.Some? || !IsFlatMapping(v) then earlier else First(v.entries, key)
  }

  function First(d: Record, key: string): Option<Value> {
    if d == [] then None
    else
      var earlier := First(d[..|d| - 1], key);
      if earlier.None? && d[|d| - 1].0 == key then Some(d[|d| - 1].1) else earlier
  }

  lemma {:induction false} LookupIs(d: Record, key: string, value: Value)
    requires IsDict(d)
    ensures Lookup(d, key) == Some(value) <==> (key, value) in d
    ensures Lookup(d, key).None? <==> !HasKey(d, key)
  {
    if d != [] {
      var n := |d| - 1;
      LookupIs(d[..n], key, value);
      assert d == d[..n] + [d[n]];
      assert HasKey(d, key) <==> HasKey(d[..n], key) || d[n].0 == key;
    }
  }

  lemma LookupSetItem(d: Record, key: string, value: Value, k: string)
    requires IsDict(d) && IsDict(SetItem(d, key, value))
    ensures Lookup(SetItem(d, key, value), k) == if k == key then Some(value) else Lookup(d, k)
  {
    var r := SetItem(d, key, value);
    SetItemEntries(d, key, value);
    hide SetItem, Lookup;
    if k == key {
      assert (key, value) in r by {
        if |r| == |d| { SetItemReaches(d, key, value); }
      }
      LookupIs(r, k, value);
    } else if Lookup(d, k).Some? {
      var v := Lookup(d, k).value;
      LookupIs(d, k, v);
      var j :| 0 <= j < |d| && d[j] == (k, v);
      assert r[j] == (k, v);
      LookupIs(r, k, v);
    } else {
      LookupIs(d, k, value);
      LookupIs(r, k, value);
      assert forall j :: 0 <= j < |d| ==> d[j].0 != k;
    }
  }

  lemma {:induction false} SetItemReaches(d: Record, key: string, value: Value)
    ensures (key, value) in SetItem(d, key, value)
  {
    if d != [] && d[0].0 != key {
      SetItemReaches(d[1..], key, value);
    }
  }

  lemma {:induction false} LookupDefaults(out: Record, entries: Record, k: string)
    requires IsDict(out)
    ensures IsDict(Defaults(out, entries))
    ensures Lookup(Defaults(out, entries), k) == if Lookup(out, k).Some? then Lookup(out, k) else First(entries, k)
  {
    if entries != [] {
      var n := |entries| - 1;
      LookupDefaults(out, entries[..n], k);
      var before := Defaults(out, entries[..n]);
      LookupIs(before, entries[n].0, entries[n].1);
      LookupIs(before, k, entries[n].1);
    }
  }

  /** A key of the record itself always wins; otherwise the first nested mapping that has it does. */
  lemma {:induction false} FlattenPrecedence(record: Record, k: string)
    ensures Lookup(Flatten(record), k) == if Plain(record, k).Some? then Plain(record, k) else Nested(record, k)
  {
    if record != [] {
      var n := |record| - 1;
      var (key, value) := record[n];
      FlattenPrecedence(record[..n], k);
      FlattenFlattens(record[..n]);
      if IsFlatMapping(value) {
        LookupDefaults(Flatten(record[..n]), value.entries, k);
      } else {
        SetItemKeeps(Flatten(record[..n]), key, value);
        LookupSetItem(Flatten(record[..n]), key, value, k);
      }
    }
  }

  // ----- Records of a block ---------------------------------------------------------------------------

  function Rows(items: seq<Value>): seq<Record> {
    if items == [] then []
    else Rows(items[..|items| - 1]) + if items[|items| - 1].Mapping? then [items[|items| - 1].entries] else []
  }

  /** `{"name": k, **v}` for each entry of a mapping of mappings. */
  function NamedRows(entries: Record): seq<Record>
    requires forall i :: 0 <= i < |entries| ==> entries[i].1.Mapping?
  {
    seq(|entries|, i requires 0 <= i < |entries| => Updated([("name", Scalar(entries[i].0))], entries[i].1.entries))
  }

  function Updated(d: Record, more: Record): Record {
    if more == [] then d else SetItem(Updated(d, more[..|more| - 1]), more[|more| - 1].0, more[|more| - 1].1)
  }

  function ExtractRecords(data: Value): seq<Record> {
    match data
    case List(items) => Rows(items)
    case Scalar(_) => []
    case Mapping(entries) =>
      var raw := Lookup(entries, "records");
      if raw.Some? && raw.value.List? then Rows(raw.value.items)
      else if entries != [] && forall i :: 0 <= i < |entries| ==> entries[i].1.Mapping? then NamedRows(entries)
      else [entries]
  }

  function FlattenAll(records: seq<Record>): seq<Record> {
    seq(|records|, i requires 0 <= i < |records| => Flatten(records[i]))
  }

  function RecordsForMerge(b: Block): seq<Record> {
    FlattenAll(ExtractRecords(b.data))
  }

  function RecordData(records: seq<Record>): Value {
    Mapping([("records", List(seq(|records|, i requires 0 <= i < |records| => Mapping(records[i]))))])
  }

  lemma {:induction false} RowsOfRecords(records: seq<Record>)
    ensures Rows(seq(|records|, i requires 0 <= i < |records| => Mapping(records[i]))) == records
  {
    if records != [] {
      var n := |records| - 1;
      RowsOfRecords(records[..n]);
      var items := seq(|records|, i requires 0 <= i < |records| => Mapping(records[i]));
      assert items[..n] == seq(|records[..n]|, i requires 0 <= i < |records[..n]| => Mapping(records[..n][i]));
      assert records == records[..n] + [records[n]];
    }
  }

  /** Record data yields its records back. */
  lemma RecordDataExtracts(records: seq<Record>)
    ensures ExtractRecords(RecordData(records)) == records
  {
    RowsOfRecords(records);
    var data := RecordData(records);
    assert data.entries[..0] == [];
    assert Lookup(data.entries, "records") == Some(data.entries[0].1);
  }

  // ----- Collapsing -----------------------------------------------------------------------------------

  function OrEmpty(s: Option<string>): string {
    if s.None? then "" else s.value
  }

  function Heading(b: Block): (string, string, string, string) {
    (b.kind, OrEmpty(b.taskType), OrEmpty(b.title), OrEmpty(b.id))
  }

  predicate HasSameHeading(a: Block, b: Block) {
    Heading(a) == Heading(b)
  }

  /** Nothing and the empty text are the same in a heading. */
  predicate SameText(x: Option<string>, y: Option<string>) {
    x == y || ((x == None || x == Some("")) && (y == None || y == Some("")))
  }

  lemma SameHeadingIff(a: Block, b: Block)
    ensures HasSameHeading(a, b)
       <==> a.kind == b.kind && SameText(a.taskType, b.taskType) && SameText(a.title, b.title) && SameText(a.id, b.id)
  {
  }

  function MergeBlocks(a: Block, b: Block): Block {
    Block(a.kind, a.title, a.taskType, a.id, a.targets, RecordData(RecordsForMerge(a) + RecordsForMerge(b)))
  }

  function Collapse(sections: seq<Block>): seq<Block> {
    if sections == [] then []
    else
      var merged, block := Collapse(sections[..|sections| - 1]), sections[|sections| - 1];
      if merged != [] && HasSameHeading(merged[|merged| - 1], block) then
        merged[..|merged| - 1] + [MergeBlocks(merged[|merged| - 1], block)]
      else merged + [block]
  }

  method CollapseSameHeadingBlocks(sections: seq<Block>) returns (merged: seq<Block>)
    ensures merged == Collapse(sections)
  {
    hide HasSameHeading, MergeBlocks, Collapse;
    merged := [];
    NothingToCollapse(sections[..0]);
    for i := 0 to |sections|
      invariant merged == Collapse(sections[..i])
    {
      CollapseStep(sections, i);
      var block := sections[i];
      if merged != [] && HasSameHeading(merged[|merged| - 1], block) {
        merged := merged[|merged| - 1 := MergeBlocks(merged[|merged| - 1], block)];
      } else {
        merged := merged + [block];
      }
    }
    assert sections[..|sections|] == sections;
  }

  lemma CollapseStep(sections: seq<Block>, i: nat)
    requires i < |sections|
    ensures var merged, block := Collapse(sections[..i]), sections[i];
            Collapse(sections[..i + 1])
            == if merged != [] && HasSameHeading(merged[|merged| - 1], block)
               then merged[|merged| - 1 := MergeBlocks(merged[|merged| - 1], block)]
               else merged + [block]
  {
    hide HasSameHeading, MergeBlocks;
    assert sections[..i + 1][..i] == sections[..i];
  }

  lemma FlattenAllIdempotent(records: seq<Record>)
    ensures FlattenAll(FlattenAll(records)) == FlattenAll(records)
  {
    hide Flatten;
    forall i | 0 <= i < |records| ensures FlattenAll(FlattenAll(records))[i] == FlattenAll(records)[i] {
      FlattenIdempotent(records[i]);
    }
  }

  /** A merged block yields the records of both, in order, and keeps the heading of the first. */
  lemma MergeKeepsRecords(a: Block, b: Block)
    ensures RecordsForMerge(MergeBlocks(a, b)) == RecordsForMerge(a) + RecordsForMerge(b)
    ensures Heading(MergeBlocks(a, b)) == Heading(a)
  {
    var x, y := ExtractRecords(a.data), ExtractRecords(b.data);
    RecordDataExtracts(FlattenAll(x) + FlattenAll(y));
    FlattenAllIdempotent(x);
    FlattenAllIdempotent(y);
    hide Flatten, ExtractRecords, RecordData;
    assert FlattenAll(FlattenAll(x) + FlattenAll(y)) == FlattenAll(FlattenAll(x)) + FlattenAll(FlattenAll(y));
  }

  function AllRecords(sections: seq<Block>): seq<Record> {
    if sections == [] then [] else AllRecords(sections[..|sections| - 1]) + RecordsForMerge(sections[|sections| - 1])
  }

  ghost predicate NeighboursDiffer(sections: seq<Block>) {
    forall i :: 0 < i < |sections| ==> !HasSameHeading(sections[i - 1], sections[i])
  }

  lemma RecordsLast(sections: seq<Block>, b: Block)
    ensures AllRecords(sections + [b]) == AllRecords(sections) + RecordsForMerge(b)
  {
    hide RecordsForMerge;
    assert (sections + [b])[..|sections|] == sections;
  }

  lemma ConcatAssociates<T>(a: seq<T>, b: seq<T>, c: seq<T>)
    ensures a + (b + c) == (a + b) + c
  {
  }

  lemma MergedLast(merged: seq<Block>, block: Block)
    requires merged != []
    ensures AllRecords(merged[..|merged| - 1] + [MergeBlocks(merged[|merged| - 1], block)])
         == AllRecords(merged) + RecordsForMerge(block)
  {
    hide RecordsForMerge, MergeBlocks;
    var front, last := merged[..|merged| - 1], merged[|merged| - 1];
    MergeKeepsRecords(last, block);
    RecordsLast(front, MergeBlocks(last, block));
    ConcatAssociates(AllRecords(front), RecordsForMerge(last), RecordsForMerge(block));
  }

  /** Collapsing keeps every record, in order. */
  lemma {:induction false} CollapseKeepsRecords(sections: seq<Block>)
    ensures AllRecords(Collapse(sections)) == AllRecords(sections)
  {
    hide RecordsForMerge, MergeBlocks, HasSameHeading;
    if sections != [] {
      var n := |sections| - 1;
      CollapseKeepsRecords(sections[..n]);
      var merged, block := Collapse(sections[..n]), sections[n];
      hide AllRecords;
      if merged != [] && HasSameHeading(merged[|merged| - 1], block) {
        MergedLast(merged, block);
      } else {
        RecordsLast(merged, block);
      }
    }
  }

  /** Collapsing leaves no neighbours under one heading. */
  lemma {:induction false} CollapseSeparates(sections: seq<Block>)
    ensures NeighboursDiffer(Collapse(sections))
  {
    if sections != [] {
      var n := |sections| - 1;
      CollapseSeparates(sections[..n]);
      var merged, block := Collapse(sections[..n]), sections[n];
      if merged != [] {
        MergeKeepsRecords(merged[|merged| - 1], block);
      }
      hide MergeBlocks, Heading;
    }
  }

  lemma {:induction false} NothingToCollapse(sections: seq<Block>)
    requires NeighboursDiffer(sections)
    ensures Collapse(sections) == sections
  {
    if sections != [] {
      NothingToCollapse(sections[..|sections| - 1]);
    }
  }

  /** Collapsing twice changes nothing. */
  lemma CollapseIdempotent(sections: seq<Block>)
    ensures Collapse(Collapse(sections)) == Collapse(sections)
  {
    CollapseSeparates(sections);
    NothingToCollapse(Collapse(sections));
  }

  // ----- Runs -----------------------------------------------------------------------------------------

  /** The maximal runs of neighbours under one heading. */
  function Runs(sections: seq<Block>): seq<seq<Block>> {
    if sections == [] then []
    else
      var runs, block := Runs(sections[..|sections| - 1]), sections[|sections| - 1];
      if runs != [] && runs[|runs| - 1] != [] && HasSameHeading(runs[|runs| - 1][0], block) then
        runs[..|runs| - 1] + [runs[|runs| - 1] + [block]]
      else runs + [[block]]
  }

  function Joined(runs: seq<seq<Block>>): seq<Block> {
    if runs == [] then [] else Joined(runs[..|runs| - 1]) + runs[|runs| - 1]
  }

  predicate OneHeading(run: seq<Block>) {
    run != [] && forall i :: 0 <= i < |run| ==> Heading(run[i]) == Heading(run[0])
  }

  ghost predicate AreMaximal(runs: seq<seq<Block>>) {
    && (forall k :: 0 <= k < |runs| ==> OneHeading(runs[k]))
    && (forall k :: 0 < k < |runs| ==> Heading(runs[k - 1][0]) != Heading(runs[k][0]))
  }

  lemma JoinedLast(runs: seq<seq<Block>>, run: seq<Block>)
    ensures Joined(runs + [run]) == Joined(runs) + run
  {
    assert (runs + [run])[..|runs|] == runs;
  }

  lemma JoinedLonger(runs: seq<seq<Block>>, block: Block)
    requires runs != []
    ensures Joined(runs[..|runs| - 1] + [runs[|runs| - 1] + [block]]) == Joined(runs) + [block]
  {
    var front, last := runs[..|runs| - 1], runs[|runs| - 1];
    JoinedLast(front, last + [block]);
    ConcatAssociates(Joined(front), last, [block]);
  }

  lemma {:induction false} RunsJoin(sections: seq<Block>)
    ensures Joined(Runs(sections)) == sections
  {
    assert Joined([]) == [];
    hide HasSameHeading, Joined;
    if sections != [] {
      var n := |sections| - 1;
      RunsJoin(sections[..n]);
      var runs, block := Runs(sections[..n]), sections[n];
      JoinedLast(runs, [block]);
      if runs != [] {
        JoinedLonger(runs, block);
      }
      assert Joined(Runs(sections)) == sections[..n] + [block];
    }
  }

  lemma LongerRun(runs: seq<seq<Block>>, block: Block)
    requires AreMaximal(runs) && runs != [] && HasSameHeading(runs[|runs| - 1][0], block)
    ensures AreMaximal(runs[..|runs| - 1] + [runs[|runs| - 1] + [block]])
  {
    var run := runs[|runs| - 1];
    assert OneHeading(run) && (run + [block])[0] == run[0];
    assert OneHeading(run + [block]);
    hide Heading, OneHeading;
  }

  lemma AnotherRun(runs: seq<seq<Block>>, block: Block)
    requires AreMaximal(runs) && (runs != [] ==> !HasSameHeading(runs[|runs| - 1][0], block))
    ensures AreMaximal(runs + [[block]])
  {
    hide Heading;
  }

  /** The runs make up the sections, and none could be longer. */
  lemma {:induction false} RunsAreMaximal(sections: seq<Block>)
    ensures Joined(Runs(sections)) == sections && AreMaximal(Runs(sections))
  {
    RunsJoin(sections);
    hide HasSameHeading, Joined;
    if sections != [] {
      var n := |sections| - 1;
      RunsAreMaximal(sections[..n]);
      var runs, block := Runs(sections[..n]), sections[n];
      assert runs != [] ==> OneHeading(runs[|runs| - 1]);
      hide AreMaximal, OneHeading;
      if runs != [] && HasSameHeading(runs[|runs| - 1][0], block) {
        LongerRun(runs, block);
      } else {
        AnotherRun(runs, block);
      }
    }
  }

  /** One block for a run: the block itself, or the first with the records of all. */
  function OfRun(run: seq<Block>): Block
    requires run != []
  {
    if |run| == 1 then run[0]
    else
      Block(run[0].kind, run[0].title, run[0].taskType, run[0].id, run[0].targets, RecordData(AllRecords(run)))
  }

  lemma AllRecordsSingle(b: Block)
    ensures AllRecords([b]) == RecordsForMerge(b)
  {
    assert [b][..0] == [];
  }

  lemma {:induction false} RunRecords(run: seq<Block>)
    requires run != []
    ensures RecordsForMerge(OfRun(run)) == AllRecords(run)
  {
    if |run| == 1 {
      AllRecordsSingle(run[0]);
      assert run == [run[0]];
    } else {
      RecordDataExtracts(AllRecords(run));
      AllRecordsFlat(run);
    }
  }

  lemma {:induction false} AllRecordsFlat(sections: seq<Block>)
    ensures FlattenAll(AllRecords(sections)) == AllRecords(sections)
  {
    if sections != [] {
      var n := |sections| - 1;
      AllRecordsFlat(sections[..n]);
      FlattenAllIdempotent(ExtractRecords(sections[n].data));
      hide Flatten, ExtractRecords;
      var last := RecordsForMerge(sections[n]);
      assert FlattenAll(AllRecords(sections[..n]) + last) == FlattenAll(AllRecords(sections[..n])) + FlattenAll(last);
    }
  }

  lemma OfRunGrows(run: seq<Block>, block: Block)
    requires run != []
    ensures OfRun(run + [block]) == MergeBlocks(OfRun(run), block)
    ensures Heading(OfRun(run)) == Heading(run[0])
  {
    RunRecords(run);
    assert (run + [block])[..|run|] == run;
    hide RecordsForMerge, RecordData;
  }

  /** One block for each run. */
  ghost predicate Represent(blocks: seq<Block>, runs: seq<seq<Block>>) {
    |blocks| == |runs| && forall k :: 0 <= k < |runs| ==> runs[k] != [] && blocks[k] == OfRun(runs[k])
  }

  lemma RepresentLonger(blocks: seq<Block>, runs: seq<seq<Block>>, block: Block)
    requires Represent(blocks, runs) && runs != []
    ensures Represent(
              blocks[..|blocks| - 1] + [MergeBlocks(blocks[|blocks| - 1], block)],
              runs[..|runs| - 1] + [runs[|runs| - 1] + [block]])
  {
    OfRunGrows(runs[|runs| - 1], block);
    hide OfRun, MergeBlocks;
  }

  lemma RepresentAnother(blocks: seq<Block>, runs: seq<seq<Block>>, block: Block)
    requires Represent(blocks, runs)
    ensures Represent(blocks + [block], runs + [[block]])
  {
    assert OfRun([block]) == block;
    hide OfRun;
  }

  /** Every maximal run becomes one block, with the one-level flattenings of its records in order. */
  lemma {:induction false} CollapseMergesRuns(sections: seq<Block>)
    ensures Represent(Collapse(sections), Runs(sections)) && AreMaximal(Runs(sections))
  {
    RunsAreMaximal(sections);
    assert Represent([], []);
    hide AreMaximal, HasSameHeading, MergeBlocks, Heading, Represent;
    if sections != [] {
      var n := |sections| - 1;
      CollapseMergesRuns(sections[..n]);
      var blocks, runs, block := Collapse(sections[..n]), Runs(sections[..n]), sections[n];
      SameShape(blocks, runs);
      RepresentAnother(blocks, runs, block);
      if runs != [] {
        LastHeading(blocks, runs, block);
        RepresentLonger(blocks, runs, block);
      }
    }
  }

  lemma SameShape(blocks: seq<Block>, runs: seq<seq<Block>>)
    requires Represent(blocks, runs)
    ensures |blocks| == |runs| && (runs != [] ==> runs[|runs| - 1] != [])
  {
    hide OfRun;
  }

  lemma LastHeading(blocks: seq<Block>, runs: seq<seq<Block>>, block: Block)
    requires Represent(blocks, runs) && runs != []
    ensures HasSameHeading(blocks[|blocks| - 1], block) <==> HasSameHeading(runs[|runs| - 1][0], block)
  {
    OfRunGrows(runs[|runs| - 1], block);
    hide OfRun, Heading;
  }

  // ----- Consolidating ----------------------------------------------------------------------------------

  const EVALS_KIND := "evals"
  const CONSOLIDATED_EVALS_TITLE := "Accuracy Evaluations"

  predicate IsEval(b: Block) {
    b.kind == EVALS_KIND
  }

  function Evals(sections: seq<Block>): seq<Block> {
    if sections == [] then []
    else Evals(sections[..|sections| - 1]) + if IsEval(sections[|sections| - 1]) then [sections[|sections| - 1]] else []
  }

  function Others(sections: seq<Block>): seq<Block> {
    if sections == [] then []
    else
      var last := sections[|sections| - 1];
      Others(sections[..|sections| - 1]) + if IsEval(last) then [] else [last]
  }

  function Extracted(sections: seq<Block>): seq<Record> {
    if sections == [] then [] else Extracted(sections[..|sections| - 1]) + ExtractRecords(sections[|sections| - 1].data)
  }

  function Consolidated(evals: seq<Block>): Block
    requires evals != []
  {
    Block(EVALS_KIND, Some(CONSOLIDATED_EVALS_TITLE), None, evals[0].id, [], RecordData(Extracted(evals)))
  }

  /** Every eval block in the place of the first; `merged` stands for all of them. */
  function InPlaceOfFirst(sections: seq<Block>, merged: Block): seq<Block> {
    if sections == [] then []
    else
      var out, b := InPlaceOfFirst(sections[..|sections| - 1], merged), sections[|sections| - 1];
      if !IsEval(b) then out + [b] else if Evals(sections[..|sections| - 1]) == [] then out + [merged] else out
  }

  function Consolidate(sections: seq<Block>): seq<Block> {
    var evals := Evals(sections);
    if |evals| <= 1 then sections else InPlaceOfFirst(sections, Consolidated(evals))
  }

  lemma PrefixStep(sections: seq<Block>, i: nat, merged: Block)
    requires i < |sections|
    ensures Evals(sections[..i + 1])
         == if IsEval(sections[i]) then Evals(sections[..i]) + [sections[i]] else Evals(sections[..i])
    ensures InPlaceOfFirst(sections[..i + 1], merged)
         == if !IsEval(sections[i]) then InPlaceOfFirst(sections[..i], merged) + [sections[i]]
            else if Evals(sections[..i]) == [] then InPlaceOfFirst(sections[..i], merged) + [merged]
            else InPlaceOfFirst(sections[..i], merged)
    ensures Extracted(sections[..i + 1]) == Extracted(sections[..i]) + ExtractRecords(sections[i].data)
  {
    hide IsEval, ExtractRecords;
    assert sections[..i + 1][..i] == sections[..i];
  }

  method EvalBlocks(sections: seq<Block>) returns (evals: seq<Block>)
    ensures evals == Evals(sections)
  {
    evals := [];
    assert Evals(sections[..0]) == [];
    hide IsEval, Evals;
    for i := 0 to |sections|
      invariant evals == Evals(sections[..i])
    {
      PrefixStep(sections, i, sections[i]);
      if IsEval(sections[i]) {
        evals := evals + [sections[i]];
      }
    }
    assert sections[..|sections|] == sections;
  }

  method RecordsOf(blocks: seq<Block>) returns (records: seq<Record>)
    ensures records == Extracted(blocks)
  {
    records := [];
    assert Extracted(blocks[..0]) == [];
    hide ExtractRecords, Extracted;
    for i := 0 to |blocks|
      invariant records == Extracted(blocks[..i])
    {
      PrefixStep(blocks, i, blocks[i]);
      records := records + ExtractRecords(blocks[i].data);
    }
    assert blocks[..|blocks|] == blocks;
  }

  method ConsolidateEvalBlocks(sections: seq<Block>) returns (out: seq<Block>)
    ensures out == Consolidate(sections)
  {
    hide IsEval, Extracted, RecordData;
    var evals := EvalBlocks(sections);
    if |evals| <= 1 {
      return sections;
    }
    var records := RecordsOf(evals);
    var merged := Block(EVALS_KIND, Some(CONSOLIDATED_EVALS_TITLE), None, evals[0].id, [], RecordData(records));
    out := [];
    var inserted := false;
    assert InPlaceOfFirst(sections[..0], merged) == [] && Evals(sections[..0]) == [];
    hide InPlaceOfFirst, Evals;
    for i := 0 to |sections|
      invariant out == InPlaceOfFirst(sections[..i], merged) && (inserted <==> Evals(sections[..i]) != [])
    {
      PrefixStep(sections, i, merged);
      if !IsEval(sections[i]) {
        out := out + [sections[i]];
      } else if !inserted {
        out := out + [merged];
        inserted := true;
      }
    }
    assert sections[..|sections|] == sections;
  }

  lemma {:induction false} InPlaceKeeps(sections: seq<Block>, merged: Block)
    requires IsEval(merged)
    ensures Others(InPlaceOfFirst(sections, merged)) == Others(sections)
    ensures Evals(InPlaceOfFirst(sections, merged)) == if Evals(sections) == [] then [] else [merged]
  {
    if sections != [] {
      var n := |sections| - 1;
      InPlaceKeeps(sections[..n], merged);
      var out := InPlaceOfFirst(sections[..n], merged);
      assert (out + [sections[n]])[..|out|] == out && (out + [merged])[..|out|] == out;
    }
  }

  /** At most one eval block is left, with the records of all in order; no other block changes. */
  lemma ConsolidateKeepsRecords(sections: seq<Block>)
    ensures |Evals(Consolidate(sections))| <= 1
    ensures Extracted(Evals(Consolidate(sections))) == Extracted(Evals(sections))
    ensures Others(Consolidate(sections)) == Others(sections)
  {
    var evals := Evals(sections);
    if |evals| > 1 {
      var merged := Consolidated(evals);
      InPlaceKeeps(sections, merged);
      RecordDataExtracts(Extracted(evals));
      assert [merged][..0] == [];
    }
  }

  /** The merged block takes the place of the first eval block. */
  lemma {:induction false} ConsolidatedInPlace(sections: seq<Block>, merged: Block, i: nat)
    requires i < |sections| && IsEval(sections[i]) && forall j :: 0 <= j < i ==> !IsEval(sections[j])
    ensures i < |InPlaceOfFirst(sections, merged)|
    ensures InPlaceOfFirst(sections, merged)[..i + 1] == sections[..i] + [merged]
  {
    hide IsEval, InPlaceOfFirst, Evals;
    var n := |sections| - 1;
    PrefixStep(sections, n, merged);
    assert sections[..n + 1] == sections;
    if i < n {
      ConsolidatedInPlace(sections[..n], merged, i);
      assert sections[..n][..i] == sections[..i];
      var before, after := InPlaceOfFirst(sections[..n], merged), InPlaceOfFirst(sections, merged);
      assert before <= after;
      assert after[..i + 1] == before[..i + 1];
    } else {
      NoneYet(sections[..n], merged);
    }
  }

  lemma {:induction false} NoneYet(sections: seq<Block>, merged: Block)
    requires forall j :: 0 <= j < |sections| ==> !IsEval(sections[j])
    ensures InPlaceOfFirst(sections, merged) == sections && Evals(sections) == []
  {
    if sections != [] {
      NoneYet(sections[..|sections| - 1], merged);
    }
  }
}
