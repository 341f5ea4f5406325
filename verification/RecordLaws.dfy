/** report_module/renderers.py and report_module/generator.py: which records the data of a block hold, and
    that merging blocks loses none of them. */
module RecordLaws {
  import opened Wrappers
  import opened Orders
  import opened BlockCollapse

  // ----- What data hold -----------------------------------------------------------------------------

  /** The mappings of a list, in order: `at` are their places. */
  ghost predicate MappingsAt(items: seq<Value>, rows: seq<Record>, at: seq<int>) {
    && |at| == |rows| && StrictlyIncreasing(at)
    && (forall k :: 0 <= k < |at| ==> 0 <= at[k] < |items| && items[at[k]] == Mapping(rows[k]))
    && (forall i :: 0 <= i < |items| && items[i].Mapping? ==> i in at)
  }

  ghost predicate AreMappingsOf(items: seq<Value>, rows: seq<Record>) {
    exists at :: MappingsAt(items, rows, at)
  }

  /** The members under their entry's name; a member called `name` gives the name instead. */
  ghost predicate IsNamed(row: Record, entry: string, members: Record) {
    if HasKey(members, "name") then
      exists p :: 0 <= p < |members| && members[p].0 == "name" && row == [members[p]] + members[..p] + members[p + 1..]
    else row == [("name", Scalar(entry))] + members
  }

  ghost predicate HasRecordList(entries: Record) {
    exists i :: 0 <= i < |entries| && entries[i].0 == "records" && entries[i].1.List?
  }

  /** The records that the data of a block hold. */
  ghost predicate Holds(data: Value, rows: seq<Record>) {
    match data
    case Scalar(_) => rows == []
    case List(items) => AreMappingsOf(items, rows)
    case Mapping(entries) =>
      if HasRecordList(entries) then
        forall i :: 0 <= i < |entries| && entries[i].0 == "records" && entries[i].1.List? ==>
          AreMappingsOf(entries[i].1.items, rows)
      else if entries != [] && forall i :: 0 <= i < |entries| ==> entries[i].1.Mapping? then
        |rows| == |entries| && forall i :: 0 <= i < |entries| ==> IsNamed(rows[i], entries[i].0, entries[i].1.entries)
      else rows == [entries]
  }

  /** The mappings read are dictionaries. */
  ghost predicate Decoded(data: Value) {
    data.Mapping? ==>
      && IsDict(data.entries)
      && forall i :: 0 <= i < |data.entries| && data.entries[i].1.Mapping? ==> IsDict(data.entries[i].1.entries)
  }

  // ----- The code finds them ------------------------------------------------------------------------

  lemma RowSkipped(items: seq<Value>, v: Value, rows: seq<Record>, at: seq<int>)
    requires MappingsAt(items, rows, at) && !v.Mapping?
    ensures MappingsAt(items + [v], rows, at)
  {
    assert forall i :: 0 <= i < |items| ==> (items + [v])[i] == items[i];
  }

  lemma RowAdded(items: seq<Value>, v: Value, rows: seq<Record>, at: seq<int>)
    requires MappingsAt(items, rows, at) && v.Mapping?
    ensures MappingsAt(items + [v], rows + [v.entries], at + [|items|])
  {
    var all, places := items + [v], at + [|items|];
    assert forall i :: 0 <= i < |items| ==> all[i] == items[i];
    forall i | 0 <= i < |all| && all[i].Mapping? ensures i in places {
      if i < |items| {
        assert i in at;
      } else {
        assert places[|at|] == i;
      }
    }
  }

  lemma {:induction false} RowsAreMappings(items: seq<Value>) returns (at: seq<int>)
    ensures MappingsAt(items, Rows(items), at)
  {
    if items == [] {
      at := [];
    } else {
      var n := |items| - 1;
      var before := RowsAreMappings(items[..n]);
      assert items == items[..n] + [items[n]];
      hide MappingsAt;
      if items[n].Mapping? {
        RowAdded(items[..n], items[n], Rows(items[..n]), before);
        at := before + [n];
      } else {
        RowSkipped(items[..n], items[n], Rows(items[..n]), before);
        at := before;
      }
    }
  }

  lemma RowsIff(items: seq<Value>, rows: seq<Record>)
    ensures AreMappingsOf(items, rows) <==> rows == Rows(items)
  {
    var at := RowsAreMappings(items);
    if AreMappingsOf(items, rows) {
      var other :| MappingsAt(items, rows, other);
      PlacesContain(items, rows, other, Rows(items), at);
      PlacesContain(items, Rows(items), at, rows, other);
      IncreasingUnique(at, other);
    }
  }

  lemma PlacesContain(items: seq<Value>, rows: seq<Record>, at: seq<int>, others: seq<Record>, places: seq<int>)
    requires MappingsAt(items, rows, at) && MappingsAt(items, others, places)
    ensures forall i :: i in at ==> i in places
  {
    forall i | i in at ensures i in places {
      var k :| 0 <= k < |at| && at[k] == i;
    }
  }

  ghost predicate KeysDiffer(a: Record, b: Record) {
    forall i, j :: 0 <= i < |a| && 0 <= j < |b| ==> a[i].0 != b[j].0
  }

  lemma {:induction false} UpdatedAppends(d: Record, more: Record)
    requires IsDict(more) && KeysDiffer(d, more)
    ensures Updated(d, more) == d + more
  {
    if more == [] {
      assert d + more == d;
    } else {
      var n := |more| - 1;
      UpdatedAppends(d, more[..n]);
      assert !HasKey(d + more[..n], more[n].0);
      SetNewAppends(d + more[..n], more[n].0, more[n].1);
      assert d + more == d + more[..n] + [more[n]];
    }
  }

  lemma {:induction false} UpdatedAssociates(d: Record, more: Record, rest: Record)
    ensures Updated(d, more + rest) == Updated(Updated(d, more), rest)
  {
    if rest == [] {
      assert more + rest == more;
    } else {
      var n := |rest| - 1;
      UpdatedAssociates(d, more, rest[..n]);
      assert (more + rest)[..|more| + n] == more + rest[..n];
    }
  }

  /** A row named after its entry. */
  lemma NamedRow(entry: string, members: Record, row: Record)
    requires IsDict(members)
    ensures IsNamed(row, entry, members) <==> row == Updated([("name", Scalar(entry))], members)
  {
    var start := [("name", Scalar(entry))];
    if HasKey(members, "name") {
      var p :| 0 <= p < |members| && members[p].0 == "name";
      NamedRowAt(entry, members, p);
      assert forall q :: 0 <= q < |members| && members[q].0 == "name" ==> q == p;
    } else {
      UpdatedAppends(start, members);
    }
  }

  lemma NameReplaced(d: Record, x: (string, Value))
    requires d != [] && d[0].0 == x.0
    ensures Updated(d, [x]) == [x] + d[1..]
  {
    assert [x][..0] == [];
    assert Updated(d, []) == d;
  }

  lemma KeysApart(members: Record, p: nat)
    requires IsDict(members) && p < |members|
    ensures IsDict(members[..p]) && IsDict(members[p + 1..])
    ensures KeysDiffer([members[p]], members[..p])
    ensures KeysDiffer([members[p]] + members[..p], members[p + 1..])
    ensures members == members[..p] + ([members[p]] + members[p + 1..])
  {
  }

  lemma NamedRowAt(entry: string, members: Record, p: nat)
    requires IsDict(members) && p < |members| && members[p].0 == "name"
    ensures Updated([("name", Scalar(entry))], members) == [members[p]] + members[..p] + members[p + 1..]
  {
    KeysApart(members, p);
    hide Updated, IsDict;
    var start := [("name", Scalar(entry))];
    var x := members[p];
    assert KeysDiffer(start, members[..p]) by {
      assert [x][0].0 == start[0].0;
    }
    UpdatedAssociates(start, members[..p], [x] + members[p + 1..]);
    UpdatedAppends(start, members[..p]);
    UpdatedAssociates(start + members[..p], [x], members[p + 1..]);
    NameReplaced(start + members[..p], x);
    assert (start + members[..p])[1..] == members[..p];
    UpdatedAppends([x] + members[..p], members[p + 1..]);
  }

  lemma RecordListIs(entries: Record, i: nat)
    requires IsDict(entries) && i < |entries| && entries[i].0 == "records"
    ensures Lookup(entries, "records") == Some(entries[i].1)
  {
    LookupIs(entries, "records", entries[i].1);
  }

  /** What the code extracts is what the data hold. */
  lemma HoldsIff(data: Value, rows: seq<Record>)
    requires Decoded(data)
    ensures Holds(data, rows) <==> rows == ExtractRecords(data)
  {
    match data
    case Scalar(_) =>
    case List(items) => RowsIff(items, rows);
    case Mapping(entries) =>
      LookupIs(entries, "records", Scalar(""));
      if i :| 0 <= i < |entries| && entries[i].0 == "records" {
        RecordListIs(entries, i);
        if entries[i].1.List? {
          RowsIff(entries[i].1.items, rows);
        }
      }
      hide AreMappingsOf, Rows, IsNamed, Lookup, Updated;
      forall i, row | 0 <= i < |entries| && entries[i].1.Mapping?
        ensures IsNamed(row, entries[i].0, entries[i].1.entries)
           <==> row == Updated([("name", Scalar(entries[i].0))], entries[i].1.entries)
      {
        NamedRow(entries[i].0, entries[i].1.entries, row);
      }
  }

  // ----- Nothing is lost ----------------------------------------------------------------------------

  /** The records of the blocks, each flattened by one level, in order. */
  function Flattened(held: seq<seq<Record>>): seq<Record> {
    if held == [] then [] else Flattened(held[..|held| - 1]) + FlattenAll(held[|held| - 1])
  }

  function Concatenated(held: seq<seq<Record>>): seq<Record> {
    if held == [] then [] else Concatenated(held[..|held| - 1]) + held[|held| - 1]
  }

  ghost predicate HeldBy(blocks: seq<Block>, held: seq<seq<Record>>) {
    |held| == |blocks| && forall i :: 0 <= i < |blocks| ==> Decoded(blocks[i].data) && Holds(blocks[i].data, held[i])
  }

  lemma {:induction false} FlattenedAre(blocks: seq<Block>, held: seq<seq<Record>>)
    requires HeldBy(blocks, held)
    ensures Flattened(held) == AllRecords(blocks) && Concatenated(held) == Extracted(blocks)
  {
    if blocks != [] {
      var n := |blocks| - 1;
      HoldsIff(blocks[n].data, held[n]);
      hide Decoded, Holds, ExtractRecords;
      FlattenedAre(blocks[..n], held[..n]);
    }
  }

  lemma MergedIsDecoded(records: seq<Record>)
    ensures Decoded(RecordData(records))
  {
  }

  lemma {:induction false} CollapsedIsDecoded(sections: seq<Block>)
    requires forall i :: 0 <= i < |sections| ==> Decoded(sections[i].data)
    ensures forall j :: 0 <= j < |Collapse(sections)| ==> Decoded(Collapse(sections)[j].data)
  {
    if sections != [] {
      var n := |sections| - 1;
      CollapsedIsDecoded(sections[..n]);
      var merged := Collapse(sections[..n]);
      if merged != [] {
        MergedIsDecoded(RecordsForMerge(merged[|merged| - 1]) + RecordsForMerge(sections[n]));
      }
      hide Decoded, HasSameHeading, RecordsForMerge, RecordData;
    }
  }

  /** Collapsing keeps what the data of the blocks held: the same records, flattened, in order. */
  lemma CollapseKeepsData(sections: seq<Block>, held: seq<seq<Record>>, kept: seq<seq<Record>>)
    requires HeldBy(sections, held)
    requires |kept| == |Collapse(sections)|
    requires forall j :: 0 <= j < |kept| ==> Holds(Collapse(sections)[j].data, kept[j])
    ensures Flattened(kept) == Flattened(held)
  {
    CollapsedIsDecoded(sections);
    hide Decoded, Holds, Collapse;
    FlattenedAre(sections, held);
    FlattenedAre(Collapse(sections), kept);
    CollapseKeepsRecords(sections);
  }

  /** Data hold one sequence of records: there is always one, and no other. */
  lemma HoldsOne(data: Value, rows: seq<Record>)
    requires Decoded(data)
    ensures Holds(data, ExtractRecords(data)) && (Holds(data, rows) ==> rows == ExtractRecords(data))
  {
    HoldsIff(data, rows);
    HoldsIff(data, ExtractRecords(data));
    hide Decoded, Holds, ExtractRecords;
  }

  lemma {:induction false} EvalsAreDecoded(sections: seq<Block>)
    requires forall i :: 0 <= i < |sections| ==> Decoded(sections[i].data)
    ensures forall j :: 0 <= j < |Evals(sections)| ==> Decoded(Evals(sections)[j].data)
  {
    hide Decoded;
    if sections != [] {
      EvalsAreDecoded(sections[..|sections| - 1]);
    }
  }

  /** Consolidating keeps what the data of the eval blocks held: all their records, in order. */
  lemma ConsolidateKeepsData(sections: seq<Block>, held: seq<seq<Record>>, kept: seq<seq<Record>>)
    requires forall i :: 0 <= i < |sections| ==> Decoded(sections[i].data)
    requires HeldBy(Evals(sections), held)
    requires |kept| == |Evals(Consolidate(sections))|
    requires forall j :: 0 <= j < |kept| ==> Holds(Evals(Consolidate(sections))[j].data, kept[j])
    ensures Concatenated(kept) == Concatenated(held)
  {
    ConsolidatedIsDecoded(sections);
    hide Decoded, Holds, Consolidate;
    FlattenedAre(Evals(sections), held);
    FlattenedAre(Evals(Consolidate(sections)), kept);
    ConsolidateKeepsRecords(sections);
  }

  lemma ConsolidatedIsDecoded(sections: seq<Block>)
    requires forall i :: 0 <= i < |sections| ==> Decoded(sections[i].data)
    ensures forall j :: 0 <= j < |Evals(Consolidate(sections))| ==> Decoded(Evals(Consolidate(sections))[j].data)
  {
    EvalsAreDecoded(sections);
    if |Evals(sections)| > 1 {
      MergedIsDecoded(Extracted(Evals(sections)));
      InPlaceKeeps(sections, Consolidated(Evals(sections)));
    }
    hide Decoded, InPlaceOfFirst;
  }

  lemma {:induction false} EvalsAre(sections: seq<Block>, b: Block)
    ensures b in Evals(sections) <==> b in sections && b.kind == "evals"
    ensures b in Others(sections) <==> b in sections && b.kind != "evals"
  {
    if sections != [] {
      EvalsAre(sections[..|sections| - 1], b);
      assert sections == sections[..|sections| - 1] + [sections[|sections| - 1]];
    }
  }

  /** The block that stands for several eval blocks. */
  lemma ConsolidatedBlock(sections: seq<Block>)
    requires |Evals(sections)| > 1
    ensures |Evals(Consolidate(sections))| == 1
    ensures var b := Evals(Consolidate(sections))[0];
            && b.kind == "evals" && b.title == Some("Accuracy Evaluations") && b.taskType == None && b.targets == []
            && b.id == Evals(sections)[0].id
  {
    InPlaceKeeps(sections, Consolidated(Evals(sections)));
    hide Evals, InPlaceOfFirst, Extracted, RecordData;
  }
}
