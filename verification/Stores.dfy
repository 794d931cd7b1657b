/** The two catalog stores: a vector updated in place, and a table with increasing ids. */
module Stores {
  import opened Catalog

  // ---------------------------------------------------------------------------
  // The filters, one after the other
  // ---------------------------------------------------------------------------

  function OfKind(p: ListParams): DiscoveryResource -> bool {
    (r: DiscoveryResource) => p.kind.Some? ==> r.kind == p.kind.value
  }

  function OnNetwork(p: ListParams): DiscoveryResource -> bool {
    (r: DiscoveryResource) => p.network.Some? ==> AcceptsNetwork(r, p.network.value)
  }

  function UnderScheme(p: ListParams): DiscoveryResource -> bool {
    (r: DiscoveryResource) => p.scheme.Some? ==> AcceptsScheme(r, p.scheme.value)
  }

  lemma {:induction false} RetainAll(rows: Rows, keep: DiscoveryResource -> bool)
    requires forall r :: keep(r)
    ensures Retain(rows, keep) == rows
  {
    if rows == [] {
    } else {
      RetainAll(rows[1..], keep);
    }
  }

  /** The filters applied in turn pick out exactly the matching entries. */
  lemma FiltersInTurn(rows: Rows, p: ListParams)
    ensures Retain(Retain(Retain(rows, OfKind(p)), OnNetwork(p)), UnderScheme(p)) == Matching(rows, p)
  {
    var kindAndNetwork := (r: DiscoveryResource) => OfKind(p)(r) && OnNetwork(p)(r);
    var all := (r: DiscoveryResource) => Meets(p, r);
    RetainTwice(rows, OfKind(p), OnNetwork(p), kindAndNetwork);
    RetainTwice(rows, kindAndNetwork, UnderScheme(p), all);
    RetainIsMatchingFor(rows, p, all);
  }

  /** What both stores do with the entries that passed the kind filter. */
  method Paginate(ghost rows: Rows, p: ListParams, byKind: Rows) returns (items: Rows, total: u32)
    requires byKind == Retain(rows, OfKind(p))
    ensures (items, total) == Listing(rows, p)
  {
    var filtered := byKind;
    if p.network.Some? {
      filtered := Retain(filtered, OnNetwork(p));
    } else {
      RetainAll(filtered, OnNetwork(p));
    }
    if p.scheme.Some? {
      filtered := Retain(filtered, UnderScheme(p));
    } else {
      RetainAll(filtered, UnderScheme(p));
    }
    FiltersInTurn(rows, p);
    total := |filtered| % (U32_MAX + 1);
    var limit := if p.limit.Some? then p.limit.value else DEFAULT_LIST_LIMIT;
    var offset := if p.offset.Some? then p.offset.value else 0;
    items := Window(filtered, offset, limit);
  }

  // ---------------------------------------------------------------------------
  // A vector of entries
  // ---------------------------------------------------------------------------

  class InMemoryCatalogStore {
    var rows: Rows

    constructor ()
      ensures rows == []
    {
      rows := [];
    }

    method Upsert(r: DiscoveryResource)
      modifies this
      ensures rows == Put(old(rows), r)
    {
      var idx := Position(rows, r);
      if idx < |rows| {
        PutReplaces(rows, r, idx);
        rows := rows[idx := r];
      } else {
        PutAppends(rows, r);
        rows := rows + [r];
      }
    }

    method List(p: ListParams) returns (items: Rows, total: u32)
      ensures (items, total) == Listing(rows, p)
    {
      var filtered := Retain(rows, OfKind(p));
      items, total := Paginate(rows, p, filtered);
    }
  }

  // ---------------------------------------------------------------------------
  // A table with a unique key and increasing ids
  // ---------------------------------------------------------------------------

  type Table = map<nat, DiscoveryResource>

  /** The rows with ids in [start, end), ordered by id. */
  function RowsById(table: Table, start: nat, end: nat): Rows
    requires start <= end
    decreases end - start
  {
    if start == end then []
    else (if start in table then [table[start]] else []) + RowsById(table, start + 1, end)
  }

  ghost predicate ValidTable(table: Table, next: nat) {
    && (forall id :: id in table ==> id < next)
    && (forall i, j :: i in table && j in table && i != j ==> Key(table[i]) != Key(table[j]))
  }

  lemma {:induction false} RowsAreTable(table: Table, start: nat, end: nat)
    requires start <= end
    ensures forall r :: r in RowsById(table, start, end) <==> (exists id :: start <= id < end && id in table && table[id] == r)
    decreases end - start
  {
    if start == end {
    } else {
      RowsAreTable(table, start + 1, end);
      forall r | exists id :: start <= id < end && id in table && table[id] == r
        ensures r in RowsById(table, start, end)
      {
        var id :| start <= id < end && id in table && table[id] == r;
        if id > start {
          assert r in RowsById(table, start + 1, end);
        }
      }
    }
  }

  /** Ids that the table does not use make no difference. */
  lemma {:induction false} RowsSkipUnused(table: Table, start: nat, mid: nat, end: nat)
    requires start <= mid <= end && forall id :: mid <= id < end ==> id !in table
    ensures RowsById(table, start, end) == RowsById(table, start, mid)
    decreases end - start
  {
    if start == end {
    } else {
      if start < mid {
        RowsSkipUnused(table, start + 1, mid, end);
      } else {
        RowsSkipUnused(table, start + 1, start + 1, end);
      }
    }
  }

  /** A row added with a fresh id at the end comes last. */
  lemma {:induction false} RowsAppend(table: Table, start: nat, id: nat, r: DiscoveryResource)
    requires start <= id && id !in table
    ensures RowsById(table[id := r], start, id + 1) == RowsById(table, start, id) + [r]
    decreases id - start
  {
    if start < id {
      RowsAppend(table, start + 1, id, r);
    } else {
      assert RowsById(table[id := r], id + 1, id + 1) == [];
    }
  }

  /** A row updated under its id stays where it is: the table's order is the vector's order. */
  lemma {:induction false} RowsReplace(table: Table, start: nat, end: nat, id: nat, r: DiscoveryResource)
    requires start <= id < end && id in table && Key(table[id]) == Key(r)
    requires forall j :: j in table && j != id ==> Key(table[j]) != Key(r)
    ensures RowsById(table[id := r], start, end) == Put(RowsById(table, start, end), r)
    decreases end - start
  {
    hide RowsById, Put, Key;
    RowsFirst(table, start, end);
    RowsFirst(table[id := r], start, end);
    if start == id {
      RowsElsewhere(table, id, r, id + 1, end);
      PutFirst(RowsById(table, start + 1, end), table[id], r);
    } else {
      RowsReplace(table, start + 1, end, id, r);
      if start in table {
        PutFirst(RowsById(table, start + 1, end), table[start], r);
      }
    }
  }

  lemma RowsFirst(table: Table, start: nat, end: nat)
    requires start < end
    ensures start in table ==> RowsById(table, start, end) == [table[start]] + RowsById(table, start + 1, end)
    ensures start !in table ==> RowsById(table, start, end) == RowsById(table, start + 1, end)
  {
    if start !in table {
      assert [] + RowsById(table, start + 1, end) == RowsById(table, start + 1, end);
    }
  }

  lemma PutFirst(rest: Rows, first: DiscoveryResource, r: DiscoveryResource)
    ensures Put([first] + rest, r) == if Key(first) == Key(r) then [r] + rest else [first] + Put(rest, r)
  {
    assert ([first] + rest)[1..] == rest;
  }

  lemma {:induction false} RowsElsewhere(table: Table, id: nat, r: DiscoveryResource, start: nat, end: nat)
    requires id < start <= end
    ensures RowsById(table[id := r], start, end) == RowsById(table, start, end)
    decreases end - start
  {
    if start == end {
    } else {
      RowsElsewhere(table, id, r, start + 1, end);
    }
  }

  class SqliteCatalogStore {
    var table: Table
    var nextId: nat

    ghost predicate Valid()
      reads this
    {
      ValidTable(table, nextId)
    }

    function Contents(): Rows
      reads this
    {
      RowsById(table, 0, nextId)
    }

    constructor ()
      ensures Valid() && Contents() == []
    {
      table := map[];
      nextId := 0;
    }

    /** INSERT ... ON CONFLICT DO UPDATE. The id sequence may skip ahead in either case. */
    method Upsert(r: DiscoveryResource, skip: nat)
      requires Valid()
      modifies this
      ensures Valid()
      ensures Contents() == Put(old(Contents()), r)
      ensures old(nextId) <= nextId
      ensures forall id :: id in old(table) ==> id in table && Key(table[id]) == Key(old(table)[id])
      ensures forall id :: id in table && id !in old(table) ==> old(nextId) <= id
    {
      ghost var before := Contents();
      if exists id :: id in table && Key(table[id]) == Key(r) {
        var id :| id in table && Key(table[id]) == Key(r);
        RowsReplace(table, 0, nextId, id, r);
        RowsSkipUnused(table[id := r], 0, nextId, nextId + skip);
        table := table[id := r];
        nextId := nextId + skip;
      } else {
        var id := nextId + skip;
        RowsSkipUnused(table, 0, nextId, id);
        RowsAppend(table, 0, id, r);
        RowsAreTable(table, 0, nextId);
        forall j | 0 <= j < |before|
          ensures Key(before[j]) != Key(r)
        {
          assert before[j] in before;
        }
        PutAppends(before, r);
        table := table[id := r];
        nextId := id + 1;
      }
    }

    method List(p: ListParams) returns (items: Rows, total: u32)
      ensures (items, total) == Listing(Contents(), p)
    {
      var selected := Retain(Contents(), OfKind(p));
      items, total := Paginate(Contents(), p, selected);
    }
  }

  // ---------------------------------------------------------------------------
  // The two stores side by side
  // ---------------------------------------------------------------------------

  datatype Op = UpsertOp(r: DiscoveryResource, skip: nat) | ListOp(p: ListParams)

  /** What the contract says a run of operations answers. */
  function Answers(rows: Rows, ops: seq<Op>): seq<(Rows, u32)>
    decreases ops
  {
    if ops == [] then []
    else
      match ops[0]
      case UpsertOp(r, _) => Answers(Put(rows, r), ops[1..])
      case ListOp(p) => [Listing(rows, p)] + Answers(rows, ops[1..])
  }

  lemma AnswersStep(rows: Rows, ops: seq<Op>, i: nat, given: seq<(Rows, u32)>)
    requires i < |ops|
    ensures ops[i].UpsertOp? ==> given + Answers(rows, ops[i..]) == given + Answers(Put(rows, ops[i].r), ops[i + 1..])
    ensures ops[i].ListOp? ==>
              given + Answers(rows, ops[i..]) == (given + [Listing(rows, ops[i].p)]) + Answers(rows, ops[i + 1..])
  {
    assert ops[i..][0] == ops[i] && ops[i..][1..] == ops[i + 1..];
    hide Listing, Put;
  }

  /** The entries upserted by a run of operations, in order, and the number of its listings. */
  function Upserted(ops: seq<Op>): Rows {
    if ops == [] then []
    else
      match ops[|ops| - 1]
      case UpsertOp(r, _) => Upserted(ops[..|ops| - 1]) + [r]
      case ListOp(_) => Upserted(ops[..|ops| - 1])
  }

  function Listings(ops: seq<Op>): nat {
    if ops == [] then 0 else Listings(ops[..|ops| - 1]) + if ops[|ops| - 1].ListOp? then 1 else 0
  }

  /** What a store holds after a run of operations, first operation first. */
  function Held(rows: Rows, ops: seq<Op>): Rows
    decreases ops
  {
    if ops == [] then rows
    else Held(if ops[0].UpsertOp? then Put(rows, ops[0].r) else rows, ops[1..])
  }

  lemma {:induction false} OneMore(rows: Rows, ops: seq<Op>, op: Op)
    ensures Held(rows, ops + [op]) == if op.UpsertOp? then Put(Held(rows, ops), op.r) else Held(rows, ops)
    ensures Answers(rows, ops + [op]) == Answers(rows, ops) + if op.ListOp? then [Listing(Held(rows, ops), op.p)] else []
    decreases ops
  {
    hide Put, Listing;
    if ops == [] {
      assert ops + [op] == [op] && [op][1..] == [];
      assert Answers(if op.UpsertOp? then Put(rows, op.r) else rows, [op][1..]) == [];
    } else {
      assert (ops + [op])[0] == ops[0] && (ops + [op])[1..] == ops[1..] + [op];
      OneMore(if ops[0].UpsertOp? then Put(rows, ops[0].r) else rows, ops[1..], op);
    }
  }

  lemma {:induction false} HeldIsPutAll(ops: seq<Op>)
    ensures Held([], ops) == PutAll(Upserted(ops))
  {
    if ops == [] {
    } else {
      var before, op := ops[..|ops| - 1], ops[|ops| - 1];
      HeldIsPutAll(before);
      assert ops == before + [op];
      OneMore([], before, op);
      hide Put, Held;
      if op.UpsertOp? {
        assert (Upserted(before) + [op.r])[..|Upserted(before)|] == Upserted(before);
      }
    }
  }

  /** The listing at this position, answered from the upserts before it. */
  predicate AnsweredFromHistory(ops: seq<Op>, i: nat, answers: seq<(Rows, u32)>)
    requires i < |ops|
  {
    ops[i].ListOp? ==>
      && Listings(ops[..i]) < |answers|
      && answers[Listings(ops[..i])] == Listing(PutAll(Upserted(ops[..i])), ops[i].p)
  }

  /** Every listing is: it shows the keys in the order of their first upsert, each with its last value. */
  ghost predicate AnswersFromHistory(ops: seq<Op>, answers: seq<(Rows, u32)>) {
    && |answers| == Listings(ops)
    && forall i :: 0 <= i < |ops| ==> AnsweredFromHistory(ops, i, answers)
  }

  lemma StillAnswered(before: seq<Op>, op: Op, i: nat, answers: seq<(Rows, u32)>, more: seq<(Rows, u32)>)
    requires i < |before| && AnsweredFromHistory(before, i, answers)
    ensures AnsweredFromHistory(before + [op], i, answers + more)
  {
    assert (before + [op])[..i] == before[..i];
    hide Listings, Listing, PutAll, Upserted;
  }

  lemma {:induction false} AnswersAre(ops: seq<Op>)
    ensures AnswersFromHistory(ops, Answers([], ops))
  {
    if ops == [] {
    } else {
      var n := |ops| - 1;
      var before, op := ops[..n], ops[n];
      var more := if op.ListOp? then [Listing(Held([], before), op.p)] else [];
      AnswersAre(before);
      assert ops == before + [op] && ops[..n] == before;
      OneMore([], before, op);
      HeldIsPutAll(before);
      assert Listings(ops) == Listings(before) + |more|;
      hide Put, Listing, PutAll, Upserted, Answers, Held, Listings;
      forall i | 0 <= i < |ops|
        ensures AnsweredFromHistory(ops, i, Answers([], ops))
      {
        if i < n {
          StillAnswered(before, op, i, Answers([], before), more);
        }
      }
    }
  }

  /** Both stores, given the same operations, give the same answers: those of the contract. */
  method RunBoth(ops: seq<Op>) returns (fromMemory: seq<(Rows, u32)>, fromSqlite: seq<(Rows, u32)>)
    ensures fromMemory == fromSqlite == Answers([], ops)
    ensures AnswersFromHistory(ops, fromMemory)
  {
    AnswersAre(ops);
    var memory := new InMemoryCatalogStore();
    var sqlite := new SqliteCatalogStore();
    fromMemory, fromSqlite := [], [];
    assert ops[0..] == ops && [] + Answers([], ops) == Answers([], ops);
    assert ops[|ops|..] == [] && forall rows :: Answers(rows, []) == [];
    hide Answers, Listing, Put, RowsById, ValidTable, AnswersFromHistory;
    for i := 0 to |ops|
      invariant fresh(memory) && fresh(sqlite) && sqlite.Valid() && sqlite.Contents() == memory.rows
      invariant fromMemory == fromSqlite && Answers([], ops) == fromMemory + Answers(memory.rows, ops[i..])
    {
      AnswersStep(memory.rows, ops, i, fromMemory);
      match ops[i]
      case UpsertOp(r, skip) =>
        memory.Upsert(r);
        sqlite.Upsert(r, skip);
      case ListOp(p) =>
        var items, total := memory.List(p);
        fromMemory := fromMemory + [(items, total)];
        items, total := sqlite.List(p);
        fromSqlite := fromSqlite + [(items, total)];
    }
  }
}
