/**
 * In-memory stand-ins for the two JPA repositories the core uses:
 * `BatchExecutionRepository` (save / findById, with the unique `batch_id` column
 * and identity-generated ids) and `TaskRepository` (findByProcessedFalse / saveAll).
 */
module Stores {
  import opened Common
  import opened Model

  /** Why a save is refused: the unique `batch_id` constraint, or an id that has no row. */
  datatype StoreError = DuplicateBatchId(batchId: string) | UnknownId(id: int)

  /** The unique constraint on `batch_id`: no two rows share a non-null batch id. */
  ghost predicate UniqueBatchIds(rows: map<int, BatchExecution>) {
    forall j, k :: j in rows && k in rows && j != k && rows[j].batchId.Some? ==> rows[j].batchId != rows[k].batchId
  }

  /** Some row other than the one keyed `except` already holds the non-null `batchId`. */
  predicate BatchIdTaken(rows: map<int, BatchExecution>, batchId: Option<string>, except: Option<int>) {
    batchId.Some? && exists k :: k in rows && Some(k) != except && rows[k].batchId == batchId
  }

  /** Writing a stored record back under its own id with its own batch id never breaks uniqueness. */
  lemma RewriteKeepsBatchIdFree(rows: map<int, BatchExecution>, r: BatchExecution)
    requires UniqueBatchIds(rows)
    requires r.id.Some? && r.id.value in rows && r.batchId == rows[r.id.value].batchId
    ensures !BatchIdTaken(rows, r.batchId, r.id)
  {
    if r.batchId.Some? {
      forall k | k in rows && Some(k) != r.id
        ensures rows[k].batchId != r.batchId
      {
        assert r.id.value != k;
      }
    }
  }

  class BatchExecutionRepository {
    var rows: map<int, BatchExecution>
    var nextId: int

    /** Every row carries its own key as id, keys are below the next identity value, batch ids are unique. */
    ghost predicate Valid()
      reads this
    {
      && (forall k :: k in rows ==> rows[k].id == Some(k) && k < nextId)
      && UniqueBatchIds(rows)
    }

    constructor ()
      ensures Valid() && rows == map[]
    {
      rows := map[];
      nextId := 1;
    }

    /** `findById`: the row with that id, or empty. */
    function FindById(id: int): (r: Option<BatchExecution>)
      reads this
      requires Valid()
      ensures r.Some? <==> id in rows
      ensures r.Some? ==> r.value == rows[id] && r.value.id == Some(id)
    {
      if id in rows then Some(rows[id]) else None
    }

    /**
     * `save`: a record without id is inserted under the next identity value;
     * a record with id replaces that row. A duplicate batch id is refused.
     */
    method Save(r: BatchExecution) returns (res: Result<BatchExecution, StoreError>)
      requires Valid()
      modifies this
      ensures Valid()
      ensures res.Err? <==> (r.id.Some? && r.id.value !in old(rows)) || BatchIdTaken(old(rows), r.batchId, r.id)
      ensures res.Err? ==> rows == old(rows) && nextId == old(nextId)
      ensures res.Ok? && r.id.None? ==> res.value == r.(id := Some(old(nextId))) && nextId == old(nextId) + 1
      ensures res.Ok? && r.id.Some? ==> res.value == r && nextId == old(nextId)
      ensures res.Ok? ==> res.value.id.Some? && rows == old(rows)[res.value.id.value := res.value]
    {
      if r.id.Some? && r.id.value !in rows {
        return Err(UnknownId(r.id.value));
      }
      if BatchIdTaken(rows, r.batchId, r.id) {
        return Err(DuplicateBatchId(r.batchId.value));
      }
      var saved := r;
      if r.id.None? {
        saved := r.(id := Some(nextId));
        nextId := nextId + 1;
      }
      rows := rows[saved.id.value := saved];
      res := Ok(saved);
    }

    /**
     * The transaction manager's rollback: the uncommitted writes are discarded and the
     * table is again what it was when the transaction began. Identity values handed out
     * meanwhile stay consumed.
     */
    method Rollback(snapshot: map<int, BatchExecution>)
      requires forall k :: k in snapshot ==> snapshot[k].id == Some(k) && k < nextId
      requires UniqueBatchIds(snapshot)
      modifies this
      ensures Valid()
      ensures rows == snapshot && nextId == old(nextId)
    {
      rows := snapshot;
    }
  }

  /** The ids carried by a list of tasks. */
  function IdsOf(ts: seq<Task>): set<int> {
    set i | 0 <= i < |ts| && ts[i].id.Some? :: ts[i].id.value
  }

  lemma IdsOfAppend(ts: seq<Task>, t: Task)
    requires t.id.Some?
    ensures IdsOf(ts + [t]) == IdsOf(ts) + {t.id.value}
  {
    var u := ts + [t];
    forall x | x in IdsOf(u) ensures x in IdsOf(ts) + {t.id.value} {
      var i :| 0 <= i < |u| && u[i].id.Some? && u[i].id.value == x;
      if i < |ts| { assert ts[i] == u[i]; }
    }
    forall x | x in IdsOf(ts) ensures x in IdsOf(u) {
      var i :| 0 <= i < |ts| && ts[i].id.Some? && ts[i].id.value == x;
      assert u[i] == ts[i];
    }
    assert u[|ts|] == t;
  }

  lemma ElementOf(s: set<int>)
    requires s != {}
    ensures exists x :: x in s
  {
    if forall x :: x !in s {
      assert false;
    }
  }

  /** No two tasks of the list carry the same id. */
  predicate DistinctIds(ts: seq<Task>) {
    forall i, j :: 0 <= i < j < |ts| ==> ts[i].id != ts[j].id
  }

  /** `found` lists, each once and as stored, exactly the unprocessed rows of `rows`. */
  ghost predicate ListsUnprocessed(found: seq<Task>, rows: map<int, Task>) {
    && DistinctIds(found)
    && (forall i :: 0 <= i < |found| ==>
          found[i].id.Some? && found[i].id.value in rows && rows[found[i].id.value] == found[i] && !found[i].processed)
    && (forall k :: k in rows && !rows[k].processed ==> k in IdsOf(found))
  }

  class TaskRepository {
    var rows: map<int, Task>

    ghost predicate Valid()
      reads this
    {
      forall k :: k in rows ==> rows[k].id == Some(k)
    }

    constructor (initial: map<int, Task>)
      requires forall k :: k in initial ==> initial[k].id == Some(k)
      ensures Valid() && rows == initial
    {
      rows := initial;
    }

    /** `findByProcessedFalse`: every stored task whose processed flag is false, each once, in no set order. */
    method FindByProcessedFalse() returns (found: seq<Task>)
      requires Valid()
      ensures ListsUnprocessed(found, rows)
    {
      found := [];
      var rest := rows.Keys;
      while rest != {}
        invariant rest <= rows.Keys
        invariant DistinctIds(found)
        invariant forall i :: 0 <= i < |found| ==>
          found[i].id.Some? && found[i].id.value in rows.Keys - rest && rows[found[i].id.value] == found[i] && !found[i].processed
        invariant forall k :: k in rows.Keys - rest && !rows[k].processed ==> k in IdsOf(found)
        decreases rest
      {
        ElementOf(rest);
        var k :| k in rest;
        if !rows[k].processed {
          IdsOfAppend(found, rows[k]);
          found := found + [rows[k]];
        }
        rest := rest - {k};
      }
    }

    /** `saveAll` of tasks that already have ids: each one replaces the row with its id. */
    method SaveAll(ts: seq<Task>)
      requires Valid()
      requires forall i :: 0 <= i < |ts| ==> ts[i].id.Some?
      requires DistinctIds(ts)
      modifies this
      ensures Valid()
      ensures rows.Keys == old(rows).Keys + IdsOf(ts)
      ensures forall i :: 0 <= i < |ts| ==> rows[ts[i].id.value] == ts[i]
      ensures forall k :: k in old(rows) && k !in IdsOf(ts) ==> rows[k] == old(rows)[k]
    {
      var i := 0;
      while i < |ts|
        invariant 0 <= i <= |ts|
        invariant Valid()
        invariant rows.Keys == old(rows).Keys + IdsOf(ts[..i])
        invariant forall j :: 0 <= j < i ==> rows[ts[j].id.value] == ts[j]
        invariant forall k :: k in old(rows) && k !in IdsOf(ts[..i]) ==> rows[k] == old(rows)[k]
      {
        assert ts[..i + 1] == ts[..i] + [ts[i]];
        IdsOfAppend(ts[..i], ts[i]);
        rows := rows[ts[i].id.value := ts[i]];
        i := i + 1;
      }
      assert ts[..i] == ts;
    }
  }
}
