/**
 * The `inspection_results` table of backend/src/models.py and the SQLAlchemy
 * session the worker writes it through. `task_id` is indexed, not unique: the
 * table may hold several rows for one task.
 */
module Models {
  import opened Wrappers
  import Storage

  /** One detected object: `{"label", "confidence", "bbox"}`. */
  datatype Detection = Detection(classLabel: string, confidence: real, bbox: seq<real>)

  /** An `InspectionResult` as built by the worker, before the database assigns `id` and `created_at`. */
  datatype Draft = Draft(taskId: string, filename: string, storagePath: string, inferenceResult: seq<Detection>)

  /** A stored row: auto-increment `id`, the draft's columns, and `created_at`. */
  datatype Row = Row(id: nat, taskId: string, filename: string, storagePath: string,
                     inferenceResult: seq<Detection>, createdAt: int)

  /** The rows a commit of `drafts` adds, numbered from `firstId`, all stamped `at`. */
  function Materialize(drafts: seq<Draft>, firstId: nat, at: int): (rows: seq<Row>)
    ensures |rows| == |drafts|
    ensures forall k :: 0 <= k < |rows| ==>
      rows[k] == Row(firstId + k, drafts[k].taskId, drafts[k].filename, drafts[k].storagePath,
                     drafts[k].inferenceResult, at)
  {
    if drafts == [] then []
    else
      var d := drafts[0];
      [Row(firstId, d.taskId, d.filename, d.storagePath, d.inferenceResult, at)]
        + Materialize(drafts[1..], firstId + 1, at)
  }

  /** Primary keys strictly increase along the table and stay below `nextId`. */
  ghost predicate KeysBelow(rows: seq<Row>, nextId: nat)
  {
    && (forall i, j :: 0 <= i < j < |rows| ==> rows[i].id < rows[j].id)
    && (forall k :: 0 <= k < |rows| ==> rows[k].id < nextId)
  }

  /**
   * Index of the row `query(...).filter(task_id == t).first()` yields, taking
   * rows in insertion order.
   */
  function FirstIndex(rows: seq<Row>, taskId: string): (r: Option<nat>)
    ensures r.Some? ==> r.value < |rows| && rows[r.value].taskId == taskId
    ensures r.Some? ==> forall j :: 0 <= j < r.value ==> rows[j].taskId != taskId
    ensures r.None? <==> forall k :: 0 <= k < |rows| ==> rows[k].taskId != taskId
  {
    if rows == [] then None
    else if rows[0].taskId == taskId then Some(0)
    else
      match FirstIndex(rows[1..], taskId)
      case None => None
      case Some(i) => Some(i + 1)
  }

  /** The row `get_result` reads for a task, if any. */
  function FirstRow(rows: seq<Row>, taskId: string): (r: Option<Row>)
    ensures r.None? <==> forall k :: 0 <= k < |rows| ==> rows[k].taskId != taskId
    ensures r.Some? ==> r.value.taskId == taskId && r.value in rows
    ensures r.Some? ==>
      exists i :: 0 <= i < |rows| && rows[i] == r.value && forall j :: 0 <= j < i ==> rows[j].taskId != taskId
  {
    match FirstIndex(rows, taskId)
    case None => None
    case Some(i) => Some(rows[i])
  }

  /** Appending rows never changes which row comes first for a task that already has one. */
  lemma {:induction false} FirstRowStable(rows: seq<Row>, more: seq<Row>, taskId: string)
    requires FirstRow(rows, taskId).Some?
    ensures FirstRow(rows + more, taskId) == FirstRow(rows, taskId)
  {
    var i := FirstIndex(rows, taskId).value;
    var s := rows + more;
    assert s[i].taskId == taskId;
    assert forall j :: 0 <= j < i ==> s[j] == rows[j];
    var k := FirstIndex(s, taskId);
    assert k.Some? && k.value <= i;
    assert k.value >= i;
  }

  /** Rows that do not match followed by rows that do not match: still no match. */
  lemma {:induction false} NoMatchOfAppend(rows: seq<Row>, more: seq<Row>, taskId: string)
    requires FirstIndex(rows, taskId).None? && FirstIndex(more, taskId).None?
    ensures FirstIndex(rows + more, taskId).None?
    decreases |rows|
  {
    if rows != [] {
      assert (rows + more)[1..] == rows[1..] + more;
      NoMatchOfAppend(rows[1..], more, taskId);
    } else {
      assert rows + more == more;
    }
  }

  /** Rows that do not match followed by rows that do: the first match is the later one, shifted. */
  lemma {:induction false} MatchOfAppend(rows: seq<Row>, more: seq<Row>, taskId: string)
    requires FirstIndex(rows, taskId).None? && FirstIndex(more, taskId).Some?
    ensures FirstIndex(rows + more, taskId) == Some(|rows| + FirstIndex(more, taskId).value)
    decreases |rows|
  {
    if rows != [] {
      assert (rows + more)[0] == rows[0];
      assert (rows + more)[1..] == rows[1..] + more;
      MatchOfAppend(rows[1..], more, taskId);
    } else {
      assert rows + more == more;
    }
  }

  /** Appending rows to a table with no row for a task: its first row is the first among the new rows. */
  lemma FirstRowOfAppend(rows: seq<Row>, more: seq<Row>, taskId: string)
    requires FirstRow(rows, taskId).None?
    ensures FirstRow(rows + more, taskId) == FirstRow(more, taskId)
  {
    if FirstIndex(more, taskId).Some? {
      MatchOfAppend(rows, more, taskId);
    } else {
      NoMatchOfAppend(rows, more, taskId);
    }
  }

  /** The database server's state: the table and the sessions checked out of it. */
  class Database {
    var rows: seq<Row>
    var nextId: nat
    var sessions: set<Session>

    ghost predicate Valid()
      reads this
    {
      KeysBelow(rows, nextId)
    }

    constructor ()
      ensures Valid() && rows == [] && sessions == {}
    {
      rows, nextId, sessions := [], 1, {};
    }

    /** `SessionLocal()`. */
    method OpenSession() returns (s: Session)
      modifies this
      ensures fresh(s) && s.db == this && s.open && s.staged == []
      ensures sessions == old(sessions) + {s}
      ensures rows == old(rows) && nextId == old(nextId)
    {
      s := new Session(this);
      sessions := sessions + {s};
    }
  }

  /** An SQLAlchemy session: objects added but not yet committed, and whether it is open. */
  class Session {
    const db: Database
    var staged: seq<Draft>
    var open: bool

    constructor (db: Database)
      ensures this.db == db && staged == [] && open
    {
      this.db := db;
      staged, open := [], true;
    }

    /** `db.add(record)`. */
    method Add(d: Draft)
      modifies this
      ensures staged == old(staged) + [d] && open == old(open)
    {
      staged := staged + [d];
    }

    /**
     * `db.commit()` at database time `at`: the staged rows are appended with
     * fresh keys, or, when the database refuses, nothing changes and the
     * failure is raised.
     */
    method Commit(fault: Option<Storage.Exc>, at: int) returns (raised: Option<Storage.Exc>)
      requires db.Valid()
      modifies this, db
      ensures db.Valid() && raised == fault && db.sessions == old(db.sessions) && open == old(open)
      ensures fault.Some? ==> db.rows == old(db.rows) && db.nextId == old(db.nextId) && staged == old(staged)
      ensures fault.None? ==>
        && db.rows == old(db.rows) + Materialize(old(staged), old(db.nextId), at)
        && db.nextId == old(db.nextId) + |old(staged)|
        && staged == []
    {
      raised := fault;
      if fault.None? {
        var added := Materialize(staged, db.nextId, at);
        MaterializeKeys(db.rows, db.nextId, staged, at);
        db.rows, db.nextId := db.rows + added, db.nextId + |staged|;
        staged := [];
      }
    }

    /** `db.rollback()`. */
    method Rollback()
      modifies this
      ensures staged == [] && open == old(open)
    {
      staged := [];
    }

    /** `db.close()`: the session goes back to the pool. */
    method Close()
      modifies this, db
      ensures !open && staged == []
      ensures db.sessions == old(db.sessions) - {this}
      ensures db.rows == old(db.rows) && db.nextId == old(db.nextId)
    {
      staged, open := [], false;
      db.sessions := db.sessions - {this};
    }
  }

  /** Committing keeps the primary keys increasing. */
  lemma MaterializeKeys(rows: seq<Row>, nextId: nat, drafts: seq<Draft>, at: int)
    requires KeysBelow(rows, nextId)
    ensures KeysBelow(rows + Materialize(drafts, nextId, at), nextId + |drafts|)
  {
    var added := Materialize(drafts, nextId, at);
    var s := rows + added;
    forall i, j | 0 <= i < j < |s| ensures s[i].id < s[j].id {
      if j >= |rows| {
        assert s[j] == added[j - |rows|];
        if i >= |rows| { assert s[i] == added[i - |rows|]; }
      }
    }
    forall k | 0 <= k < |s| ensures s[k].id < nextId + |drafts| {
      if k >= |rows| { assert s[k] == added[k - |rows|]; }
    }
  }

  /**
   * While the keys increase, the earliest matching row is also the one with the
   * smallest key, so `.first()` agrees with an `ORDER BY id` over the task's rows.
   */
  lemma FirstRowHasSmallestId(rows: seq<Row>, nextId: nat, taskId: string)
    requires KeysBelow(rows, nextId) && FirstRow(rows, taskId).Some?
    ensures forall k :: 0 <= k < |rows| && rows[k].taskId == taskId ==> FirstRow(rows, taskId).value.id <= rows[k].id
  {
    var i := FirstIndex(rows, taskId).value;
    assert FirstRow(rows, taskId).value == rows[i];
  }
}
