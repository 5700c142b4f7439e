/** The `tasks` table as the DAO's SQL declares it.

    The table is kept as SQLite keeps it: rows in ascending primary-key order,
    plus the AUTOINCREMENT counter (the table's `sqlite_sequence` entry), the
    largest id the table has ever held. Queries are functions of the current
    rows; a live query re-emits the function's value after each mutation. */
module TaskStore {
  import opened Types
  import opened TaskModel

  /** The fault SQLite raises when AUTOINCREMENT has no id left to hand out. */
  const SQLITE_FULL: Fault := Fault(Some("database or disk is full (code 13 SQLITE_FULL)"))

  /** Primary keys strictly ascending, hence unique. */
  predicate IdsAscending(rows: seq<TaskEntity>)
  {
    forall i, j :: 0 <= i < j < |rows| ==> rows[i].id < rows[j].id
  }

  /** In key order, every row after the first has a larger key. */
  lemma TailAbove(rows: seq<TaskEntity>)
    requires IdsAscending(rows) && rows != []
    ensures IdsAscending(rows[1..])
    ensures forall x :: x in rows[1..] ==> rows[0].id < x.id
  {
    forall x | x in rows[1..] ensures rows[0].id < x.id {
      var k :| 0 <= k < |rows[1..]| && rows[1..][k] == x;
      assert rows[0].id < rows[k + 1].id;
    }
  }

  /** A key below the first key is below every key. */
  lemma BelowAll(rows: seq<TaskEntity>, id: Long)
    requires IdsAscending(rows) && rows != [] && id < rows[0].id
    ensures forall x :: x in rows ==> id < x.id
  {
    TailAbove(rows);
  }

  /** What every state of the table satisfies: unique keys in key order, no
      row under the "generate an id" value 0, and no key above the counter. */
  predicate TableInvariant(rows: seq<TaskEntity>, sequence: Long)
  {
    && IdsAscending(rows)
    && 0 <= sequence
    && forall e :: e in rows ==> e.id != 0 && e.id <= sequence
  }

  /** `WHERE id = :id` on a table with unique keys. */
  function Find(rows: seq<TaskEntity>, id: Long): (r: Option<TaskEntity>)
    ensures r.Some? ==> r.value in rows && r.value.id == id
    ensures r.None? ==> forall e :: e in rows ==> e.id != id
  {
    if rows == [] then None
    else if rows[0].id == id then Some(rows[0])
    else Find(rows[1..], id)
  }

  /** With unique keys, the row found is the only one with that key. */
  lemma {:induction false} FindUnique(rows: seq<TaskEntity>, e: TaskEntity)
    requires IdsAscending(rows) && e in rows
    ensures Find(rows, e.id) == Some(e)
  {
    if rows[0] != e {
      TailAbove(rows);
      FindUnique(rows[1..], e);
    }
  }

  /** `INSERT OR REPLACE` of a row whose key is already fixed: any row with
      that key is replaced wholesale, every other row is kept. */
  function Upsert(rows: seq<TaskEntity>, e: TaskEntity): (r: seq<TaskEntity>)
    requires IdsAscending(rows)
    ensures IdsAscending(r)
    ensures e in r
    ensures forall x :: x in r ==> x == e || (x in rows && x.id != e.id)
    ensures forall x :: x in rows && x.id != e.id ==> x in r
  {
    if rows == [] then [e]
    else if e.id < rows[0].id then
      BelowAll(rows, e.id);
      [e] + rows
    else if e.id == rows[0].id then
      TailAbove(rows);
      [e] + rows[1..]
    else
      TailAbove(rows);
      var tail := Upsert(rows[1..], e);
      assert forall x :: x in tail ==> rows[0].id < x.id;
      [rows[0]] + tail
  }

  /** `DELETE FROM tasks WHERE id = :id`. */
  function Remove(rows: seq<TaskEntity>, id: Long): (r: seq<TaskEntity>)
    requires IdsAscending(rows)
    ensures IdsAscending(r)
    ensures forall x :: x in r <==> x in rows && x.id != id
  {
    if rows == [] then []
    else
      TailAbove(rows);
      var tail := Remove(rows[1..], id);
      if rows[0].id == id then tail else [rows[0]] + tail
  }

  /** `UPDATE tasks SET .. WHERE id = :id`: the row with the same key is
      replaced, and with no such row the table is unchanged. */
  function Replace(rows: seq<TaskEntity>, e: TaskEntity): (r: seq<TaskEntity>)
    requires IdsAscending(rows)
    ensures Find(rows, e.id).Some? ==> r == Upsert(rows, e)
    ensures Find(rows, e.id).None? ==> r == rows
  {
    if rows == [] then []
    else if rows[0].id == e.id then [e] + rows[1..]
    else
      TailAbove(rows);
      if e.id < rows[0].id then BelowAll(rows, e.id); rows
      else [rows[0]] + Replace(rows[1..], e)
  }

  /** Rows ordered by `createdDate`, latest first. */
  predicate CreatedDescending(s: seq<TaskEntity>)
  {
    forall i, j :: 0 <= i < j < |s| ==> s[i].createdDate.time >= s[j].createdDate.time
  }

  /** A sorted list stays sorted with a row in front created no earlier. */
  lemma ConsDescending(x: TaskEntity, s: seq<TaskEntity>)
    requires CreatedDescending(s)
    requires forall y :: y in s ==> x.createdDate.time >= y.createdDate.time
    ensures CreatedDescending([x] + s)
  {
    forall i, j | 0 <= i < j < |[x] + s|
      ensures ([x] + s)[i].createdDate.time >= ([x] + s)[j].createdDate.time
    {
      assert ([x] + s)[j] == s[j - 1];
      if i > 0 { assert ([x] + s)[i] == s[i - 1]; }
    }
  }

  /** The head of a sorted list was created no earlier than any other row. */
  lemma HeadLatest(s: seq<TaskEntity>)
    requires CreatedDescending(s) && s != []
    ensures CreatedDescending(s[1..])
    ensures forall y :: y in s ==> s[0].createdDate.time >= y.createdDate.time
  {
    forall y | y in s ensures s[0].createdDate.time >= y.createdDate.time {
      var k :| 0 <= k < |s| && s[k] == y;
    }
  }

  /** One step of the sort: `e` goes before the first row created no later. */
  function InsertByCreated(e: TaskEntity, s: seq<TaskEntity>): (r: seq<TaskEntity>)
    requires CreatedDescending(s)
    ensures CreatedDescending(r)
    ensures forall x :: x in r ==> x == e || x in s
    ensures multiset(r) == multiset(s) + multiset{e}
  {
    if s == [] then [e]
    else if e.createdDate.time >= s[0].createdDate.time then
      HeadLatest(s);
      ConsDescending(e, s);
      [e] + s
    else
      HeadLatest(s);
      var tail := InsertByCreated(e, s[1..]);
      assert s == [s[0]] + s[1..];
      ConsDescending(s[0], tail);
      [s[0]] + tail
  }

  /** `ORDER BY createdDate DESC`: a stable sort, so rows created at the same
      instant stay in key order. */
  function OrderByCreatedDesc(rows: seq<TaskEntity>): (r: seq<TaskEntity>)
    ensures CreatedDescending(r)
    ensures multiset(r) == multiset(rows)
  {
    if rows == [] then []
    else
      assert rows == [rows[0]] + rows[1..];
      InsertByCreated(rows[0], OrderByCreatedDesc(rows[1..]))
  }

  /** `WHERE isCompleted = 1` (completed) or `WHERE isCompleted = 0`. */
  function WhereCompleted(rows: seq<TaskEntity>, completed: bool): (r: seq<TaskEntity>)
    ensures forall x :: x in r ==> x.isCompleted == completed
    ensures forall x :: x in r ==> x in rows
    ensures forall x :: x in rows && x.isCompleted == completed ==> x in r
  {
    if rows == [] then []
    else
      var tail := WhereCompleted(rows[1..], completed);
      assert rows == [rows[0]] + rows[1..];
      if rows[0].isCompleted == completed then [rows[0]] + tail else tail
  }

  /** Filtering a sorted list commutes with inserting one more row into it. */
  lemma {:induction false} WhereInsert(e: TaskEntity, s: seq<TaskEntity>, completed: bool)
    requires CreatedDescending(s)
    ensures CreatedDescending(WhereCompleted(s, completed))
    ensures WhereCompleted(InsertByCreated(e, s), completed)
         == if e.isCompleted == completed
            then InsertByCreated(e, WhereCompleted(s, completed))
            else WhereCompleted(s, completed)
  {
    WhereSorted(s, completed);
    if s == [] {
      WhereCons(e, [], completed);
    } else if e.createdDate.time >= s[0].createdDate.time {
      WhereInsertFront(e, s, completed);
    } else {
      HeadLatest(s);
      WhereInsert(e, s[1..], completed);
      WhereInsertBehind(e, s, completed);
    }
  }

  /** `WhereInsert` when the row goes in front. */
  lemma WhereInsertFront(e: TaskEntity, s: seq<TaskEntity>, completed: bool)
    requires CreatedDescending(s) && s != [] && e.createdDate.time >= s[0].createdDate.time
    requires CreatedDescending(WhereCompleted(s, completed))
    ensures WhereCompleted(InsertByCreated(e, s), completed)
         == if e.isCompleted == completed
            then InsertByCreated(e, WhereCompleted(s, completed))
            else WhereCompleted(s, completed)
  {
    var w := WhereCompleted(s, completed);
    InsertFront(e, s);
    WhereCons(e, s, completed);
    if e.isCompleted == completed && w != [] {
      HeadLatest(s);
      assert w[0] in s;
      InsertFront(e, w);
    }
  }

  /** `WhereInsert` when the row goes behind the head, given it for the tail. */
  lemma WhereInsertBehind(e: TaskEntity, s: seq<TaskEntity>, completed: bool)
    requires CreatedDescending(s) && s != [] && e.createdDate.time < s[0].createdDate.time
    requires CreatedDescending(s[1..])
    requires CreatedDescending(WhereCompleted(s, completed))
    requires CreatedDescending(WhereCompleted(s[1..], completed))
    requires WhereCompleted(InsertByCreated(e, s[1..]), completed)
         == if e.isCompleted == completed
            then InsertByCreated(e, WhereCompleted(s[1..], completed))
            else WhereCompleted(s[1..], completed)
    ensures WhereCompleted(InsertByCreated(e, s), completed)
         == if e.isCompleted == completed
            then InsertByCreated(e, WhereCompleted(s, completed))
            else WhereCompleted(s, completed)
  {
    assert s == [s[0]] + s[1..];
    InsertBehind(e, s[0], s[1..]);
    WhereCons(s[0], InsertByCreated(e, s[1..]), completed);
    WhereCons(s[0], s[1..], completed);
    if s[0].isCompleted == completed && e.isCompleted == completed {
      InsertBehind(e, s[0], WhereCompleted(s[1..], completed));
    }
  }

  /** Filtering a list with a row in front. */
  lemma WhereCons(x: TaskEntity, t: seq<TaskEntity>, completed: bool)
    ensures WhereCompleted([x] + t, completed)
         == if x.isCompleted == completed then [x] + WhereCompleted(t, completed) else WhereCompleted(t, completed)
  {
    assert ([x] + t)[1..] == t;
  }

  /** A row created no earlier than the head of a sorted list goes in front. */
  lemma InsertFront(e: TaskEntity, s: seq<TaskEntity>)
    requires CreatedDescending(s) && s != [] && e.createdDate.time >= s[0].createdDate.time
    ensures InsertByCreated(e, s) == [e] + s
  {
  }

  /** A row created before the head of a sorted list goes behind it. */
  lemma InsertBehind(e: TaskEntity, x: TaskEntity, t: seq<TaskEntity>)
    requires CreatedDescending([x] + t) && e.createdDate.time < x.createdDate.time
    ensures CreatedDescending(t)
    ensures InsertByCreated(e, [x] + t) == [x] + InsertByCreated(e, t)
  {
    HeadLatest([x] + t);
    assert ([x] + t)[1..] == t;
  }

  /** Filtering keeps a sorted list sorted. */
  lemma {:induction false} WhereSorted(s: seq<TaskEntity>, completed: bool)
    requires CreatedDescending(s)
    ensures CreatedDescending(WhereCompleted(s, completed))
  {
    if s != [] {
      WhereSorted(s[1..], completed);
      var tail := WhereCompleted(s[1..], completed);
      forall x | x in tail ensures s[0].createdDate.time >= x.createdDate.time {
        assert x in s[1..];
      }
    }
  }

  /** The filtered queries are the full query filtered:
      `SELECT .. WHERE isCompleted = c ORDER BY createdDate DESC` lists the
      rows of `SELECT .. ORDER BY createdDate DESC` that match, in the same order. */
  lemma {:induction false} WhereCommutesWithOrder(rows: seq<TaskEntity>, completed: bool)
    ensures OrderByCreatedDesc(WhereCompleted(rows, completed))
         == WhereCompleted(OrderByCreatedDesc(rows), completed)
  {
    if rows != [] {
      WhereCommutesWithOrder(rows[1..], completed);
      WhereInsert(rows[0], OrderByCreatedDesc(rows[1..]), completed);
      var tail := WhereCompleted(rows[1..], completed);
      if rows[0].isCompleted == completed {
        assert ([rows[0]] + tail)[1..] == tail;
      }
    }
  }

  /** Completed and incomplete rows split any list: each row is in exactly one. */
  lemma {:induction false} WherePartition(s: seq<TaskEntity>)
    ensures multiset(WhereCompleted(s, true)) + multiset(WhereCompleted(s, false)) == multiset(s)
  {
    if s != [] {
      WherePartition(s[1..]);
      assert s == [s[0]] + s[1..];
    }
  }

  /** The completed and the incomplete query split the full query: every row
      is in exactly one of them, and no key is in both. */
  lemma QueriesPartition(rows: seq<TaskEntity>)
    requires IdsAscending(rows)
    ensures var all := OrderByCreatedDesc(rows);
      && multiset(WhereCompleted(all, true)) + multiset(WhereCompleted(all, false)) == multiset(all)
      && forall x, y :: x in WhereCompleted(all, true) && y in WhereCompleted(all, false) ==> x.id != y.id
  {
    var all := OrderByCreatedDesc(rows);
    WherePartition(all);
    forall x, y | x in WhereCompleted(all, true) && y in WhereCompleted(all, false)
      ensures x.id != y.id
    {
      assert x in multiset(rows) && y in multiset(rows);
      var i :| 0 <= i < |rows| && rows[i] == x;
      var j :| 0 <= j < |rows| && rows[j] == y;
      assert i != j;
    }
  }

  /** A row created strictly before every other row is listed last. */
  lemma EarliestIsLast(s: seq<TaskEntity>, e: TaskEntity)
    requires CreatedDescending(s) && e in s
    requires forall x :: x in s && x != e ==> x.createdDate.time > e.createdDate.time
    ensures s[|s| - 1] == e
  {
    var k :| 0 <= k < |s| && s[k] == e;
    assert s[|s| - 1] in s;
  }

  /** The last row of a non-empty list. */
  function Last(s: seq<TaskEntity>): TaskEntity
    requires s != []
  {
    s[|s| - 1]
  }

  /** Storing a row created strictly before every row of the table puts it
      last in the `ORDER BY createdDate DESC` listing. */
  lemma InsertEarliestListedLast(rows: seq<TaskEntity>, e: TaskEntity)
    requires IdsAscending(rows)
    requires forall x :: x in rows ==> x.createdDate.time > e.createdDate.time
    ensures OrderByCreatedDesc(Upsert(rows, e)) != []
    ensures Last(OrderByCreatedDesc(Upsert(rows, e))) == e
  {
    var stored := Upsert(rows, e);
    EarliestStored(rows, e);
    EarliestListedLast(stored, e);

  }

  /** After the upsert, the new row is stored and every other stored row was
      created after it. */
  lemma EarliestStored(rows: seq<TaskEntity>, e: TaskEntity)
    requires IdsAscending(rows)
    requires forall x :: x in rows ==> x.createdDate.time > e.createdDate.time
    ensures e in Upsert(rows, e)
    ensures forall x :: x in Upsert(rows, e) && x != e ==> x.createdDate.time > e.createdDate.time
  {
  }

  /** A stored row created before every other stored row is last in the
      `ORDER BY createdDate DESC` listing. */
  lemma EarliestListedLast(stored: seq<TaskEntity>, e: TaskEntity)
    requires e in stored
    requires forall x :: x in stored && x != e ==> x.createdDate.time > e.createdDate.time
    ensures OrderByCreatedDesc(stored) != []
    ensures Last(OrderByCreatedDesc(stored)) == e
  {
    var listed := OrderByCreatedDesc(stored);
    assert e in multiset(stored);
    forall x | x in listed && x != e ensures x.createdDate.time > e.createdDate.time {
      assert x in multiset(listed);
    }
    EarliestIsLast(listed, e);
  }

  /** The id `INSERT` uses: the row's own id, or when it is 0 (Room binds
      `nullif(id, 0)`) one more than the largest id ever used, and SQLITE_FULL
      once that largest id is the largest `Long`. */
  function AssignedId(sequence: Long, e: TaskEntity): (r: Result<Long>)
    requires 0 <= sequence
    ensures e.id != 0 ==> r == Success(e.id)
    ensures e.id == 0 && r.Success? ==> r.value > sequence
    ensures r.Failure? <==> e.id == 0 && sequence == MAX_LONG
  {
    if e.id != 0 then Success(e.id)
    else if sequence < MAX_LONG then Success(sequence + 1)
    else Failure(SQLITE_FULL)
  }

  /** A generated id is positive and held by no row of the table. */
  lemma GeneratedIdIsFresh(rows: seq<TaskEntity>, sequence: Long, e: TaskEntity)
    requires TableInvariant(rows, sequence) && e.id == 0
    requires AssignedId(sequence, e).Success?
    ensures AssignedId(sequence, e).value > 0
    ensures Find(rows, AssignedId(sequence, e).value) == None
  {
  }

  /** The table: `@Entity(tableName = "tasks")` with its DAO. */
  class TaskTable {
    var rows: seq<TaskEntity>
    var sequence: Long

    ghost predicate Valid()
      reads this
    {
      TableInvariant(rows, sequence)
    }

    constructor ()
      ensures Valid() && rows == [] && sequence == 0
    {
      rows := [];
      sequence := 0;
    }

    /** `SELECT * FROM tasks ORDER BY createdDate DESC`. */
    function GetTasks(): (r: seq<TaskEntity>)
      reads this
      ensures CreatedDescending(r)
      ensures multiset(r) == multiset(rows)
    {
      OrderByCreatedDesc(rows)
    }

    /** `SELECT * FROM tasks WHERE id = :id`, null when there is no such row. */
    function GetTaskById(id: Long): (r: Option<TaskEntity>)
      reads this
      ensures r.Some? ==> r.value in rows && r.value.id == id
      ensures r.None? ==> forall e :: e in rows ==> e.id != id
    {
      Find(rows, id)
    }

    /** `SELECT * FROM tasks WHERE isCompleted = 1 ORDER BY createdDate DESC`. */
    function GetCompletedTasks(): (r: seq<TaskEntity>)
      reads this
      ensures r == WhereCompleted(GetTasks(), true)
    {
      WhereCommutesWithOrder(rows, true);
      OrderByCreatedDesc(WhereCompleted(rows, true))
    }

    /** `SELECT * FROM tasks WHERE isCompleted = 0 ORDER BY createdDate DESC`. */
    function GetIncompleteTasks(): (r: seq<TaskEntity>)
      reads this
      ensures r == WhereCompleted(GetTasks(), false)
    {
      WhereCommutesWithOrder(rows, false);
      OrderByCreatedDesc(WhereCompleted(rows, false))
    }

    /** `@Insert(onConflict = REPLACE)`: returns the row's id. */
    method InsertTask(task: TaskEntity) returns (r: Result<Long>)
      requires Valid()
      modifies this
      ensures Valid()
      ensures r == AssignedId(old(sequence), task)
      ensures r.Success? ==> rows == Upsert(old(rows), task.(id := r.value))
      ensures r.Success? ==> sequence == Max(old(sequence), r.value)
      ensures r.Success? ==> Find(rows, r.value) == Some(task.(id := r.value))
      ensures r.Failure? ==> rows == old(rows) && sequence == old(sequence)
    {
      r := AssignedId(sequence, task);
      if r.Success? {
        var row := task.(id := r.value);
        rows := Upsert(rows, row);
        sequence := Max(sequence, r.value);
        FindUnique(rows, row);
      }
    }

    /** `@Update`: matched by primary key. */
    method UpdateTask(task: TaskEntity)
      requires Valid()
      modifies this
      ensures Valid() && sequence == old(sequence)
      ensures rows == Replace(old(rows), task)
    {
      var found := Find(rows, task.id);
      rows := Replace(rows, task);
      if found.Some? {
        assert forall x :: x in rows ==> x in old(rows) || x.id == found.value.id;
      }
    }

    /** `@Delete`: matched by primary key. */
    method DeleteTask(task: TaskEntity)
      requires Valid()
      modifies this
      ensures Valid() && sequence == old(sequence)
      ensures rows == Remove(old(rows), task.id)
      ensures Find(rows, task.id) == None
    {
      rows := Remove(rows, task.id);
    }

    /** `DELETE FROM tasks`; the AUTOINCREMENT counter is kept, so ids are
        never handed out twice. */
    method DeleteAllTasks()
      requires Valid()
      modifies this
      ensures Valid() && sequence == old(sequence)
      ensures rows == []
    {
      rows := [];
    }
  }
}
