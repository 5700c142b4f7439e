/** `TaskRepositoryImpl`: the table's queries and mutations, with rows mapped
    to and from domain tasks. */
module Repository {
  import opened Types
  import opened TaskModel
  import opened Mapper
  import opened TaskStore

  class TaskRepositoryImpl {
    const taskDao: TaskTable

    ghost predicate Valid()
      reads taskDao
    {
      taskDao.Valid()
    }

    constructor (taskDao: TaskTable)
      ensures this.taskDao == taskDao
    {
      this.taskDao := taskDao;
    }

    /** `getTasks()`: mapped back to rows it is exactly the table's query, so it
        lists every stored task once, latest created first. */
    function GetTasks(): (r: seq<Task>)
      reads taskDao
      ensures |r| == |taskDao.GetTasks()|
      ensures forall i :: 0 <= i < |r| ==> ToEntity(r[i]) == taskDao.GetTasks()[i]
      ensures forall i, j :: 0 <= i < j < |r| ==> r[i].createdDate.time >= r[j].createdDate.time
    {
      MapToDomainLossless(taskDao.GetTasks());
      MapToDomain(taskDao.GetTasks())
    }

    /** `getTaskById(id)`: a stored row as a task, absent stays absent. */
    function GetTaskById(id: Long): (r: Option<Task>)
      reads taskDao
      ensures r.None? <==> taskDao.GetTaskById(id).None?
      ensures r.Some? ==> ToEntity(r.value) == taskDao.GetTaskById(id).value && r.value.id == id
    {
      match taskDao.GetTaskById(id)
      case None => None
      case Some(e) => EntityRoundTrip(e); Some(ToDomain(e))
    }

    /** `getCompletedTasks()`: the tasks of `GetTasks` that are completed, in
        the same order. */
    function GetCompletedTasks(): (r: seq<Task>)
      reads taskDao
      ensures forall t :: t in r ==> t.isCompleted
      ensures r == MapToDomain(WhereCompleted(taskDao.GetTasks(), true))
    {
      MapToDomain(taskDao.GetCompletedTasks())
    }

    /** `getIncompleteTasks()`: the tasks of `GetTasks` that are not completed,
        in the same order. */
    function GetIncompleteTasks(): (r: seq<Task>)
      reads taskDao
      ensures forall t :: t in r ==> !t.isCompleted
      ensures r == MapToDomain(WhereCompleted(taskDao.GetTasks(), false))
    {
      MapToDomain(taskDao.GetIncompleteTasks())
    }

    /** `insertTask(task)`: the id the table returns for `task.toEntity()`;
        reading that id back gives the task under that id. */
    method InsertTask(task: Task) returns (r: Result<Long>)
      requires Valid()
      modifies taskDao
      ensures Valid()
      ensures r == AssignedId(old(taskDao.sequence), ToEntity(task))
      ensures r.Success? ==> taskDao.rows == Upsert(old(taskDao.rows), ToEntity(task).(id := r.value))
      ensures r.Success? ==> taskDao.sequence == Max(old(taskDao.sequence), r.value)
      ensures r.Failure? ==> taskDao.rows == old(taskDao.rows) && taskDao.sequence == old(taskDao.sequence)
      ensures r.Success? ==> GetTaskById(r.value) == Some(task.(id := r.value))
      ensures task.id == 0 && r.Success? ==> r.value > 0 && old(GetTaskById(r.value)) == None
    {
      if task.id == 0 && AssignedId(taskDao.sequence, ToEntity(task)).Success? {
        GeneratedIdIsFresh(taskDao.rows, taskDao.sequence, ToEntity(task));
      }
      r := taskDao.InsertTask(ToEntity(task));
      if r.Success? {
        DomainRoundTrip(task.(id := r.value));
      }
    }

    /** `updateTask(task)`: the table's update of `task.toEntity()`. */
    method UpdateTask(task: Task)
      requires Valid()
      modifies taskDao
      ensures Valid() && taskDao.sequence == old(taskDao.sequence)
      ensures taskDao.rows == Replace(old(taskDao.rows), ToEntity(task))
    {
      taskDao.UpdateTask(ToEntity(task));
    }

    /** `deleteTask(task)`: the table's delete of `task.toEntity()`, which is
        matched on the id alone; afterwards no task has that id. */
    method DeleteTask(task: Task)
      requires Valid()
      modifies taskDao
      ensures Valid() && taskDao.sequence == old(taskDao.sequence)
      ensures taskDao.rows == Remove(old(taskDao.rows), task.id)
      ensures GetTaskById(task.id) == None
      ensures forall t :: t in GetTasks() ==> t.id != task.id
    {
      taskDao.DeleteTask(ToEntity(task));
      forall t | t in GetTasks() ensures t.id != task.id {
        var i :| 0 <= i < |GetTasks()| && GetTasks()[i] == t;
        assert ToEntity(t) in multiset(taskDao.rows);
      }
    }

    /** `deleteAllTasks()`. */
    method DeleteAllTasks()
      requires Valid()
      modifies taskDao
      ensures Valid() && taskDao.sequence == old(taskDao.sequence)
      ensures taskDao.rows == [] && GetTasks() == []
    {
      taskDao.DeleteAllTasks();
    }
  }

  /** The completed and incomplete views split the full view: together they
      hold every task of `GetTasks` exactly once, and share no id. */
  lemma ViewsPartition(repository: TaskRepositoryImpl)
    requires repository.Valid()
    ensures multiset(repository.GetCompletedTasks()) + multiset(repository.GetIncompleteTasks())
         == multiset(repository.GetTasks())
    ensures forall t, u :: t in repository.GetCompletedTasks() && u in repository.GetIncompleteTasks() ==> t.id != u.id
  {
    var all := repository.taskDao.GetTasks();
    QueriesPartition(repository.taskDao.rows);
    MapConcat(WhereCompleted(all, true), WhereCompleted(all, false));
    assert multiset(WhereCompleted(all, true) + WhereCompleted(all, false)) == multiset(all);
    MapPermutation(WhereCompleted(all, true) + WhereCompleted(all, false), all);
    forall t, u | t in repository.GetCompletedTasks() && u in repository.GetIncompleteTasks()
      ensures t.id != u.id
    {
      var i :| 0 <= i < |repository.GetCompletedTasks()| && repository.GetCompletedTasks()[i] == t;
      var j :| 0 <= j < |repository.GetIncompleteTasks()| && repository.GetIncompleteTasks()[j] == u;
      assert WhereCompleted(all, true)[i] in WhereCompleted(all, true);
      assert WhereCompleted(all, false)[j] in WhereCompleted(all, false);
    }
  }

  /** Mapping distributes over concatenation. */
  lemma MapConcat(a: seq<TaskEntity>, b: seq<TaskEntity>)
    ensures MapToDomain(a + b) == MapToDomain(a) + MapToDomain(b)
  {
  }

  /** Mapping element-wise keeps two lists permutations of each other. */
  lemma MapPermutation(a: seq<TaskEntity>, b: seq<TaskEntity>)
    requires multiset(a) == multiset(b)
    ensures multiset(MapToDomain(a)) == multiset(MapToDomain(b))
  {
    forall t ensures multiset(MapToDomain(a))[t] == multiset(MapToDomain(b))[t] {
      MapCount(a, t);
      MapCount(b, t);
    }
  }

  /** A task occurs in the mapped list as often as its row in the rows. */
  lemma {:induction false} MapCount(a: seq<TaskEntity>, t: Task)
    ensures multiset(MapToDomain(a))[t] == multiset(a)[ToEntity(t)]
  {
    if a != [] {
      MapCount(a[1..], t);
      MapCons(a);
      assert multiset(a) == multiset{a[0]} + multiset(a[1..]) by {
        assert a == [a[0]] + a[1..];
      }
      SameRow(a[0], t);
    }
  }

  lemma MapCons(a: seq<TaskEntity>)
    requires a != []
    ensures multiset(MapToDomain(a)) == multiset{ToDomain(a[0])} + multiset(MapToDomain(a[1..]))
  {
    assert MapToDomain(a) == [ToDomain(a[0])] + MapToDomain(a[1..]);
  }

  /** A row maps to a task exactly when the task maps to that row. */
  lemma SameRow(e: TaskEntity, t: Task)
    ensures ToDomain(e) == t <==> e == ToEntity(t)
  {
    DomainRoundTrip(t);
    EntityRoundTrip(e);
  }
}
