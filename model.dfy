/** Kotlin-level building blocks shared by every layer of the model. */
module Types {

  /** Kotlin `Long`: a signed 64-bit integer. */
  type Long = x: int | -0x8000_0000_0000_0000 <= x <= 0x7FFF_FFFF_FFFF_FFFF

  const MAX_LONG: Long := 0x7FFF_FFFF_FFFF_FFFF

  /** A nullable value `T?`. */
  datatype Option<T> = None | Some(value: T)

  /** An exception as a catch block sees it: only its `localizedMessage` is
      ever used, and that is `String?`, absent for an exception without one. */
  datatype Fault = Fault(message: Option<string>)

  /** The outcome of a suspend call that may throw. */
  datatype Result<T> = Success(value: T) | Failure(fault: Fault)

  function Max(a: Long, b: Long): Long { if a < b then b else a }
}

/** The domain model: `Task` and `Priority`, and the storage row `TaskEntity`. */
module TaskModel {
  import opened Types

  /** `java.util.Date`, which wraps a count of milliseconds since the epoch. */
  datatype Date = Date(time: Long)

  /** The three priorities, declared in this order. */
  datatype Priority = LOW | MEDIUM | HIGH

  /** `Priority.values()`: every priority exactly once, in declaration order. */
  function PriorityValues(): (r: seq<Priority>)
    ensures |r| == 3
    ensures forall p :: p in r
    ensures r[0] == LOW && r[1] == MEDIUM && r[2] == HIGH
  {
    var r := [LOW, MEDIUM, HIGH];
    assert forall p: Priority :: (p.LOW? || p.MEDIUM? || p.HIGH?) ==> p in r;
    r
  }

  /** The domain task. */
  datatype Task = Task(
    id: Long,
    title: string,
    description: string,
    isCompleted: bool,
    createdDate: Date,
    dueDate: Option<Date>,
    priority: Priority)

  /** A row of the `tasks` table; `id` is the auto-generated primary key. */
  datatype TaskEntity = TaskEntity(
    id: Long,
    title: string,
    description: string,
    isCompleted: bool,
    createdDate: Date,
    dueDate: Option<Date>,
    priority: Priority)

  /** `Task(title = .., description = ..)` with every other parameter at its
      default; `now` stands for the `Date()` default of `createdDate`. */
  function NewTask(title: string, description: string, now: Date): (t: Task)
    ensures t.id == 0
    ensures !t.isCompleted && t.dueDate == None && t.priority == MEDIUM
    ensures t.title == title && t.description == description && t.createdDate == now
  {
    Task(0, title, description, false, now, None, MEDIUM)
  }

  /** `TaskEntity(title = .., description = ..)` with every other parameter at
      its default; an id of 0 asks the table to generate one. */
  function NewTaskEntity(title: string, description: string, now: Date): (e: TaskEntity)
    ensures e.id == 0
    ensures !e.isCompleted && e.dueDate == None && e.priority == MEDIUM
    ensures e.title == title && e.description == description && e.createdDate == now
  {
    TaskEntity(0, title, description, false, now, None, MEDIUM)
  }
}
