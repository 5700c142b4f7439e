/** The task list screen's state holder, `TaskListViewModel`.

    Each emission of the live `getTasks()` query and each failure of it is
    one atomic step; an emission carries the repository's current view. */
module TaskList {
  import opened Types
  import opened TaskModel
  import opened Mapper
  import opened TaskStore
  import opened Repository

  datatype TaskListState = TaskListState(tasks: seq<Task>, isLoading: bool, error: Option<string>)

  /** `TaskListState()`. */
  function DefaultTaskListState(): (s: TaskListState)
    ensures s.tasks == [] && !s.isLoading && s.error == None
  {
    TaskListState([], false, None)
  }

  /** `task.copy(isCompleted = !task.isCompleted)`: the completion flag
      flipped, every other field (the id and createdDate among them) kept. */
  function Toggled(task: Task): (t: Task)
    ensures t.isCompleted != task.isCompleted
    ensures t.(isCompleted := task.isCompleted) == task
  {
    task.(isCompleted := !task.isCompleted)
  }

  /** Toggling twice gives back the task. */
  lemma ToggleTwice(task: Task)
    ensures Toggled(Toggled(task)) == task
  {
  }

  class TaskListViewModel {
    const repository: TaskRepositoryImpl
    var state: TaskListState
    /** Whether the `getTasks()` collection started by `init` still runs; a
        failure ends it and nothing starts it again. */
    var collecting: bool

    /** `init { getTasks() }`: the collection starts and the state is loading. */
    constructor (repository: TaskRepositoryImpl)
      ensures this.repository == repository
      ensures state == DefaultTaskListState().(isLoading := true)
      ensures collecting
    {
      this.repository := repository;
      state := DefaultTaskListState();
      new;
      state := state.(isLoading := true);
      collecting := true;
    }

    /** `onEach { tasks -> .. }`: the list as the store holds it now replaces
        the shown list and loading ends; the error is left as it was. */
    method OnTasksEmitted()
      modifies this`state
      ensures old(collecting) ==> state == old(state).(tasks := repository.GetTasks(), isLoading := false)
      ensures !old(collecting) ==> state == old(state)
    {
      if collecting {
        state := state.(tasks := repository.GetTasks(), isLoading := false);
      }
    }

    /** `catch { error -> .. }`: the fault's message, or none when it has
        none, replaces the error, loading ends, the list is kept, and the
        collection is over. */
    method OnTasksFailed(fault: Fault)
      modifies this`state, this`collecting
      ensures !collecting
      ensures old(collecting) ==> state == old(state).(error := fault.message, isLoading := false)
      ensures !old(collecting) ==> state == old(state)
    {
      if collecting {
        state := state.(error := fault.message, isLoading := false);
        collecting := false;
      }
    }

    /** `toggleTaskCompletion(task)`: the toggled task is sent to `updateTask`;
        a stored task with that id then reads back toggled. The state itself is
        left to the next emission. */
    method ToggleTaskCompletion(task: Task)
      requires repository.Valid()
      modifies repository.taskDao
      ensures repository.Valid()
      ensures repository.taskDao.sequence == old(repository.taskDao.sequence)
      ensures repository.taskDao.rows == Replace(old(repository.taskDao.rows), ToEntity(Toggled(task)))
      ensures old(repository.GetTaskById(task.id)).Some? ==> repository.GetTaskById(task.id) == Some(Toggled(task))
      ensures old(repository.GetTaskById(task.id)).None? ==> repository.taskDao.rows == old(repository.taskDao.rows)
    {
      var updatedTask := Toggled(task);
      repository.UpdateTask(updatedTask);
      if Find(old(repository.taskDao.rows), task.id).Some? {
        FindUnique(repository.taskDao.rows, ToEntity(updatedTask));
        DomainRoundTrip(updatedTask);
      }
    }

    /** `deleteTask(task)`: the task is passed on unchanged, so afterwards no
        task with its id is stored or listed. */
    method DeleteTask(task: Task)
      requires repository.Valid()
      modifies repository.taskDao
      ensures repository.Valid()
      ensures repository.taskDao.sequence == old(repository.taskDao.sequence)
      ensures repository.taskDao.rows == Remove(old(repository.taskDao.rows), task.id)
      ensures repository.GetTaskById(task.id) == None
      ensures forall t :: t in repository.GetTasks() ==> t.id != task.id
    {
      repository.DeleteTask(task);
    }
  }
}
