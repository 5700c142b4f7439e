/** The task editor's state holder, `TaskDetailViewModel`.

    Two sentinels meet here: navigation opens the editor for a new task with
    the argument `-1`, and `saveTask` treats a built id of `0` as "not yet
    stored". The class invariant links them: a task is only ever loaded for
    an argument other than `-1`, and a loaded task never has id 0. */
module TaskDetail {
  import opened Types
  import opened TaskModel
  import opened Mapper
  import opened TaskStore
  import opened Repository

  datatype TaskDetailState = TaskDetailState(
    task: Option<Task>,
    isLoading: bool,
    error: Option<string>,
    title: string,
    description: string,
    isCompleted: bool,
    dueDate: Option<Date>,
    priority: Priority,
    isSaving: bool)

  /** `TaskDetailState()`. */
  function DefaultTaskDetailState(): (s: TaskDetailState)
    ensures s.task == None && s.error == None
    ensures !s.isLoading && !s.isSaving
    ensures s.title == "" && s.description == ""
    ensures !s.isCompleted && s.dueDate == None && s.priority == MEDIUM
  {
    TaskDetailState(None, false, None, "", "", false, None, MEDIUM, false)
  }

  /** The `taskId` navigation argument for a new task: `TaskDetail(taskId = -1L)`. */
  const NEW_TASK_ID: Long := -1

  /** Whether `init` starts loading: a `taskId` is present and is not `-1`. */
  predicate LoadsTask(taskId: Option<Long>)
  {
    taskId.Some? && taskId.value != NEW_TASK_ID
  }

  /** The task `saveTask` builds: the loaded task's id and creation date when
      a task is loaded, else id 0 and `now`; every other field from the edit
      fields. */
  function TaskToSave(s: TaskDetailState, now: Date): (t: Task)
    ensures t.id == (if s.task.Some? then s.task.value.id else 0)
    ensures t.createdDate == (if s.task.Some? then s.task.value.createdDate else now)
    ensures t.title == s.title && t.description == s.description
    ensures t.isCompleted == s.isCompleted && t.dueDate == s.dueDate && t.priority == s.priority
  {
    match s.task
    case None => Task(0, s.title, s.description, s.isCompleted, now, s.dueDate, s.priority)
    case Some(loaded) => Task(loaded.id, s.title, s.description, s.isCompleted, loaded.createdDate, s.dueDate, s.priority)
  }

  /** Saving an edited stored task rewrites that task and nothing else: the
      id and creation date stay, and the edit fields are what is written. */
  lemma SaveKeepsIdentity(s: TaskDetailState, now: Date, stored: Task)
    requires s.task == Some(stored)
    ensures TaskToSave(s, now) == stored.(title := s.title, description := s.description,
      isCompleted := s.isCompleted, dueDate := s.dueDate, priority := s.priority)
  {
  }

  /** Loading then saving with no edit in between writes back the loaded task. */
  lemma SaveUneditedIsIdentity(s: TaskDetailState, now: Date, stored: Task)
    requires s.task == Some(stored)
    requires s.title == stored.title && s.description == stored.description
    requires s.isCompleted == stored.isCompleted && s.dueDate == stored.dueDate
    requires s.priority == stored.priority
    ensures TaskToSave(s, now) == stored
  {
    SaveKeepsIdentity(s, now, stored);
  }

  class TaskDetailViewModel {
    const repository: TaskRepositoryImpl
    /** The `taskId` navigation argument, absent when none was passed. */
    const taskId: Option<Long>
    var state: TaskDetailState
    /** Whether the `getTaskById(taskId)` collection still runs. */
    var collecting: bool

    ghost predicate Valid()
      reads this, repository.taskDao
    {
      && repository.Valid()
      && (collecting ==> LoadsTask(taskId))
      && (state.task.Some? ==>
            LoadsTask(taskId) && state.task.value.id == taskId.value && state.task.value.id != 0)
    }

    /** `init`: with an id other than `-1` the load starts, otherwise the
        state keeps every default and nothing is collected. */
    constructor (repository: TaskRepositoryImpl, taskId: Option<Long>)
      requires repository.Valid()
      ensures Valid()
      ensures this.repository == repository && this.taskId == taskId
      ensures collecting == LoadsTask(taskId)
      ensures state == if LoadsTask(taskId) then DefaultTaskDetailState().(isLoading := true)
                       else DefaultTaskDetailState()
    {
      this.repository := repository;
      this.taskId := taskId;
      state := DefaultTaskDetailState();
      collecting := false;
      new;
      if LoadsTask(taskId) {
        state := state.(isLoading := true);
        collecting := true;
      }
    }

    /** `collect { task -> .. }`: a stored task is copied into the edit fields
        and loading ends; an absent task changes nothing. */
    method OnTaskEmitted()
      requires Valid()
      modifies this`state
      ensures Valid()
      ensures old(collecting) && repository.GetTaskById(taskId.value).Some? ==>
        var t := repository.GetTaskById(taskId.value).value;
        state == old(state).(task := Some(t), title := t.title, description := t.description,
          isCompleted := t.isCompleted, dueDate := t.dueDate, priority := t.priority, isLoading := false)
      ensures !old(collecting) || repository.GetTaskById(taskId.value).None? ==> state == old(state)
    {
      if collecting {
        var found := repository.GetTaskById(taskId.value);
        if found.Some? {
          var t := found.value;
          assert ToEntity(t) in repository.taskDao.rows;
          state := state.(task := Some(t), title := t.title, description := t.description,
            isCompleted := t.isCompleted, dueDate := t.dueDate, priority := t.priority, isLoading := false);
        }
      }
    }

    /** `catch { error -> .. }`: the fault's message, or none when it has
        none, replaces the error, loading ends, and the collection is over. */
    method OnTaskFailed(fault: Fault)
      requires Valid()
      modifies this`state, this`collecting
      ensures Valid() && !collecting
      ensures old(collecting) ==> state == old(state).(error := fault.message, isLoading := false)
      ensures !old(collecting) ==> state == old(state)
    {
      if collecting {
        state := state.(error := fault.message, isLoading := false);
        collecting := false;
      }
    }

    method OnTitleChange(title: string)
      requires Valid()
      modifies this`state
      ensures Valid() && state == old(state).(title := title)
    {
      state := state.(title := title);
    }

    method OnDescriptionChange(description: string)
      requires Valid()
      modifies this`state
      ensures Valid() && state == old(state).(description := description)
    {
      state := state.(description := description);
    }

    method OnCompletedChange(isCompleted: bool)
      requires Valid()
      modifies this`state
      ensures Valid() && state == old(state).(isCompleted := isCompleted)
    {
      state := state.(isCompleted := isCompleted);
    }

    method OnDueDateChange(dueDate: Option<Date>)
      requires Valid()
      modifies this`state
      ensures Valid() && state == old(state).(dueDate := dueDate)
    {
      state := state.(dueDate := dueDate);
    }

    method OnPriorityChange(priority: Priority)
      requires Valid()
      modifies this`state
      ensures Valid() && state == old(state).(priority := priority)
    {
      state := state.(priority := priority);
    }

    /** `saveTask()`, with `now` for `Date()`: the built task is inserted when
        its id is 0, which is exactly when no task is loaded (always so for an
        editor opened for a new task), and updated otherwise. Saving ends with
        `isSaving` false; a failed insert also shows the fault's message. */
    method SaveTask(now: Date)
      requires Valid()
      modifies this`state, repository.taskDao
      ensures Valid()
      ensures (TaskToSave(old(state), now).id == 0) == old(state).task.None?
      ensures !LoadsTask(taskId) ==> old(state).task.None?
      ensures old(state).task.None? ==>
        var e := ToEntity(TaskToSave(old(state), now));
        var r := AssignedId(old(repository.taskDao.sequence), e);
        && (r.Success? ==> repository.taskDao.rows == Upsert(old(repository.taskDao.rows), e.(id := r.value)))
        && (r.Success? ==> repository.taskDao.sequence == Max(old(repository.taskDao.sequence), r.value))
        && (r.Failure? ==> repository.taskDao.rows == old(repository.taskDao.rows))
        && (r.Failure? ==> repository.taskDao.sequence == old(repository.taskDao.sequence))
        && state == old(state).(isSaving := false, error := if r.Failure? then r.fault.message else old(state).error)
      ensures old(state).task.Some? ==>
        && repository.taskDao.rows == Replace(old(repository.taskDao.rows), ToEntity(TaskToSave(old(state), now)))
        && repository.taskDao.sequence == old(repository.taskDao.sequence)
        && state == old(state).(isSaving := false)
    {
      state := state.(isSaving := true);
      var taskToSave := TaskToSave(state, now);
      if taskToSave.id == 0 {
        var r := repository.InsertTask(taskToSave);
        if r.Success? {
          state := state.(isSaving := false);
        } else {
          state := state.(error := r.fault.message, isSaving := false);
        }
      } else {
        repository.UpdateTask(taskToSave);
        state := state.(isSaving := false);
      }
    }
  }
}
