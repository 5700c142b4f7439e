# TodoApp core in Dafny

This project models the core of TodoApp, an Android to-do list written in Kotlin. The modelled core has five parts.

- **The task records:** the domain `Task` and the Room row `TaskEntity`. Room's type converters write dates as epoch milliseconds and priorities as enum names. A mapper converts field for field between the domain task and the row.
- **The `tasks` table:** modelled as SQLite keeps it. The rows are held in primary-key order, alongside the table's AUTOINCREMENT counter, and the DAO's SQL becomes functions over those rows.
  - An insert of id 0 takes the next counter value, and fails with `SQLITE_FULL` once the counter reaches the largest `Long`.
  - An insert replaces a row with the same key.
  - Update and delete match on the key.
  - The three list queries are a stable `ORDER BY createdDate DESC`, with optional `WHERE isCompleted` filters.
- **`TaskRepositoryImpl`:** the DAO with rows mapped to domain tasks.
- **The two screen state holders:**
  - `TaskListViewModel` shows the live task list and toggles or deletes tasks.
  - `TaskDetailViewModel` loads one task into edit fields and saves it back. It inserts a new task when no task was loaded and updates the task otherwise. Navigation opens it with the id `-1` to create a task; `saveTask` decides between insert and update on the built id `0`. The class invariant ties the two sentinels together.
- **The press tracking of the two Duolingo-style buttons:**
  - `handleMotionEvent` of `DuolingoButton2`, over a `DuolingoButtonState` whose offset is the shadow size exactly while it is pressed.
  - The `Press`/`Release`/`Exit` loop of `DuolingoButton`, where no run of events clicks more often than it presses.

Modelling choices:

- **Live `Flow` queries** are functions of the current table. Each emission that a view-model's collector receives is a separate method, which reads the query's current value. Each failure is one too.
- **`Date()`** is passed in as a parameter. A caught exception is passed in as a `Fault` holding its `localizedMessage`, which is absent when the exception has none.
- **Suspend calls that can throw** return a `Result`.
- **A `Long`** is a subset type of `int` that covers the 64-bit range.

A few behaviours of the code follow from the contracts:

- **Bounds test:** `event.x.toInt()` rounds toward zero, so `handleMotionEvent` treats any touch with -1 < x < width + 1 and -1 < y < height + 1 as inside the button (`DuolingoButton2.InBoundsArea`).
- **`ACTION_UP`** clicks whenever it lands in bounds, even if the button was not pressed.
- **`saveTask`** does not keep the id that the insert returns. A second save from the same new-task editor therefore inserts a second task (`TaskDetail.TaskDetailViewModel.SaveTask` leaves `task` absent).
- **The detail editor** keeps collecting `getTaskById` after the first load. A later emission overwrites the edit fields.
- **A `taskId` of 0** starts a load that never finds a row, so `isLoading` stays true.

## Model

| member | source | states |
|---|---|---|
| TaskModel.PriorityValues | app/src/main/java/com/sonpxp/todoapp/domain/model/Task.kt:15-17 | the priorities are exactly LOW, MEDIUM and HIGH, in that order |
| TaskModel.NewTask | app/src/main/java/com/sonpxp/todoapp/domain/model/Task.kt:5-13 | a task built from title and description alone has id 0, is not completed, has no due date, is MEDIUM and was created now |
| TaskModel.NewTaskEntity | app/src/main/java/com/sonpxp/todoapp/data/local/entity/TaskEntity.kt:8-18 | the same defaults for a row; id 0 asks for a generated key |
| Converters.FromTimestamp | app/src/main/java/com/sonpxp/todoapp/data/util/Converters.kt:8-11 | null stays null, and a timestamp becomes the date at that millisecond |
| Converters.DateToTimestamp | app/src/main/java/com/sonpxp/todoapp/data/util/Converters.kt:13-16 | null stays null, and a date becomes its millisecond count |
| Converters.DateRoundTrip | app/src/main/java/com/sonpxp/todoapp/data/util/Converters.kt:8-16 | every nullable date is read back as written |
| Converters.TimestampRoundTrip | app/src/main/java/com/sonpxp/todoapp/data/util/Converters.kt:8-16 | every nullable timestamp column is written back as read |
| Converters.FromPriority | app/src/main/java/com/sonpxp/todoapp/data/util/Converters.kt:18-21 | each priority is written as its own name: LOW as "LOW", MEDIUM as "MEDIUM", HIGH as "HIGH" |
| Converters.FromPriorityInjective | app/src/main/java/com/sonpxp/todoapp/data/util/Converters.kt:18-21 | distinct priorities get distinct names |
| Converters.ToPriority | app/src/main/java/com/sonpxp/todoapp/data/util/Converters.kt:23-30 | "LOW", "MEDIUM" and "HIGH" decode to their own priorities, and any other string decodes to MEDIUM instead of throwing |
| Converters.PriorityRoundTrip | app/src/main/java/com/sonpxp/todoapp/data/util/Converters.kt:18-30 | every priority is read back as written |
| Converters.PriorityColumnRoundTrip | app/src/main/java/com/sonpxp/todoapp/data/util/Converters.kt:18-30 | a column value survives a read and a write exactly when it is "LOW", "MEDIUM" or "HIGH" |
| Converters.LenientDecode | app/src/main/java/com/sonpxp/todoapp/data/util/Converters.kt:23-30 | matching is case- and space-sensitive: "low", "High", "" and " HIGH" all decode to MEDIUM |
| Mapper.ToDomain | app/src/main/java/com/sonpxp/todoapp/data/mapper/TaskMapper.kt:6-16 | every field of the row is carried into the task unchanged |
| Mapper.ToEntity | app/src/main/java/com/sonpxp/todoapp/data/mapper/TaskMapper.kt:18-28 | every field of the task is carried into the row unchanged |
| Mapper.DomainRoundTrip | app/src/main/java/com/sonpxp/todoapp/data/mapper/TaskMapper.kt:6-28 | a task mapped to a row and back is the same task |
| Mapper.EntityRoundTrip | app/src/main/java/com/sonpxp/todoapp/data/mapper/TaskMapper.kt:6-28 | a row mapped to a task and back is the same row |
| Mapper.ToEntityInjective | app/src/main/java/com/sonpxp/todoapp/data/mapper/TaskMapper.kt:18-28 | two tasks with the same row are equal |
| Mapper.MapToDomain | app/src/main/java/com/sonpxp/todoapp/data/repository/TaskRepositoryImpl.kt:16-18 | the mapped list has one task per row, in row order |
| Mapper.MapToDomainLossless | app/src/main/java/com/sonpxp/todoapp/data/repository/TaskRepositoryImpl.kt:15-19 | mapping the list back to rows gives the rows that were read |
| TaskStore.Find | app/src/main/java/com/sonpxp/todoapp/data/local/TaskDao.kt:17-18 | a row is found only under its own key, and nothing is found only when no row has the key |
| TaskStore.FindUnique | app/src/main/java/com/sonpxp/todoapp/data/local/entity/TaskEntity.kt:10-11 | with unique keys, looking up a stored row's key finds that very row |
| TaskStore.Upsert | app/src/main/java/com/sonpxp/todoapp/data/local/TaskDao.kt:20-21 | REPLACE on conflict: the row is stored, any other row with its key is gone, every row with another key is kept, and keys stay unique and ordered |
| TaskStore.Remove | app/src/main/java/com/sonpxp/todoapp/data/local/TaskDao.kt:26-27 | exactly the rows with another key remain |
| TaskStore.Replace | app/src/main/java/com/sonpxp/todoapp/data/local/TaskDao.kt:23-24 | the update stores the row over the one with its key, and changes nothing when no row has that key |
| TaskStore.InsertByCreated | app/src/main/java/com/sonpxp/todoapp/data/local/TaskDao.kt:14 | inserting one row into a list ordered latest-first keeps it ordered and adds exactly that row |
| TaskStore.OrderByCreatedDesc | app/src/main/java/com/sonpxp/todoapp/data/local/TaskDao.kt:14-15 | the listing is ordered latest-first and is a permutation of the rows |
| TaskStore.WhereCompleted | app/src/main/java/com/sonpxp/todoapp/data/local/TaskDao.kt:32-36 | the filter keeps exactly the rows with the asked completion flag |
| TaskStore.WhereInsert | app/src/main/java/com/sonpxp/todoapp/data/local/TaskDao.kt:14-36 | filtering commutes with inserting one row into an ordered list |
| TaskStore.WhereCommutesWithOrder | app/src/main/java/com/sonpxp/todoapp/data/local/TaskDao.kt:14-36 | the filtered queries list the matching rows of the full query, in the same order |
| TaskStore.WherePartition | app/src/main/java/com/sonpxp/todoapp/data/local/TaskDao.kt:32-36 | the completed and the incomplete filter together hold every row exactly once |
| TaskStore.QueriesPartition | app/src/main/java/com/sonpxp/todoapp/data/local/TaskDao.kt:14-36 | the completed and incomplete queries partition the full query, and no key is in both |
| TaskStore.EarliestIsLast | app/src/main/java/com/sonpxp/todoapp/data/local/TaskDao.kt:14 | a row created before every other row is listed last |
| TaskStore.InsertEarliestListedLast | app/src/main/java/com/sonpxp/todoapp/data/local/TaskDao.kt:14-21 | storing a row created before every stored row puts it last in the listing |
| TaskStore.AssignedId | app/src/main/java/com/sonpxp/todoapp/data/local/TaskDao.kt:20-21 | a row's own nonzero key is used as is; key 0 gets a key above every key ever used, and fails with SQLITE_FULL exactly when the counter is at the largest Long |
| TaskStore.GeneratedIdIsFresh | app/src/main/java/com/sonpxp/todoapp/data/local/entity/TaskEntity.kt:10-11 | a generated key is positive and held by no stored row |
| TaskStore.TaskTable.constructor | app/src/main/java/com/sonpxp/todoapp/data/local/TaskDao.kt:12-13 | a new table is empty, its counter is 0, and the table invariant holds |
| TaskStore.TaskTable.GetTasks | app/src/main/java/com/sonpxp/todoapp/data/local/TaskDao.kt:14-15 | every stored row exactly once, latest created first |
| TaskStore.TaskTable.GetTaskById | app/src/main/java/com/sonpxp/todoapp/data/local/TaskDao.kt:17-18 | the stored row with that key, or null when there is none |
| TaskStore.TaskTable.GetCompletedTasks | app/src/main/java/com/sonpxp/todoapp/data/local/TaskDao.kt:32-33 | the completed rows of `GetTasks`, in its order |
| TaskStore.TaskTable.GetIncompleteTasks | app/src/main/java/com/sonpxp/todoapp/data/local/TaskDao.kt:35-36 | the incomplete rows of `GetTasks`, in its order |
| TaskStore.TaskTable.InsertTask | app/src/main/java/com/sonpxp/todoapp/data/local/TaskDao.kt:20-21 | returns the assigned key, upserts the row under it and raises the counter to it; reading that key back gives the row; a failed insert changes nothing |
| TaskStore.TaskTable.UpdateTask | app/src/main/java/com/sonpxp/todoapp/data/local/TaskDao.kt:23-24 | the row with the same key is replaced; the counter is unchanged |
| TaskStore.TaskTable.DeleteTask | app/src/main/java/com/sonpxp/todoapp/data/local/TaskDao.kt:26-27 | the row with that key is removed and can no longer be found; the counter is unchanged |
| TaskStore.TaskTable.DeleteAllTasks | app/src/main/java/com/sonpxp/todoapp/data/local/TaskDao.kt:29-30 | the table is empty and the counter is unchanged |
| Repository.TaskRepositoryImpl.constructor | app/src/main/java/com/sonpxp/todoapp/data/repository/TaskRepositoryImpl.kt:12-14 | the repository wraps the given DAO |
| Repository.TaskRepositoryImpl.GetTasks | app/src/main/java/com/sonpxp/todoapp/data/repository/TaskRepositoryImpl.kt:15-19 | position by position, the tasks are the rows of the DAO query, so they are ordered latest created first |
| Repository.TaskRepositoryImpl.GetTaskById | app/src/main/java/com/sonpxp/todoapp/data/repository/TaskRepositoryImpl.kt:21-25 | absent exactly when the DAO finds nothing; otherwise the task of the found row, with the asked id |
| Repository.TaskRepositoryImpl.GetCompletedTasks | app/src/main/java/com/sonpxp/todoapp/data/repository/TaskRepositoryImpl.kt:43-47 | only completed tasks: the completed rows of the full query, mapped |
| Repository.TaskRepositoryImpl.GetIncompleteTasks | app/src/main/java/com/sonpxp/todoapp/data/repository/TaskRepositoryImpl.kt:49-53 | only incomplete tasks: the incomplete rows of the full query, mapped |
| Repository.TaskRepositoryImpl.InsertTask | app/src/main/java/com/sonpxp/todoapp/data/repository/TaskRepositoryImpl.kt:27-29 | inserts the task's row. A task with id 0 gets a positive id that was free before, and reading that id back gives the task under that id |
| Repository.TaskRepositoryImpl.UpdateTask | app/src/main/java/com/sonpxp/todoapp/data/repository/TaskRepositoryImpl.kt:31-33 | the DAO update of the task's row |
| Repository.TaskRepositoryImpl.DeleteTask | app/src/main/java/com/sonpxp/todoapp/data/repository/TaskRepositoryImpl.kt:35-37 | afterwards no task with that id is found or listed |
| Repository.TaskRepositoryImpl.DeleteAllTasks | app/src/main/java/com/sonpxp/todoapp/data/repository/TaskRepositoryImpl.kt:39-41 | afterwards the task list is empty |
| Repository.ViewsPartition | app/src/main/java/com/sonpxp/todoapp/data/repository/TaskRepositoryImpl.kt:43-53 | the completed and incomplete task lists together hold every task of `getTasks` exactly once and share no id |
| TaskList.DefaultTaskListState | app/src/main/java/com/sonpxp/todoapp/ui/features/taskdetail/TaskListState.kt:5-9 | no tasks, not loading, no error |
| TaskList.Toggled | app/src/main/java/com/sonpxp/todoapp/ui/features/taskdetail/TaskListViewModel.kt:59 | only the completion flag changes, and it flips |
| TaskList.ToggleTwice | app/src/main/java/com/sonpxp/todoapp/ui/features/taskdetail/TaskListViewModel.kt:59 | toggling twice restores the task |
| TaskList.TaskListViewModel.constructor | app/src/main/java/com/sonpxp/todoapp/ui/features/taskdetail/TaskListViewModel.kt:27-35 | the state starts as the default with loading on, and the collection runs |
| TaskList.TaskListViewModel.OnTasksEmitted | app/src/main/java/com/sonpxp/todoapp/ui/features/taskdetail/TaskListViewModel.kt:36-45 | while collecting, the shown list becomes the repository's current list and loading ends |
| TaskList.TaskListViewModel.OnTasksFailed | app/src/main/java/com/sonpxp/todoapp/ui/features/taskdetail/TaskListViewModel.kt:46-53 | the fault's message replaces the error, or clears it when the fault has none; loading ends, the list is kept and collection stops |
| TaskList.TaskListViewModel.ToggleTaskCompletion | app/src/main/java/com/sonpxp/todoapp/ui/features/taskdetail/TaskListViewModel.kt:57-62 | the toggled task is written by key; a stored task then reads back toggled, an unknown task changes nothing, and the id counter is unchanged |
| TaskList.TaskListViewModel.DeleteTask | app/src/main/java/com/sonpxp/todoapp/ui/features/taskdetail/TaskListViewModel.kt:64-68 | afterwards no task with the id is found or listed, and the id counter is unchanged |
| TaskDetail.DefaultTaskDetailState | app/src/main/java/com/sonpxp/todoapp/ui/features/tasklist/TaskDetailState.kt:7-17 | no task, blank fields, MEDIUM, not loading or saving, no error |
| TaskDetail.TaskToSave | app/src/main/java/com/sonpxp/todoapp/ui/features/tasklist/TaskDetailViewModel.kt:95-103 | the loaded task's id and creation date (0 and now when none is loaded), with every other field from the edit fields |
| TaskDetail.SaveKeepsIdentity | app/src/main/java/com/sonpxp/todoapp/ui/features/tasklist/TaskDetailViewModel.kt:95-103 | saving an edited task rewrites that task under the same id and creation date, with the edit fields |
| TaskDetail.SaveUneditedIsIdentity | app/src/main/java/com/sonpxp/todoapp/ui/features/tasklist/TaskDetailViewModel.kt:52-103 | loading then saving with no edit writes back the loaded task |
| TaskDetail.TaskDetailViewModel.constructor | app/src/main/java/com/sonpxp/todoapp/ui/features/tasklist/TaskDetailViewModel.kt:29-41 | `LoadsTask`: with a present id other than -1, loading starts and the state is otherwise default; otherwise every field keeps its default and nothing is collected |
| TaskDetail.TaskDetailViewModel.OnTaskEmitted | app/src/main/java/com/sonpxp/todoapp/ui/features/tasklist/TaskDetailViewModel.kt:52-66 | a found task is copied into the edit fields and loading ends; an absent task changes nothing; a loaded task never has id 0 |
| TaskDetail.TaskDetailViewModel.OnTaskFailed | app/src/main/java/com/sonpxp/todoapp/ui/features/tasklist/TaskDetailViewModel.kt:43-51 | the fault's message replaces the error, or clears it when the fault has none; loading ends and collection stops |
| TaskDetail.TaskDetailViewModel.OnTitleChange | app/src/main/java/com/sonpxp/todoapp/ui/features/tasklist/TaskDetailViewModel.kt:70-72 | only the title changes |
| TaskDetail.TaskDetailViewModel.OnDescriptionChange | app/src/main/java/com/sonpxp/todoapp/ui/features/tasklist/TaskDetailViewModel.kt:74-76 | only the description changes |
| TaskDetail.TaskDetailViewModel.OnCompletedChange | app/src/main/java/com/sonpxp/todoapp/ui/features/tasklist/TaskDetailViewModel.kt:78-80 | only the completion flag changes |
| TaskDetail.TaskDetailViewModel.OnDueDateChange | app/src/main/java/com/sonpxp/todoapp/ui/features/tasklist/TaskDetailViewModel.kt:82-84 | only the due date changes |
| TaskDetail.TaskDetailViewModel.OnPriorityChange | app/src/main/java/com/sonpxp/todoapp/ui/features/tasklist/TaskDetailViewModel.kt:86-88 | only the priority changes |
| TaskDetail.TaskDetailViewModel.SaveTask | app/src/main/java/com/sonpxp/todoapp/ui/features/tasklist/TaskDetailViewModel.kt:90-121 | inserts exactly when no task is loaded (always so for an editor opened with -1), and otherwise updates by key. The id counter rises to an inserted id and is otherwise unchanged. Saving ends with isSaving false, and a failed insert puts its fault's message in the error |
| DuolingoButton2.ToInt | app/src/main/java/com/sonpxp/todoapp/ui/components/DuolingoButton2.kt:182-183 | `toInt` rounds toward zero: the result lies within one unit of the coordinate, on the zero side |
| DuolingoButton2.InBoundsArea | app/src/main/java/com/sonpxp/todoapp/ui/components/DuolingoButton2.kt:182-183 | `IsInBounds`, the inclusive test on the truncated coordinates, accepts exactly -1 < x < width + 1 and -1 < y < height + 1 |
| DuolingoButton2.DuolingoButtonState.constructor | app/src/main/java/com/sonpxp/todoapp/ui/components/DuolingoButton2.kt:162-167 | not pressed, offset 0, size zero |
| DuolingoButton2.OnGloballyPositioned | app/src/main/java/com/sonpxp/todoapp/ui/components/DuolingoButton2.kt:133 | the measured size is recorded |
| DuolingoButton2.HandleMotionEvent | app/src/main/java/com/sonpxp/todoapp/ui/components/DuolingoButton2.kt:177-212 | DOWN presses. UP and CANCEL release. After MOVE the button is pressed exactly when the touch is in bounds (`IsInBounds`); any other action changes nothing. Only UP in bounds clicks, every event is consumed, and the offset is the shadow size exactly while pressed |
| DuolingoButton.Step | app/src/main/java/com/sonpxp/todoapp/ui/components/DuolingoButton.kt:122-137 | Press presses without clicking. Release releases and clicks exactly when pressed, and Exit releases without clicking. Any other event changes nothing and does not click. Only Press can press, and a click happens only from the pressed state |
| DuolingoButton.ClicksAtMostPresses | app/src/main/java/com/sonpxp/todoapp/ui/components/DuolingoButton.kt:120-137 | over any event sequence (`Run` folds `Step` over it, `CountPresses` counts its Press events), clicks plus a final pressed state never exceed the Press events plus an initial pressed state |
| DuolingoButton.ClicksNeverExceedPresses | app/src/main/java/com/sonpxp/todoapp/ui/components/DuolingoButton.kt:71-137 | from the initial unpressed state, no event sequence clicks more often than it presses |
| DuolingoButton.PressedState.constructor | app/src/main/java/com/sonpxp/todoapp/ui/components/DuolingoButton.kt:71 | the button starts unpressed |
| DuolingoButton.HandlePointerEvent | app/src/main/java/com/sonpxp/todoapp/ui/components/DuolingoButton.kt:121-137 | one pass of the loop body performs `Step` on the pressed state |
| DuolingoButton.AwaitPointerEvents | app/src/main/java/com/sonpxp/todoapp/ui/components/DuolingoButton.kt:118-140 | the loop leaves the state and click count of `Run` over the events, so from unpressed it clicks at most once per Press |
| DuolingoButton.ElevationTarget | app/src/main/java/com/sonpxp/todoapp/ui/components/DuolingoButton.kt:83-89 | the target is the shadow size or 0, and it is the shadow size exactly when pressed (or the shadow size is 0) |
| DuolingoButton.ElevationAfterEvent | app/src/main/java/com/sonpxp/todoapp/ui/components/DuolingoButton.kt:84-137 | after Press the target is the shadow size. After Release or Exit it is 0, and other events keep it |
| Scenarios.BuyMilkThenPayRent | app/src/main/java/com/sonpxp/todoapp/data/local/TaskDao.kt:14-21 | two new tasks inserted into an empty database get ids 1 and 2, and the list shows the later-created one first |

## Left out

- **Coroutines and `Flow`:** `launchIn`, `viewModelScope.launch` and `delay(2000)` in the list view-model are not modelled, and neither are interleavings between launched coroutines. Each emission, failure and launched call is one atomic step, taken in the order it is called.
- **Cancelling a view-model** (`onCleared`) is not modelled.
- **Storage faults:** the only storage fault modelled is `SQLITE_FULL` on an insert that needs a generated key. Disk, I/O and constraint faults are not modelled, so update and delete never fail here. This also leaves out the uncaught exception a failed toggle or delete would raise inside its `launch`.
- **Column encoding:** the table stores `TaskEntity` values, not the SQL column encoding. The converters are modelled and proved lossless on their own, but are not applied inside the table.
- TaskStore.OrderByCreatedDesc: SQLite leaves the order of rows created in the same millisecond unspecified. The model fixes it to ascending key order.
- **`UpdateTaskUseCase.kt` is not part of this model.** The view-models call `TaskRepositoryImpl.updateTask` directly, as the other use cases (`AddTaskUseCase`, `DeleteTaskUseCase`, `GetTaskByIdUseCase`, `GetTasksUseCase`) each delegate to the matching repository call. Hilt injection is replaced by passing the repository in.
- **Navigation and arguments:** navigation, screens, theme and the save-button guard are not modelled. Only navigation's `-1` default for a new task is kept, as `TaskDetail.NEW_TASK_ID`. `savedStateHandle.get<Long>("taskId")` becomes an optional constructor argument.
- **DuolingoButton2 coordinates:** they are exact reals, so float rounding, NaN and infinities are not modelled. Offsets are whole dp.
- **Button animation:** colours, alpha factors, tween durations and the easing curve are not modelled, and the animation itself is not either. Only the animation target is.
- DuolingoButton.AwaitPointerEvents: the source loops forever over incoming events. The model runs the loop over a finite list of events and counts the `onClick` invocations instead of calling a callback.
