/** A worked run of the store and repository from an empty database. */
module Scenarios {
  import opened Types
  import opened TaskModel
  import opened Mapper
  import opened TaskStore
  import opened Repository

  /** "Buy milk", low priority, no due date. */
  const BUY_MILK: Task := Task(0, "Buy milk", "", false, Date(1000), None, LOW)
  /** "Pay rent", high priority, created later. */
  const PAY_RENT: Task := Task(0, "Pay rent", "", false, Date(2000), None, HIGH)

  /** The two rows once stored, under the ids the table hands out. */
  const MILK_ROW: TaskEntity := ToEntity(BUY_MILK).(id := 1)
  const RENT_ROW: TaskEntity := ToEntity(PAY_RENT).(id := 2)

  /** Storing the two rows in turn in an empty table, and listing them. */
  lemma StoredRows()
    ensures Upsert([], MILK_ROW) == [MILK_ROW]
    ensures Upsert([MILK_ROW], RENT_ROW) == [MILK_ROW, RENT_ROW]
    ensures OrderByCreatedDesc([MILK_ROW, RENT_ROW]) == [RENT_ROW, MILK_ROW]
  {
    assert OrderByCreatedDesc([RENT_ROW]) == [RENT_ROW];
    assert [MILK_ROW, RENT_ROW][1..] == [RENT_ROW];
  }

  /** Two new tasks inserted into a fresh database get the ids 1 and 2, and
      the list shows the later one first. */
  method BuyMilkThenPayRent() returns (first: Result<Long>, second: Result<Long>, listed: seq<Task>)
    ensures first == Success(1) && second == Success(2)
    ensures listed == [PAY_RENT.(id := 2), BUY_MILK.(id := 1)]
  {
    StoredRows();
    var taskDao := new TaskTable();
    var repository := new TaskRepositoryImpl(taskDao);
    first := repository.InsertTask(BUY_MILK);
    assert first == Success(1);
    assert taskDao.rows == [MILK_ROW] && taskDao.sequence == 1;
    second := repository.InsertTask(PAY_RENT);
    assert second == Success(2);
    assert taskDao.rows == [MILK_ROW, RENT_ROW];
    listed := repository.GetTasks();
    assert |listed| == 2;
    ToEntityInjective(listed[0], PAY_RENT.(id := 2));
    ToEntityInjective(listed[1], BUY_MILK.(id := 1));
  }
}
