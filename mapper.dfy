/** The field-for-field mapper between table rows and domain tasks. */
module Mapper {
  import opened TaskModel

  /** `TaskEntity.toDomain()`. */
  function ToDomain(e: TaskEntity): (t: Task)
    ensures t.id == e.id && t.title == e.title && t.description == e.description
    ensures t.isCompleted == e.isCompleted && t.createdDate == e.createdDate
    ensures t.dueDate == e.dueDate && t.priority == e.priority
  {
    Task(e.id, e.title, e.description, e.isCompleted, e.createdDate, e.dueDate, e.priority)
  }

  /** `Task.toEntity()`. */
  function ToEntity(t: Task): (e: TaskEntity)
    ensures e.id == t.id && e.title == t.title && e.description == t.description
    ensures e.isCompleted == t.isCompleted && e.createdDate == t.createdDate
    ensures e.dueDate == t.dueDate && e.priority == t.priority
  {
    TaskEntity(t.id, t.title, t.description, t.isCompleted, t.createdDate, t.dueDate, t.priority)
  }

  lemma DomainRoundTrip(t: Task)
    ensures ToDomain(ToEntity(t)) == t
  {
  }

  lemma EntityRoundTrip(e: TaskEntity)
    ensures ToEntity(ToDomain(e)) == e
  {
  }

  /** The mapper is a bijection: two tasks map to the same row only if equal. */
  lemma ToEntityInjective(t: Task, u: Task)
    ensures ToEntity(t) == ToEntity(u) ==> t == u
  {
    if ToEntity(t) == ToEntity(u) {
      DomainRoundTrip(t);
      DomainRoundTrip(u);
    }
  }

  /** `entities.map { it.toDomain() }`. */
  function MapToDomain(es: seq<TaskEntity>): (ts: seq<Task>)
    ensures |ts| == |es|
    ensures forall i :: 0 <= i < |es| ==> ts[i] == ToDomain(es[i])
  {
    seq(|es|, i requires 0 <= i < |es| => ToDomain(es[i]))
  }

  /** Mapping back to rows gives the very rows that were read. */
  lemma {:induction false} MapToDomainLossless(es: seq<TaskEntity>)
    ensures |MapToDomain(es)| == |es|
    ensures forall i :: 0 <= i < |es| ==> ToEntity(MapToDomain(es)[i]) == es[i]
  {
    forall i | 0 <= i < |es| ensures ToEntity(MapToDomain(es)[i]) == es[i] {
      EntityRoundTrip(es[i]);
    }
  }
}
