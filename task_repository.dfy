/** The task repository: binds the `Todo_Tasks` collection of a database and
    builds tasks through the entity. */
module Repository {
  import opened Wrappers
  import opened Domain
  import opened FakeMongoDb

  /** The name of the collection every repository binds. */
  const TasksCollection := "Todo_Tasks"

  class TaskRepository {
    const context: FakeCollection

    /** Binds the `Todo_Tasks` collection of `db`, registering it on first use. */
    constructor (db: FakeMongo)
      modifies db
      ensures TasksCollection in db.collections && context == db.collections[TasksCollection]
      ensures TasksCollection in old(db.collections) ==>
                db.collections == old(db.collections) && context == old(db.collections[TasksCollection])
      ensures TasksCollection !in old(db.collections) ==>
                fresh(context) && context.Model() == Empty && db.collections == old(db.collections)[TasksCollection := context]
    {
      var collection := db.GetCollection(TasksCollection);
      context := collection;
    }

    /** A new pending task named `taskName`, stored under a fresh id that
        `create` wrote into it. */
    method CreateNewTask(taskName: string) returns (task: TodoTask)
      modifies context
      ensures fresh(task)
      ensures task.name == taskName && !task.status
      ensures task.id !in old(context.files) && task.id in context.files
      ensures context.files[task.id] == task.Snapshot()
      ensures (context.Model(), task.id) == Created(old(context.Model()), Task(0, taskName, false))
      ensures old(context.Valid()) ==> context.Valid() && task.id == old(context.currentIdx)
    {
      task := new TodoTask(taskName);
      var _ := context.Create(task);
    }

    /** The stored task for `id`, or None; never raises. */
    method GetTask(id: int) returns (data: Option<Task>)
      ensures data.Some? <==> id in context.files
      ensures data.Some? ==> data.value == context.files[id]
    {
      data := context.Read(id);
    }

    /** Stores `task` under its own id: KeyError if that id is not stored. */
    method UpdateTask(task: TodoTask) returns (r: Result<TodoTask>)
      modifies context
      ensures task.id !in old(context.files) ==>
                r == Err(KeyError(task.id)) && context.Model() == old(context.Model())
      ensures task.id in old(context.files) ==>
                r == Ok(task) && context.files == old(context.files)[task.id := task.Snapshot()]
                && context.currentIdx == old(context.currentIdx)
    {
      r := context.Update(task.id, task);
    }

    /** Deletes the task stored under `id`; an absent id changes nothing. */
    method RemoveTask(id: int)
      modifies context
      ensures context.Model() == Deleted(old(context.Model()), id)
      ensures id !in old(context.files) ==> context.Model() == old(context.Model())
    {
      context.Delete(id);
    }

    /** A copy of every stored task, one per stored id. */
    method ListAllTasks() returns (all: seq<Task>, ghost keys: seq<int>)
      ensures |all| == |context.files|
      ensures Enumerates(context.files, all, keys)
    {
      all, keys := context.ListAll();
    }
  }

  /** Two repositories over one database bind one collection, so a task
      created through either is visible through both. */
  method SharedCollection(db: FakeMongo, taskName: string) returns (first: TaskRepository, second: TaskRepository, found: Option<Task>)
    modifies db, db.collections.Values
    ensures first.context == second.context
    ensures found.Some? && found.value.name == taskName && !found.value.status
  {
    first := new TaskRepository(db);
    second := new TaskRepository(db);
    var task := first.CreateNewTask(taskName);
    found := second.GetTask(task.id);
  }
}
