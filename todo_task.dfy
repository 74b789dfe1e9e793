/** The todo-task entity: a mutable record with an id, a name and a
    completion flag, whose mutators update it in place and return it. */
module Domain {
  import opened Wrappers

  /** A task as a value. The collection stores deep copies of task objects;
      a `Task` is such a copy, independent of the object it was taken from. */
  datatype Task = Task(id: int, name: string, status: bool)

  /** The guard of `change_name`: a name must be present and non-empty. */
  predicate IsValidName(name: Option<string>) {
    name.Some? && |name.value| > 0
  }

  class TodoTask {
    var id: int
    var name: string
    var status: bool

    /** The value a deep copy of this object holds. */
    function Snapshot(): Task
      reads this
    {
      Task(id, name, status)
    }

    /** A new task is unassigned (id 0) and pending; the name is not checked. */
    constructor (name: string)
      ensures id == 0 && this.name == name && !status
    {
      id := 0;
      this.name := name;
      status := false;
    }

    /** Replaces the name, or raises ValueError for an empty or absent name
        and leaves the task as it was. The id and status never change. */
    method ChangeName(newName: Option<string>) returns (r: Result<TodoTask>)
      modifies this
      ensures IsValidName(newName) ==> r == Ok(this) && name == newName.value
      ensures !IsValidName(newName) ==> r == Err(ValueError) && name == old(name)
      ensures id == old(id) && status == old(status)
    {
      if !IsValidName(newName) {
        return Err(ValueError);
      }
      name := newName.value;
      r := Ok(this);
    }

    /** Sets the completion flag and returns this task; id and name stay. */
    method ChangeTaskStatus(isComplete: bool) returns (r: TodoTask)
      modifies this
      ensures r == this
      ensures status == isComplete
      ensures id == old(id) && name == old(name)
    {
      status := isComplete;
      r := this;
    }
  }

  /** Two status changes in a row: the last one wins, so repeating a change
      has the effect of making it once. */
  method ChangeTaskStatusTwice(t: TodoTask, first: bool, second: bool)
    modifies t
    ensures t.Snapshot() == old(t.Snapshot()).(status := second)
  {
    var _ := t.ChangeTaskStatus(first);
    var _ := t.ChangeTaskStatus(second);
  }
}
