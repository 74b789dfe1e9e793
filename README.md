# Todo tasks over an in-memory document store

This project models the core of a small todo-task service:

- the task entity `Todo_Task`. It is a mutable record with an `id`, a `name` and a completion `status`. Its two mutators change the record in place and return it;
- the fake document store. A `FakeCollection` maps integer ids to stored records and hands out ids from a counter that only moves forward. A `FakeMongo` is a registry of collections by name, which creates a collection the first time it is asked for one;
- the `TaskRepository`. It binds the `Todo_Tasks` collection of a database and turns each of its calls into one collection call.

Deep copies are modelled as values. The collection holds `Task` values (`datatype Task`), and `TodoTask.Snapshot()` is the copy taken of an object. The entity, collection, registry and repository are classes whose methods change their fields. Each store method is also tied to a function on store values (`Created`, `Updated`, `Deleted`). Runs of such calls are reasoned about through those functions in `StoreLaws`.

Where the store's design description and its code disagree, the model follows the code:

- Deleted ids are never handed out again. `create` probes upward from the counter and then moves the counter past the id it assigned. Nothing ever lowers the counter. So create, create, delete 0, create assigns 0, 1 and 2. The design description expects the third id to be 0 (`StoreLaws.DeletedIdIsNotReused`).
- `create` does not look for the lowest unused id. It looks for the first unused id at or above the counter. While the counter invariant holds, that id is the counter itself.
- `read` returns the stored record itself, not a copy. Only `list_all` copies. With records as values the difference cannot be seen, and the model does not claim a copy.

Files: `wrappers.dfy` (Option, Result and the two exceptions), `todo_task.dfy` (module `Domain`), `fake_mongo.dfy` (module `FakeMongoDb`), `task_repository.dfy` (module `Repository`), `store_laws.dfy` (module `StoreLaws`).

## Model

| member | source | states |
|---|---|---|
| `Domain.TodoTask.constructor` | domain/model/todo_task.py:3-6 | a new task has id 0, the given name (unchecked) and status false |
| `Domain.TodoTask.ChangeName` | domain/model/todo_task.py:8-12 | a present, non-empty name replaces the name and the task itself is returned; an empty or absent name raises ValueError and leaves the name; id and status never change |
| `Domain.TodoTask.ChangeTaskStatus` | domain/model/todo_task.py:14-16 | status becomes the argument, the task itself is returned, id and name are unchanged |
| `Domain.ChangeTaskStatusTwice` | domain/model/todo_task.py:14-16 | two status changes leave the task as a single change to the second value would: the last call wins and repeating a call is idempotent |
| `FakeMongoDb.NextFree` | infrastructure/fakeMongo.py:17-18 | the probing loop stops at an id not in the store, at or above its start, and every id it passed over is occupied (the least free id from the start) |
| `FakeMongoDb.Created` | infrastructure/fakeMongo.py:15-23 | create assigns an id not stored before and not below the counter; the store gains exactly that key, holding the given record with the new id; other entries are unchanged; the counter moves one past the id; under the counter invariant the id is the counter and the invariant is kept |
| `FakeMongoDb.Updated` | infrastructure/fakeMongo.py:32-38 | update raises KeyError exactly when the id is missing; otherwise only that entry is replaced, and the key set and counter stay the same; the counter invariant is kept |
| `FakeMongoDb.Deleted` | infrastructure/fakeMongo.py:40-42 | delete removes exactly the given key, leaves other entries and the counter unchanged, is a no-op for a missing id and keeps the counter invariant |
| `FakeMongoDb.DeleteIsIdempotent` | infrastructure/fakeMongo.py:40-42 | deleting the same id twice equals deleting it once |
| `FakeMongoDb.FakeCollection.constructor` | infrastructure/fakeMongo.py:11-13 | a new collection is empty with counter 0 and satisfies the counter invariant |
| `FakeMongoDb.FakeCollection.Create` | infrastructure/fakeMongo.py:15-23 | the probing loop terminates; the new state and the id written into the argument are those of `Created`; the argument's name and status are untouched and it is returned; from a valid state the id is the old counter and the state stays valid |
| `FakeMongoDb.FakeCollection.Read` | infrastructure/fakeMongo.py:25-30 | returns the stored record when the id is present and None otherwise; never raises, changes nothing |
| `FakeMongoDb.FakeCollection.Update` | infrastructure/fakeMongo.py:32-38 | a missing id raises KeyError and leaves records and counter unchanged; otherwise the argument is returned and the state is that of `Updated`; the counter invariant is kept |
| `FakeMongoDb.FakeCollection.Delete` | infrastructure/fakeMongo.py:40-42 | the new state is that of `Deleted`; the counter invariant is kept |
| `FakeMongoDb.FakeCollection.ListAll` | infrastructure/fakeMongo.py:44-46 | returns one record per stored id, each equal to the stored record, no id twice and none left out, so its length is the store size; changes nothing |
| `FakeMongoDb.FakeMongo.constructor` | infrastructure/fakeMongo.py:51-52 | a new database has no collections |
| `FakeMongoDb.FakeMongo.GetCollection` | infrastructure/fakeMongo.py:54-58 | an existing collection is returned and the registry is unchanged; an absent name gets a fresh empty collection registered under it; afterwards the name maps to the returned collection |
| `FakeMongoDb.FakeMongo.DelCollection` | infrastructure/fakeMongo.py:60-62 | the name is no longer registered, other names are kept, and an absent name is a no-op |
| `Repository.TaskRepository.constructor` | infrastructure/taskRepository.py:8-9 | the repository binds the collection registered as `Todo_Tasks`, which is created empty if absent and reused if present |
| `Repository.TaskRepository.CreateNewTask` | infrastructure/taskRepository.py:11-14 | returns a new task with the given name and status false, whose id was not stored before and now maps to a copy of it; from a valid collection the id is the old counter |
| `Repository.TaskRepository.GetTask` | infrastructure/taskRepository.py:16-18 | returns the stored task for the id, or None for an absent id; never raises |
| `Repository.TaskRepository.UpdateTask` | infrastructure/taskRepository.py:20-21 | addresses the store by the task's own id: KeyError and no change when it is not stored, otherwise that entry becomes a copy of the task and the task is returned |
| `Repository.TaskRepository.RemoveTask` | infrastructure/taskRepository.py:23-24 | deletes the entry for the id; an absent id changes nothing |
| `Repository.TaskRepository.ListAllTasks` | infrastructure/taskRepository.py:26-27 | returns one task per stored entry, as many as are stored |
| `Repository.SharedCollection` | infrastructure/taskRepository.py:8-9 | two repositories over one database share one collection: a task created through the first is found through the second |
| `StoreLaws.RunAssignsIncreasingIds` | infrastructure/fakeMongo.py:17-22 | over any sequence of creates, updates and deletes, one id is assigned per create, the counter never decreases, and the assigned ids are strictly increasing and so pairwise distinct, whatever was deleted in between |
| `StoreLaws.RunFromInvariantStore` | infrastructure/fakeMongo.py:12-22 | from a state with the counter invariant, every run keeps it, assigns exactly counter, counter + 1, ... in turn, moves the counter by the number of creates and never assigns an id that was stored at the start |
| `StoreLaws.DeletedIdIsNotReused` | infrastructure/fakeMongo.py:17-22 | create, create, delete the first id, create assigns 0, 1, 2 and leaves ids 1 and 2 stored |
| `StoreLaws.DeletedIdIsNotReusedOnCollection` | infrastructure/fakeMongo.py:15-42 | the same scenario run on a collection object gives the ids 0, 1 and 2 |

## Left out

- The HTTP routes and the application bootstrap (`router.py`, `wsgi.py`): their handlers return fixed strings or echo the request body.
- The service functions (`service.py`): each one only raises NotImplementedError.
- The mock-based service and API tests: what they expect is not backed by code in the core.
- Object identity and aliasing: `read` returns the stored object itself, so in Python a caller mutating it changes the store. Nothing else in the core shares objects this way. The model stores values, so it does not capture this sharing.
- Writes through the `file` property: the model exposes the field `files` as the read view only. Writing through the property could break the counter invariant. `FakeCollection.Create` does not require the invariant, so its loop is proved to terminate on any finite store.
- Records of any type: the collection stores any object, while the model stores tasks only, because `create` needs an `id` field to overwrite.
- Python truthiness: `change_name` takes an optional string, and `change_task_status` takes a `bool`, so `bool(isComplete)` is the identity.
- FakeMongoDb.FakeCollection.ListAll: does not state that records come out in insertion order, because the model has no order for dictionary iteration; it states one record per stored id.
- Repository.TaskRepository.ListAllTasks: does not state insertion order either, for the same reason.
- Exception messages: `KeyError` carries the missing id instead of the formatted text, and `ValueError` carries nothing.
