# Task list service: task store and WebSocket fan-out

A Dafny model of the backend of a small task-list web service (`backend/main.py`).
The service keeps an ordered list of `{id, name, done}` records in a JSON file
and serves four HTTP routes: list, create, toggle and rename. It also serves a
WebSocket endpoint. Every accepted WebSocket is appended to a global
`connections` list. After each change, `broadcast("task_updated")` sends that
literal string to every listed socket. It then drops the sockets whose send
raised `WebSocketDisconnect`.

The model has four modules:

- `Results` (`results.dfy`): `Option` and `Result`.
- `TaskList` (`task_list.dfy`): the `Task` record and the list logic of the
  routes, as pure functions over `seq<Task>`:
  - `get_next_id` (`MaxId`, `NextId`);
  - the `for … break … else: 404` search (`FirstIndex`);
  - `Add`, `Toggle` and `Rename`.
- `Listeners` (`listeners.dfy`): the connection list.
  - Connecting appends a socket.
  - Python's `list.remove` is modelled exactly: it removes the first
    occurrence, or raises ValueError (None) when the socket is absent.
  - `broadcast` is modelled as its two loops. `Deliver` sends and collects the
    dead sockets. `RemoveEach` removes them one by one. `DoBroadcast` combines
    the two.
  - A send is a parameter `send: (Socket, string) -> SendOutcome`.
    `Sent` means delivered. `Disconnected` is `WebSocketDisconnect`, which
    `broadcast` catches. `Raised` is any other exception. It escapes
    `broadcast`, skips the remaining sends and leaves the list untouched.
- `Service` (`service.dfy`): the route handlers and the endpoint's
  connect/disconnect steps, as steps over a `Server` state. The state holds the
  task file (`None` while the file does not exist) and the connection list. A
  handler reads the file, changes the list, writes the whole list back and
  broadcasts. A 404 stops before the write and before the broadcast.

The main proved properties:

- **Fresh ids.** `NextId` is 1 on an empty list. Otherwise it is exactly one
  more than the largest id, so it is not already in the list. Adding a task
  keeps ids distinct. Creations on an empty store receive 1, 2, 3, … in call
  order.
- **Toggle and rename.**
  - They change only the first record with the id, and only its `done` flag or
    its name.
  - Length, order and ids stay the same.
  - Toggling twice restores the list. Renaming back restores it too.
  - An absent id is a not-found error. The list is not changed and nothing is
    broadcast.
- **Broadcast.** When no send raises an exception other than
  `WebSocketDisconnect`:
  - every socket listed at the start is tried;
  - the two loops together leave exactly the original list filtered to the
    sockets whose send did not report a disconnect, in order;
  - no removal raises.

  This holds for any list, with or without repeated sockets, given that
  `send` gives each socket one fixed outcome. In the program, a socket listed
  twice is sent to twice, and the two sends may differ. When a send
  raises any other exception, the send loop stops at that socket, nothing is
  pruned and the exception escapes.
- **Connect and disconnect.** Connecting appends the socket at the end. On a
  list of distinct sockets, disconnecting removes exactly that socket. Every
  request keeps "ids distinct and sockets distinct", given that each opened
  socket is new.

Behaviours of the code worth knowing:

- There is no lock. The async routes do not await between reading and writing the file, so they cannot interleave there. The synchronous listing route runs in a worker thread, so it can interleave with them.
- There is no name validation on the server. The empty name is accepted.
- There is no delete route.
- There are no event kinds: every change broadcasts the string `"task_updated"`.
- There is no rollback. The file is written before the broadcast, so the change
  stays even when a send exception escapes `broadcast` and the request fails.
- `broadcast` iterates the live list rather than a snapshot.
- Disconnect is not idempotent. If `broadcast` already pruned a socket, that
  socket's own endpoint calls `connections.remove` on a socket that is no longer
  listed, which raises ValueError (`Service.CloseAfterPruneRaises`). The list
  is already right at that point, so the only effect is the exception.

## Model

| member | source | states |
|---|---|---|
| `TaskList.MaxId` | backend/main.py:54 | the maximum of a non-empty list of ids is at least every id and is itself one of the ids |
| `TaskList.NextId` | backend/main.py:50-54 | the next id is 1 for an empty list; otherwise it exceeds every id while its predecessor is present (so it is exactly max + 1), and it is not already in the list |
| `TaskList.FirstIndex` | backend/main.py:116-122 | the search finds nothing exactly when no record has the id, and otherwise stops at the first record with the id |
| `TaskList.Add` | backend/main.py:99-104 | the new record has the given name, `done = false` and an id fresh and greater than every existing id (1 on an empty list); the list grows by exactly that record at the end, with all earlier records unchanged and in order |
| `TaskList.AddKeepsIdsDistinct` | backend/main.py:100-104 | adding a task to a list with distinct ids leaves the ids distinct |
| `TaskList.AddAllCountsFromOne` | backend/main.py:97-104 | successive creations starting from an empty list get ids 1, 2, 3, … in call order, with their names and `done = false` |
| `TaskList.Toggle` | backend/main.py:116-122 | an absent id is a not-found error; otherwise only the first record with the id changes, with its `done` flag flipped, length and order kept, and the new value is returned |
| `TaskList.ToggleKeepsIdsAndNames` | backend/main.py:116-120 | toggling keeps the sequence of ids and every name |
| `TaskList.ToggleTwiceRestores` | backend/main.py:116-126 | toggling the same id twice gives back the original list, and the second call reports the original flag |
| `TaskList.Rename` | backend/main.py:132-137 | an absent id is a not-found error; otherwise only the first record with the id changes, taking the new name (any string), with length and order kept |
| `TaskList.RenameKeepsIdsAndFlags` | backend/main.py:132-135 | renaming keeps the sequence of ids and every `done` flag |
| `TaskList.RenameBackRestores` | backend/main.py:132-135 | renaming a record and then renaming it back to its old name gives back the original list |
| `TaskList.FirstIndexOnlyReadsIds` | backend/main.py:116-117 | two lists with the same ids in the same order give the same search result |
| `Listeners.Connect` | backend/main.py:150 | connecting appends the socket at the end and keeps the earlier sockets in order |
| `Listeners.Remove` | backend/main.py:84 | `list.remove` fails exactly when the socket is absent; otherwise it drops the first occurrence and keeps the rest in order |
| `Listeners.Survivors` | backend/main.py:77-84 | the sockets that survive a broadcast are exactly those listed whose send did not report a disconnect |
| `Listeners.Deliver` | backend/main.py:77-82 | the send loop stops early exactly when some send raises an uncaught exception, trying every socket up to and including the first such one; otherwise it tries every socket in order; the sockets it collects are exactly the attempted ones whose send reported a disconnect |
| `Listeners.RemoveEach` | backend/main.py:83-84 | when every removal succeeds, the result is the list with exactly one copy of each dead socket taken out (as multisets), so it is shorter by the number of dead sockets |
| `Listeners.PruneKeepsSurvivors` | backend/main.py:77-84 | removing the collected dead sockets one by one never raises and leaves the list filtered to the survivors, in their original order |
| `Listeners.DoBroadcast` | backend/main.py:75-84 | broadcast fails exactly when an uncaught send exception occurs, after trying every socket up to and including the first one that raised; otherwise it tries every listed socket and leaves exactly the survivors in order |
| `Listeners.SurvivorsKeepDistinct` | backend/main.py:83-84 | pruning a list of distinct sockets leaves them distinct |
| `Listeners.RemoveFromDistinct` | backend/main.py:155 | on a list of distinct sockets, disconnecting removes exactly the closing socket, keeps the others in order and leaves them distinct |
| `Listeners.DisconnectUndoesConnect` | backend/main.py:150-155 | connecting a new socket and then disconnecting it gives back the original list |
| `Listeners.PrunedSocketCannotBeRemoved` | backend/main.py:154-155 | after a broadcast that pruned a socket, removing that socket raises ValueError |
| `Service.ReadTasks` | backend/main.py:57-66 | a missing task file reads as the empty list; an existing file reads back exactly the list last written to it |
| `Service.WriteAndBroadcast` | backend/main.py:105-108 | the new list is written whatever happens next; without an uncaught send exception, every listed socket is tried, the list becomes the survivors and the success reply is given; with one, the request fails and the connection list is unchanged |
| `Service.HandleGetTasks` | backend/main.py:90-93 | listing returns the stored tasks; its read of a missing file yields the empty list and creates the file; nothing else changes and no socket is tried |
| `Service.HandleAddTask` | backend/main.py:96-110 | the stored list grows by one record at the end with the given name, `done = false` and an id exactly one more than the largest stored id (1 on an empty store); the earlier records are unchanged; without an uncaught send exception the record is returned, every listed socket is tried and the listeners are pruned to the survivors; with one, the request fails after the write and the listeners are unchanged |
| `Service.HandleToggleTask` | backend/main.py:113-126 | an absent id replies not-found, with the stored list and listeners unchanged and no socket tried; otherwise only the first matching record's flag flips and the new value is returned; without an uncaught send exception every listed socket is tried and the listeners are pruned to the survivors; with one, the request fails after the write and the listeners are unchanged |
| `Service.HandleChangeTaskName` | backend/main.py:129-141 | an absent id replies not-found, with the stored list and listeners unchanged and no socket tried; otherwise only the first matching record's name changes, to any string; without an uncaught send exception every listed socket is tried and the listeners are pruned to the survivors; with one, the request fails after the write and the listeners are unchanged |
| `Service.HandleOpen` | backend/main.py:147-150 | an accepted socket is appended at the end of the listeners; the tasks are untouched |
| `Service.HandleClose` | backend/main.py:151-155 | disconnecting fails with ValueError exactly when the socket is no longer listed, and then nothing changes; otherwise the socket's first occurrence is removed |
| `Service.HandleKeepsValid` | backend/main.py:96-155 | every request keeps task ids distinct and sockets distinct, given that each opened socket is new |
| `Service.EndToEnd` | backend/main.py:96-141 | from no file: create "buy milk" gets id 1, toggling it reports true, renaming it replies updated, and listing shows the one renamed, done record |
| `Service.CloseAfterPruneRaises` | backend/main.py:154-155 | after any route's write and broadcast in which a socket reported a disconnect, that socket is gone, and its own disconnect step raises ValueError while changing nothing |

## Left out

- FastAPI routing, pydantic request and response models, CORS middleware and the uvicorn start-up: these are framework plumbing. HTTP 404 is the `NotFound` reply and `TaskNotFound` error only.
- JSON persistence: the file is an `Option<seq<Task>>`, and reading or writing it always succeeds. Failed writes, unreadable or malformed JSON, and records that lack fields are not modelled. They are file I/O and parsing.
- async/await and concurrency: each request is one atomic step, and this model does not cover interleavings. The async routes have no `await` between reading and writing the file, and one event loop runs them, so two of them cannot interleave their read-modify-write. The interleavings that can happen are these:
  - While `broadcast` awaits a send, a socket can connect or disconnect. The send loop walks the live list, so it can then skip a socket.
  - A dead socket that `broadcast` collected can be removed first by its own endpoint or by a concurrent `broadcast`. Then `connections.remove` raises ValueError after the write. In the sequential model no such removal raises.
  - The synchronous `get_tasks` runs in a worker thread. It can read a half-written file, or re-create a missing file over a concurrent create.
- `send_text` and `receive_text` are foreign calls. A send is the `send` parameter. The endpoint's keep-alive receive loop is reduced to its disconnect step.
- Delete: the backend has no delete handler, although the web UI issues a DELETE request.
- The React front end: its components and their client-side empty-name checks.
