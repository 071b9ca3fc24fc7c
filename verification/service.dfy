/** The route handlers and the WebSocket endpoint of backend/main.py as sequential
    steps over the process state: each task route reads the task file, changes the
    list, writes the whole list back, then broadcasts "task_updated"; a 404 stops
    before the write and the broadcast. There is no lock and no rollback. */
module Service {
  import opened Results
  import opened TaskList
  import opened Listeners

  /** The only message `broadcast` is ever given. */
  const TaskUpdated: string := "task_updated"

  /** The process state: the task file (None while it does not exist) and the
      global `connections` list. */
  datatype Server = Server(file: Option<seq<Task>>, conns: seq<Socket>)

  datatype Request =
    | GetTasks
    | AddTask(name: string)
    | ToggleTask(id: int)
    | ChangeTaskName(id: int, newName: string)
    | Open(ws: Socket)
    | Close(ws: Socket)

  /** What the caller sees. `SendFailed` is an exception other than
      `WebSocketDisconnect` escaping `broadcast`; `NotConnected` is the ValueError
      of `connections.remove` in the endpoint. */
  datatype Reply =
    | Listing(tasks: seq<Task>)
    | NewTask(task: Task)
    | DoneState(done: bool)
    | TaskUpdatedReply
    | NotFound
    | SendFailed
    | Accepted
    | Closed
    | NotConnected

  /** The state after a request, its reply, and the sockets `broadcast` tried. */
  datatype Step = Step(server: Server, reply: Reply, attempted: seq<Socket>)

  /** `read_tasks`: the list in the file, where a missing file reads as empty. */
  function ReadTasks(file: Option<seq<Task>>): (r: seq<Task>)
    ensures file.None? ==> r == []
    ensures forall tasks :: file == Some(tasks) ==> r == tasks
  {
    match file
    case None => []
    case Some(tasks) => tasks
  }

  /** Write the whole list, then broadcast. The write has happened whatever the
      broadcast does; an escaping send exception leaves the connection list as it was. */
  function WriteAndBroadcast(s: Server, tasks: seq<Task>, ok: Reply, send: (Socket, string) -> SendOutcome): (r: Step)
    ensures r.server.file == Some(tasks)
    ensures !AnyRaised(s.conns, send, TaskUpdated) ==>
      && r.reply == ok
      && r.attempted == s.conns
      && r.server.conns == Survivors(s.conns, send, TaskUpdated)
    ensures AnyRaised(s.conns, send, TaskUpdated) ==> r.reply == SendFailed && r.server.conns == s.conns
  {
    match DoBroadcast(s.conns, send, TaskUpdated)
    case Pruned(conns, attempted) => Step(Server(Some(tasks), conns), ok, attempted)
    case Aborted(attempted) => Step(Server(Some(tasks), s.conns), SendFailed, attempted)
  }

  /** `get_tasks`: return the stored list; reading a missing file creates it empty. */
  function HandleGetTasks(s: Server): (r: Step)
    ensures r.reply == Listing(ReadTasks(s.file))
    ensures ReadTasks(r.server.file) == ReadTasks(s.file) && r.server.file.Some?
    ensures r.server.conns == s.conns && r.attempted == []
  {
    var tasks := ReadTasks(s.file);
    Step(Server(Some(tasks), s.conns), Listing(tasks), [])
  }

  /** `add_task`: append a fresh record with the given name, write, broadcast, and
      return the record. */
  function HandleAddTask(s: Server, name: string, send: (Socket, string) -> SendOutcome): (r: Step)
    ensures var before := ReadTasks(s.file);
      var after := ReadTasks(r.server.file);
      && |after| == |before| + 1
      && after[..|before|] == before
      && after[|before|].name == name && !after[|before|].done
      && (forall i :: 0 <= i < |before| ==> before[i].id < after[|before|].id)
      && (before == [] ==> after[|before|].id == 1)
      && (before != [] ==> HasId(before, after[|before|].id - 1))
    ensures !AnyRaised(s.conns, send, TaskUpdated) ==>
      && r.reply == NewTask(ReadTasks(r.server.file)[|ReadTasks(s.file)|])
      && r.server.conns == Survivors(s.conns, send, TaskUpdated)
      && r.attempted == s.conns
    ensures AnyRaised(s.conns, send, TaskUpdated) ==> r.reply == SendFailed && r.server.conns == s.conns
  {
    var c := Add(ReadTasks(s.file), name);
    WriteAndBroadcast(s, c.tasks, NewTask(c.task), send)
  }

  /** `toggle_task`: flip `done` on the first record with the id, write, broadcast,
      and return the new value; a missing id is a 404 with nothing written or sent. */
  function HandleToggleTask(s: Server, id: int, send: (Socket, string) -> SendOutcome): (r: Step)
    ensures !HasId(ReadTasks(s.file), id) ==>
      && r.reply == NotFound
      && ReadTasks(r.server.file) == ReadTasks(s.file)
      && r.server.conns == s.conns && r.attempted == []
    ensures forall k :: IsFirstMatch(ReadTasks(s.file), id, k) ==>
      var before := ReadTasks(s.file);
      && OnlyChangedAt(before, ReadTasks(r.server.file), k)
      && ReadTasks(r.server.file)[k] == before[k].(done := !before[k].done)
      && (!AnyRaised(s.conns, send, TaskUpdated) ==> r.reply == DoneState(!before[k].done))
    ensures HasId(ReadTasks(s.file), id) && !AnyRaised(s.conns, send, TaskUpdated) ==>
      r.server.conns == Survivors(s.conns, send, TaskUpdated) && r.attempted == s.conns
    ensures HasId(ReadTasks(s.file), id) && AnyRaised(s.conns, send, TaskUpdated) ==>
      r.reply == SendFailed && r.server.conns == s.conns
  {
    var tasks := ReadTasks(s.file);
    match Toggle(tasks, id)
    case Err(_) => Step(Server(Some(tasks), s.conns), NotFound, [])
    case Ok(t) => WriteAndBroadcast(s, t.tasks, DoneState(t.done), send)
  }

  /** `change_task_name`: overwrite the name of the first record with the id (any
      string, the empty one included), write and broadcast; a missing id is a 404
      with nothing written or sent. */
  function HandleChangeTaskName(s: Server, id: int, newName: string, send: (Socket, string) -> SendOutcome): (r: Step)
    ensures !HasId(ReadTasks(s.file), id) ==>
      && r.reply == NotFound
      && ReadTasks(r.server.file) == ReadTasks(s.file)
      && r.server.conns == s.conns && r.attempted == []
    ensures forall k :: IsFirstMatch(ReadTasks(s.file), id, k) ==>
      var before := ReadTasks(s.file);
      && OnlyChangedAt(before, ReadTasks(r.server.file), k)
      && ReadTasks(r.server.file)[k] == before[k].(name := newName)
      && (!AnyRaised(s.conns, send, TaskUpdated) ==> r.reply == TaskUpdatedReply)
    ensures HasId(ReadTasks(s.file), id) && !AnyRaised(s.conns, send, TaskUpdated) ==>
      r.server.conns == Survivors(s.conns, send, TaskUpdated) && r.attempted == s.conns
    ensures HasId(ReadTasks(s.file), id) && AnyRaised(s.conns, send, TaskUpdated) ==>
      r.reply == SendFailed && r.server.conns == s.conns
  {
    var tasks := ReadTasks(s.file);
    match Rename(tasks, id, newName)
    case Err(_) => Step(Server(Some(tasks), s.conns), NotFound, [])
    case Ok(renamed) => WriteAndBroadcast(s, renamed, TaskUpdatedReply, send)
  }

  /** The connect step of `websocket_endpoint`: the accepted socket is appended. */
  function HandleOpen(s: Server, ws: Socket): (r: Step)
    ensures r.server.file == s.file && r.reply == Accepted && r.attempted == []
    ensures |r.server.conns| == |s.conns| + 1
    ensures r.server.conns[..|s.conns|] == s.conns && r.server.conns[|s.conns|] == ws
  {
    Step(s.(conns := Connect(s.conns, ws)), Accepted, [])
  }

  /** The disconnect step of `websocket_endpoint`: `connections.remove(ws)`, which
      raises ValueError when the socket is no longer listed. */
  function HandleClose(s: Server, ws: Socket): (r: Step)
    ensures r.server.file == s.file && r.attempted == []
    ensures r.reply == NotConnected <==> ws !in s.conns
    ensures r.reply == NotConnected ==> r.server == s
    ensures r.reply != NotConnected ==> r.reply == Closed && Some(r.server.conns) == Remove(s.conns, ws)
  {
    match Remove(s.conns, ws)
    case None => Step(s, NotConnected, [])
    case Some(conns) => Step(s.(conns := conns), Closed, [])
  }

  /** One request, dispatched as the routes and the endpoint are. */
  function Handle(s: Server, req: Request, send: (Socket, string) -> SendOutcome): (r: Step) {
    match req
    case GetTasks => HandleGetTasks(s)
    case AddTask(name) => HandleAddTask(s, name, send)
    case ToggleTask(id) => HandleToggleTask(s, id, send)
    case ChangeTaskName(id, newName) => HandleChangeTaskName(s, id, newName, send)
    case Open(ws) => HandleOpen(s, ws)
    case Close(ws) => HandleClose(s, ws)
  }

  /** What stays true between requests: task ids are distinct and each socket is
      listed at most once. */
  predicate Valid(s: Server) {
    DistinctIds(ReadTasks(s.file)) && Distinct(s.conns)
  }

  /** Every request keeps the server valid, provided each opened socket is a new one. */
  lemma HandleKeepsValid(s: Server, req: Request, send: (Socket, string) -> SendOutcome)
    requires Valid(s)
    requires req.Open? ==> req.ws !in s.conns
    ensures Valid(Handle(s, req, send).server)
  {
    var r := Handle(s, req, send);
    var tasks := ReadTasks(s.file);
    match req
    case GetTasks =>
    case AddTask(name) =>
      AddKeepsIdsDistinct(tasks, name);
      BroadcastKeepsDistinct(s, Add(tasks, name).tasks, NewTask(Add(tasks, name).task), send);
    case ToggleTask(id) =>
      if HasId(tasks, id) {
        var t := Toggle(tasks, id).value;
        ToggleKeepsIdsAndNames(tasks, id);
        DistinctIdsFromIds(tasks, t.tasks);
        BroadcastKeepsDistinct(s, t.tasks, DoneState(t.done), send);
      }
    case ChangeTaskName(id, newName) =>
      if HasId(tasks, id) {
        var renamed := Rename(tasks, id, newName).value;
        RenameKeepsIdsAndFlags(tasks, id, newName);
        DistinctIdsFromIds(tasks, renamed);
        BroadcastKeepsDistinct(s, renamed, TaskUpdatedReply, send);
      }
    case Open(ws) =>
      assert r.server.conns == s.conns + [ws];
    case Close(ws) =>
      if ws in s.conns {
        RemoveFromDistinct(s.conns, ws);
      }
  }

  lemma BroadcastKeepsDistinct(s: Server, tasks: seq<Task>, ok: Reply, send: (Socket, string) -> SendOutcome)
    requires Distinct(s.conns)
    ensures Distinct(WriteAndBroadcast(s, tasks, ok, send).server.conns)
  {
    SurvivorsKeepDistinct(s.conns, send, TaskUpdated);
  }

  lemma DistinctIdsFromIds(a: seq<Task>, b: seq<Task>)
    requires DistinctIds(a) && Ids(a) == Ids(b)
    ensures DistinctIds(b)
  {
  }

  /** Starting from no file and no listeners: create "buy milk", toggle it, rename it
      to "buy oat milk", list. The record gets id 1, toggling reports `true`, and the
      list ends as the single renamed, done record. */
  lemma EndToEnd(send: (Socket, string) -> SendOutcome)
    ensures var s0 := Server(None, []);
      var s1 := Handle(s0, AddTask("buy milk"), send);
      var s2 := Handle(s1.server, ToggleTask(1), send);
      var s3 := Handle(s2.server, ChangeTaskName(1, "buy oat milk"), send);
      var s4 := Handle(s3.server, GetTasks, send);
      && s1.reply == NewTask(Task(1, "buy milk", false))
      && s2.reply == DoneState(true)
      && s3.reply == TaskUpdatedReply
      && s4.reply == Listing([Task(1, "buy oat milk", true)])
  {
    var s1 := Handle(Server(None, []), AddTask("buy milk"), send);
    assert ReadTasks(s1.server.file) == [Task(1, "buy milk", false)];
    var s2 := Handle(s1.server, ToggleTask(1), send);
    assert IsFirstMatch(ReadTasks(s1.server.file), 1, 0);
    assert ReadTasks(s2.server.file) == [Task(1, "buy milk", true)];
    var s3 := Handle(s2.server, ChangeTaskName(1, "buy oat milk"), send);
    assert IsFirstMatch(ReadTasks(s2.server.file), 1, 0);
    assert ReadTasks(s3.server.file) == [Task(1, "buy oat milk", true)];
  }

  /** A socket that `broadcast` pruned is gone by the time its own endpoint sees the
      disconnect, so the endpoint's `connections.remove` raises ValueError; the list
      is already right, and nothing else changes. This holds after every route
      that writes and broadcasts. */
  lemma CloseAfterPruneRaises(s: Server, tasks: seq<Task>, ok: Reply, send: (Socket, string) -> SendOutcome, ws: Socket)
    requires ws in s.conns && send(ws, TaskUpdated) == Disconnected
    requires !AnyRaised(s.conns, send, TaskUpdated)
    ensures var after := WriteAndBroadcast(s, tasks, ok, send).server;
      && ws !in after.conns
      && HandleClose(after, ws) == Step(after, NotConnected, [])
  {
  }
}
