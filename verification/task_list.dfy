/** The task list of backend/main.py: an ordered sequence of `{id, name, done}`
    records and the read-modify steps the routes apply to it. */
module TaskList {
  import opened Results

  /** One record of the task file. Ids are whatever integers the file holds. */
  datatype Task = Task(id: int, name: string, done: bool)

  /** The only error the list logic raises: HTTP 404 "Task not found". */
  datatype TaskError = TaskNotFound

  /** The list after `add_task`, and the record it appended and returns. */
  datatype Created = Created(tasks: seq<Task>, task: Task)

  /** The list after `toggle_task`, and the new `done` value it returns. */
  datatype Toggled = Toggled(tasks: seq<Task>, done: bool)

  function Ids(tasks: seq<Task>): (ids: seq<int>)
    ensures |ids| == |tasks|
    ensures forall i :: 0 <= i < |tasks| ==> ids[i] == tasks[i].id
  {
    seq(|tasks|, i requires 0 <= i < |tasks| => tasks[i].id)
  }

  predicate HasId(tasks: seq<Task>, id: int) {
    exists i :: 0 <= i < |tasks| && tasks[i].id == id
  }

  predicate DistinctIds(tasks: seq<Task>) {
    forall i, j :: 0 <= i < |tasks| && 0 <= j < |tasks| && i != j ==> tasks[i].id != tasks[j].id
  }

  /** `k` is where a `for task in tasks: if task["id"] == id: … break` loop stops. */
  predicate IsFirstMatch(tasks: seq<Task>, id: int, k: int) {
    && 0 <= k < |tasks|
    && tasks[k].id == id
    && forall j :: 0 <= j < k ==> tasks[j].id != id
  }

  /** `before` and `after` have the same length and agree everywhere except at index `k`. */
  predicate OnlyChangedAt(before: seq<Task>, after: seq<Task>, k: int) {
    && |after| == |before|
    && forall j :: 0 <= j < |before| && j != k ==> after[j] == before[j]
  }

  /** Python's `max(task["id"] for task in tasks)` on a non-empty list. */
  function MaxId(tasks: seq<Task>): (m: int)
    requires |tasks| > 0
    ensures forall i :: 0 <= i < |tasks| ==> tasks[i].id <= m
    ensures HasId(tasks, m)
  {
    if |tasks| == 1 then tasks[0].id
    else
      var rest := MaxId(tasks[1..]);
      var i :| 0 <= i < |tasks[1..]| && tasks[1..][i].id == rest;
      assert tasks[i + 1].id == rest;
      if tasks[0].id >= rest then tasks[0].id else rest
  }

  /** `get_next_id`: one more than the largest id, or 1 for an empty list. */
  function NextId(tasks: seq<Task>): (r: int)
    ensures tasks == [] ==> r == 1
    ensures tasks != [] ==> HasId(tasks, r - 1)
    ensures forall i :: 0 <= i < |tasks| ==> tasks[i].id < r
    ensures !HasId(tasks, r)
  {
    if |tasks| == 0 then 1 else MaxId(tasks) + 1
  }

  /** The index at which the route's `for … break` loop stops, or None when the
      loop runs out and its `else` branch raises 404. */
  function FirstIndex(tasks: seq<Task>, id: int): (r: Option<nat>)
    ensures r.None? <==> !HasId(tasks, id)
    ensures r.Some? ==> IsFirstMatch(tasks, id, r.value)
  {
    if |tasks| == 0 then None
    else if tasks[0].id == id then Some(0)
    else match FirstIndex(tasks[1..], id)
      case None =>
        assert !HasId(tasks, id) by {
          forall i | 0 <= i < |tasks|
            ensures tasks[i].id != id
          {
            if i > 0 {
              assert tasks[1..][i - 1] == tasks[i];
            }
          }
        }
        None
      case Some(k) =>
        assert tasks[1..][k] == tasks[k + 1];
        Some(k + 1)
  }

  /** The list logic of `add_task`: a record with the next id, the given name and
      `done = false` goes on the end. The name is not validated. */
  function Add(tasks: seq<Task>, name: string): (r: Created)
    ensures r.task.name == name && !r.task.done
    ensures !HasId(tasks, r.task.id)
    ensures forall i :: 0 <= i < |tasks| ==> tasks[i].id < r.task.id
    ensures tasks == [] ==> r.task.id == 1
    ensures tasks != [] ==> HasId(tasks, r.task.id - 1)
    ensures |r.tasks| == |tasks| + 1
    ensures r.tasks[..|tasks|] == tasks
    ensures r.tasks[|tasks|] == r.task
  {
    var t := Task(NextId(tasks), name, false);
    Created(tasks + [t], t)
  }

  /** The list logic of `toggle_task`: flip `done` on the first record with the id
      and report the new value; a missing id is a 404 and nothing is written. */
  function Toggle(tasks: seq<Task>, id: int): (r: Result<Toggled, TaskError>)
    ensures r.Err? <==> !HasId(tasks, id)
    ensures forall k :: IsFirstMatch(tasks, id, k) ==>
      && r.Ok?
      && OnlyChangedAt(tasks, r.value.tasks, k)
      && r.value.tasks[k] == Task(id, tasks[k].name, !tasks[k].done)
      && r.value.done == !tasks[k].done
  {
    match FirstIndex(tasks, id)
    case None => Err(TaskNotFound)
    case Some(k) =>
      FirstMatchUnique(tasks, id, k);
      var flipped := !tasks[k].done;
      Ok(Toggled(tasks[k := tasks[k].(done := flipped)], flipped))
  }

  /** The list logic of `change_task_name`: overwrite the name of the first record
      with the id, accepting any string; a missing id is a 404 and nothing is written. */
  function Rename(tasks: seq<Task>, id: int, name: string): (r: Result<seq<Task>, TaskError>)
    ensures r.Err? <==> !HasId(tasks, id)
    ensures forall k :: IsFirstMatch(tasks, id, k) ==>
      && r.Ok?
      && OnlyChangedAt(tasks, r.value, k)
      && r.value[k] == Task(id, name, tasks[k].done)
  {
    match FirstIndex(tasks, id)
    case None => Err(TaskNotFound)
    case Some(k) =>
      FirstMatchUnique(tasks, id, k);
      Ok(tasks[k := tasks[k].(name := name)])
  }

  lemma FirstMatchUnique(tasks: seq<Task>, id: int, k: int)
    requires IsFirstMatch(tasks, id, k)
    ensures forall k' :: IsFirstMatch(tasks, id, k') ==> k' == k
  {
  }

  /** The search depends only on the ids, so a step that keeps every id keeps
      every search result: the first match is the same index in both lists. */
  lemma FirstIndexOnlyReadsIds(a: seq<Task>, b: seq<Task>, id: int)
    requires Ids(a) == Ids(b)
    ensures FirstIndex(a, id) == FirstIndex(b, id)
  {
  }

  /** Appending a fresh task keeps the ids distinct. */
  lemma AddKeepsIdsDistinct(tasks: seq<Task>, name: string)
    requires DistinctIds(tasks)
    ensures DistinctIds(Add(tasks, name).tasks)
  {
  }

  /** Toggling keeps every id, every name and the order of the records. */
  lemma ToggleKeepsIdsAndNames(tasks: seq<Task>, id: int)
    requires Toggle(tasks, id).Ok?
    ensures Ids(Toggle(tasks, id).value.tasks) == Ids(tasks)
    ensures forall i :: 0 <= i < |tasks| ==> Toggle(tasks, id).value.tasks[i].name == tasks[i].name
  {
  }

  /** Toggling the same id twice restores the original list, and the second call
      reports the original `done` value. */
  lemma ToggleTwiceRestores(tasks: seq<Task>, id: int)
    requires HasId(tasks, id)
    ensures var once := Toggle(tasks, id).value;
      Toggle(once.tasks, id) == Ok(Toggled(tasks, !once.done))
  {
    var k := FirstIndex(tasks, id).value;
    assert IsFirstMatch(tasks, id, k);
    var once := Toggle(tasks, id).value;
    ToggleKeepsIdsAndNames(tasks, id);
    FirstIndexOnlyReadsIds(tasks, once.tasks, id);
    assert IsFirstMatch(once.tasks, id, k);
    var twice := Toggle(once.tasks, id).value;
    assert twice.tasks == tasks by {
      forall j | 0 <= j < |tasks|
        ensures twice.tasks[j] == tasks[j]
      {
      }
    }
  }

  /** Renaming keeps every id, every `done` flag and the order of the records. */
  lemma RenameKeepsIdsAndFlags(tasks: seq<Task>, id: int, name: string)
    requires Rename(tasks, id, name).Ok?
    ensures Ids(Rename(tasks, id, name).value) == Ids(tasks)
    ensures forall i :: 0 <= i < |tasks| ==> Rename(tasks, id, name).value[i].done == tasks[i].done
  {
  }

  /** Renaming back to the old name restores the original list. */
  lemma RenameBackRestores(tasks: seq<Task>, id: int, name: string, k: nat)
    requires IsFirstMatch(tasks, id, k)
    ensures Rename(Rename(tasks, id, name).value, id, tasks[k].name) == Ok(tasks)
  {
    var once := Rename(tasks, id, name).value;
    RenameKeepsIdsAndFlags(tasks, id, name);
    FirstIndexOnlyReadsIds(tasks, once, id);
    assert IsFirstMatch(once, id, k);
    var twice := Rename(once, id, tasks[k].name).value;
    assert twice == tasks by {
      forall j | 0 <= j < |tasks|
        ensures twice[j] == tasks[j]
      {
      }
    }
  }

  /** Creating tasks one after another, as a run of `add_task` calls does. */
  function AddAll(tasks: seq<Task>, names: seq<string>): (r: seq<Task>)
    ensures |r| == |tasks| + |names|
    decreases |names|
  {
    if names == [] then tasks else AddAll(Add(tasks, names[0]).tasks, names[1..])
  }

  /** The ids of a list built up from empty are exactly 1, 2, 3, ... */
  predicate CountsFromOne(tasks: seq<Task>) {
    forall i :: 0 <= i < |tasks| ==> tasks[i].id == i + 1
  }

  /** Starting from a list numbered 1..n, each further creation takes the next
      number, so creations on an empty list receive 1, 2, 3, ... in call order,
      with the given names and `done = false`. */
  lemma {:induction false} AddAllCountsFromOne(tasks: seq<Task>, names: seq<string>)
    requires CountsFromOne(tasks)
    ensures CountsFromOne(AddAll(tasks, names))
    ensures forall i :: 0 <= i < |names| ==>
      AddAll(tasks, names)[|tasks| + i] == Task(|tasks| + i + 1, names[i], false)
    decreases |names|
  {
    if names != [] {
      var next := tasks + [Task(|tasks| + 1, names[0], false)];
      AddToCountedList(tasks, names[0]);
      assert AddAll(tasks, names) == AddAll(next, names[1..]);
      AddAllCountsFromOne(next, names[1..]);
      AddAllKeepsPrefix(next, names[1..]);
      NamedFromPrefix(tasks, names, next, AddAll(next, names[1..]));
    }
  }

  /** The bookkeeping step of the induction above: record |tasks| comes from the
      prefix, the later ones from the recursive call. */
  lemma NamedFromPrefix(tasks: seq<Task>, names: seq<string>, next: seq<Task>, all: seq<Task>)
    requires names != []
    requires next == tasks + [Task(|tasks| + 1, names[0], false)]
    requires |all| == |tasks| + |names|
    requires all[..|next|] == next
    requires forall i :: 0 <= i < |names| - 1 ==>
      all[|next| + i] == Task(|next| + i + 1, names[1..][i], false)
    ensures forall i :: 0 <= i < |names| ==>
      all[|tasks| + i] == Task(|tasks| + i + 1, names[i], false)
  {
    forall i | 0 <= i < |names|
      ensures all[|tasks| + i] == Task(|tasks| + i + 1, names[i], false)
    {
      if i == 0 {
        assert all[|tasks|] == all[..|next|][|tasks|];
      } else {
        assert all[|next| + (i - 1)] == Task(|next| + (i - 1) + 1, names[1..][i - 1], false);
      }
    }
  }

  /** On a list numbered 1..n, `add_task` appends record n + 1. */
  lemma AddToCountedList(tasks: seq<Task>, name: string)
    requires CountsFromOne(tasks)
    ensures Add(tasks, name).tasks == tasks + [Task(|tasks| + 1, name, false)]
    ensures CountsFromOne(Add(tasks, name).tasks)
  {
    var step := Add(tasks, name);
    if tasks != [] {
      assert tasks[|tasks| - 1].id == |tasks|;
    }
    assert step.task.id == |tasks| + 1;
    assert step.tasks == step.tasks[..|tasks|] + [step.tasks[|tasks|]];
  }

  /** Creating more tasks never disturbs the ones already there. */
  lemma {:induction false} AddAllKeepsPrefix(tasks: seq<Task>, names: seq<string>)
    ensures AddAll(tasks, names)[..|tasks|] == tasks
    decreases |names|
  {
    if names != [] {
      var step := Add(tasks, names[0]);
      AddAllKeepsPrefix(step.tasks, names[1..]);
      assert AddAll(tasks, names)[..|step.tasks|][..|tasks|] == AddAll(tasks, names)[..|tasks|];
    }
  }
}
