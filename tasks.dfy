/**
 * The circular task list that decides an aircraft's phase: the five task types, the fixed
 * table of legal successors, the validity rule the constructor enforces, and the TaskList
 * object with its cursor.
 */
module Tasks {
  import opened Outcomes
  import opened JavaText

  datatype TaskType = AWAY | LAND | WAIT | LOAD | TAKEOFF

  /** A task: its type, and the load percentage, which is 0 for tasks built without one. */
  datatype Task = Task(kind: TaskType, loadPercent: int)

  /** The enum constant's name. */
  function TypeName(k: TaskType): string {
    match k
    case AWAY => "AWAY"
    case LAND => "LAND"
    case WAIT => "WAIT"
    case LOAD => "LOAD"
    case TAKEOFF => "TAKEOFF"
  }

  /** TaskType.valueOf: the constant with exactly this name, None for IllegalArgumentException. */
  function TypeValueOf(name: string): (r: Option<TaskType>)
    ensures forall k :: r == Some(k) <==> TypeName(k) == name
  {
    if name == "AWAY" then Some(AWAY)
    else if name == "LAND" then Some(LAND)
    else if name == "WAIT" then Some(WAIT)
    else if name == "LOAD" then Some(LOAD)
    else if name == "TAKEOFF" then Some(TAKEOFF)
    else None
  }

  /** Task.encode: the type name, and for LOAD also "@" and the load percentage. */
  function EncodeTask(t: Task): string {
    if t.kind == LOAD then "LOAD@" + IntToString(t.loadPercent) else TypeName(t.kind)
  }

  /** Task.toString: the type name, and for LOAD " at <percent>%". */
  function TaskDisplay(t: Task): string {
    if t.kind == LOAD then "LOAD at " + IntToString(t.loadPercent) + "%" else TypeName(t.kind)
  }

  /** The task types that may follow a task of type `k` in a task list. */
  function Successors(k: TaskType): set<TaskType> {
    match k
    case AWAY => {LAND, AWAY}
    case LAND => {WAIT, LOAD}
    case WAIT => {WAIT, LOAD}
    case LOAD => {TAKEOFF}
    case TAKEOFF => {AWAY}
  }

  /** The successor of position i in a circular list of length n. */
  function Succ(i: nat, n: nat): nat
    requires i < n
  {
    if i + 1 == n then 0 else i + 1
  }

  /** The task after position i, circularly, may follow the task at i. */
  predicate LegalStep(ts: seq<Task>, i: nat)
    requires i < |ts|
  {
    ts[Succ(i, |ts|)].kind in Successors(ts[i].kind)
  }

  /**
   * The rule the TaskList constructor enforces: the list is not empty, a list of one task holds
   * AWAY or WAIT, and every task, the last one with the first, is followed by a legal successor.
   */
  predicate ValidSequence(ts: seq<Task>) {
    && |ts| > 0
    && (|ts| == 1 ==> ts[0].kind == AWAY || ts[0].kind == WAIT)
    && forall i :: 0 <= i < |ts| ==> LegalStep(ts, i)
  }

  /** The single-task rule adds nothing to the table: only AWAY and WAIT may follow themselves. */
  lemma SingleTaskRuleFollowsFromTable(ts: seq<Task>)
    requires |ts| > 0
    ensures ValidSequence(ts)
        <==> forall i :: 0 <= i < |ts| ==> LegalStep(ts, i)
  {
    if |ts| == 1 && LegalStep(ts, 0) {
      assert ts[0].kind == AWAY || ts[0].kind == WAIT;
    }
  }

  /** A list of one task is accepted exactly when that task is AWAY or WAIT. */
  lemma SingleTaskList(t: Task)
    ensures ValidSequence([t]) <==> t.kind == AWAY || t.kind == WAIT
  {
    assert LegalStep([t], 0) <==> t.kind in Successors(t.kind);
  }

  /** The constructor's validation loop: false wherever the constructor throws IllegalArgumentException. */
  method CheckTaskSequence(tasks: seq<Task>) returns (ok: bool)
    ensures ok <==> ValidSequence(tasks)
  {
    if |tasks| == 0 {
      return false;
    }
    var i := 0;
    while i < |tasks|
      invariant 0 <= i <= |tasks|
      invariant forall j :: 0 <= j < i ==> LegalStep(tasks, j)
      invariant |tasks| == 1 && i > 0 ==> tasks[0].kind == AWAY || tasks[0].kind == WAIT
    {
      var currentTask := tasks[i].kind;
      var nextTask: TaskType;
      if |tasks| <= 1 {
        if !(currentTask == AWAY || currentTask == WAIT) {
          return false;
        }
      }
      if i + 1 >= |tasks| {
        nextTask := tasks[0].kind;
      } else {
        nextTask := tasks[i + 1].kind;
      }
      assert LegalStep(tasks, i) <==> nextTask in Successors(currentTask);
      if currentTask == AWAY && !(nextTask == LAND || nextTask == AWAY) {
        return false;
      }
      if currentTask == LAND && !(nextTask == WAIT || nextTask == LOAD) {
        return false;
      }
      if currentTask == WAIT && !(nextTask == WAIT || nextTask == LOAD) {
        return false;
      }
      if currentTask == LOAD && !(nextTask == TAKEOFF) {
        return false;
      }
      if currentTask == TAKEOFF && !(nextTask == AWAY) {
        return false;
      }
      i := i + 1;
    }
    return true;
  }

  // ---------------------------------------------------------------------------------------
  // Rotation: the list as seen from a cursor

  /** Reduction modulo n of a number below 2n. */
  lemma ModSmall(x: nat, n: nat)
    requires x < 2 * n
    ensures x % n == if x < n then x else x - n
  {
  }

  /** x reduced below n by at most one subtraction. */
  function Wrap(x: nat, n: nat): (r: nat)
    requires x < 2 * n
    ensures r < n && (r == x || r == x - n)
  {
    if x < n then x else x - n
  }

  /** Wrap is x mod n: the source's `% size`. */
  lemma WrapIsMod(x: nat, n: nat)
    requires x < 2 * n
    ensures Wrap(x, n) == x % n
  {
    ModSmall(x, n);
  }

  /** The tasks of `ts` read circularly from position c. */
  function Rotate(ts: seq<Task>, c: nat): (r: seq<Task>)
    requires c < |ts|
    ensures |r| == |ts| && r[0] == ts[c]
  {
    ts[c..] + ts[..c]
  }

  /** Entry k of the list read from c is entry c + k of the list, wrapping around once. */
  lemma RotateEntry(ts: seq<Task>, c: nat, k: nat)
    requires c < |ts| && k < |ts|
    ensures Rotate(ts, c)[k] == ts[Wrap(c + k, |ts|)]
  {
  }

  /** The successor of position k in the rotated list is the successor of position c + k in the list. */
  lemma RotateSucc(ts: seq<Task>, c: nat, k: nat)
    requires c < |ts| && k < |ts|
    ensures Rotate(ts, c)[Succ(k, |ts|)] == ts[Succ(Wrap(c + k, |ts|), |ts|)]
  {
    RotateEntry(ts, c, Succ(k, |ts|));
  }

  /** Validity does not depend on where the circular list is read from. */
  lemma {:induction false} RotationPreservesValidity(ts: seq<Task>, c: nat)
    requires ValidSequence(ts) && c < |ts|
    ensures ValidSequence(Rotate(ts, c))
  {
    var n := |ts|;
    var r := Rotate(ts, c);
    forall k | 0 <= k < n ensures LegalStep(r, k) {
      RotateSucc(ts, c, k);
      RotateEntry(ts, c, k);
      var j := Wrap(c + k, n);
      assert r[k] == ts[j];
      assert LegalStep(ts, j);
    }

  }

  /** The encodings of `ts`, one token per task. */
  function TaskTokens(ts: seq<Task>): (r: seq<string>)
    ensures |r| == |ts| && forall k :: 0 <= k < |ts| ==> r[k] == EncodeTask(ts[k])
  {
    seq(|ts|, k requires 0 <= k < |ts| => EncodeTask(ts[k]))
  }

  /** The encodings of `ts`, in order, separated by commas. */
  function EncodeTasks(ts: seq<Task>): string {
    Join(TaskTokens(ts), ",")
  }

  /** The encoding of one task is its token alone. */
  lemma EncodeTasksOfOne(ts: seq<Task>)
    requires |ts| >= 1
    ensures EncodeTasks(ts[..1]) == EncodeTask(ts[0])
  {
    assert TaskTokens(ts[..1]) == [EncodeTask(ts[0])];
  }

  /** Encoding one more task of `ts` appends a comma and that task's token. */
  lemma EncodeTasksStep(ts: seq<Task>, i: nat)
    requires 1 <= i < |ts|
    ensures EncodeTasks(ts[..i + 1]) == EncodeTasks(ts[..i]) + "," + EncodeTask(ts[i])
  {
    var tokens := TaskTokens(ts[..i + 1]);
    var shorter := TaskTokens(ts[..i]);
    forall k | 0 <= k < i
      ensures tokens[..i][k] == shorter[k]
    {
      assert ts[..i + 1][k] == ts[..i][k];
    }
    assert tokens[..i] == shorter;
    JoinPrefixStep(tokens, i, ",");
  }

  /** The cursor after k calls to moveToNextTask, starting from i. */
  function CursorAfter(i: nat, n: nat, k: nat): (j: nat)
    requires i < n
    ensures j < n
  {
    if k == 0 then i else Succ(CursorAfter(i, n, k - 1), n)
  }

  /** k moves from i, for k up to n, reach (i + k) mod n; in particular n moves come back to i. */
  lemma {:induction false} CursorAfterMoves(i: nat, n: nat, k: nat)
    requires i < n && k <= n
    ensures CursorAfter(i, n, k) == Wrap(i + k, n)
    ensures k == n ==> CursorAfter(i, n, k) == i
  {
    if k > 0 {
      CursorAfterMoves(i, n, k - 1);
    }
  }

  lemma ThreeParts(a: string, b: string, c: string)
    ensures |a + b + c| == |a| + |b| + |c|
    ensures (a + b + c)[..|a|] == a && (a + b + c)[|a| + |b|..] == c
  {
  }

  // ---------------------------------------------------------------------------------------
  // The TaskList object

  class TaskList {
    /** List of tasks to cycle through. */
    const tasks: seq<Task>
    /** Index of the current task in tasks. */
    var currentTaskIndex: nat

    ghost predicate Valid()
      reads this
    {
      ValidSequence(tasks) && currentTaskIndex < |tasks|
    }

    constructor FromValidated(tasks: seq<Task>)
      requires ValidSequence(tasks)
      ensures Valid() && this.tasks == tasks && currentTaskIndex == 0
    {
      this.tasks := tasks;
      this.currentTaskIndex := 0;
    }

    /**
     * new TaskList(tasks): None where the constructor throws IllegalArgumentException;
     * otherwise a list that is on its first task.
     */
    static method Create(tasks: seq<Task>) returns (r: Option<TaskList>)
      ensures r.Some? <==> ValidSequence(tasks)
      ensures r.Some? ==> fresh(r.value) && r.value.Valid() && r.value.tasks == tasks
      ensures r.Some? ==> r.value.currentTaskIndex == 0 && r.value.GetCurrentTask() == tasks[0]
    {
      var ok := CheckTaskSequence(tasks);
      if !ok {
        return None;
      }
      var list := new TaskList.FromValidated(tasks);
      return Some(list);
    }

    /** The current task. */
    function GetCurrentTask(): (t: Task)
      reads this
      requires Valid()
      ensures t == Rotate(tasks, currentTaskIndex)[0]
    {
      tasks[currentTaskIndex]
    }

    /** The task after the current one, circularly; always a legal successor of the current task. */
    function GetNextTask(): (t: Task)
      reads this
      requires Valid()
      ensures t.kind in Successors(GetCurrentTask().kind)
      ensures |tasks| > 1 ==> t == Rotate(tasks, currentTaskIndex)[1]
      ensures t == tasks[Succ(currentTaskIndex, |tasks|)]
    {
      assert LegalStep(tasks, currentTaskIndex);
      RotateEntry(tasks, currentTaskIndex, Succ(0, |tasks|));
      tasks[Wrap(currentTaskIndex + 1, |tasks|)]
    }

    /** Moves the cursor forward by one, circularly. */
    method MoveToNextTask()
      requires Valid()
      modifies this
      ensures Valid()
      ensures currentTaskIndex == Succ(old(currentTaskIndex), |tasks|)
      ensures GetCurrentTask() == old(GetNextTask())
    {
      currentTaskIndex := Wrap(currentTaskIndex + 1, |tasks|);
    }

    /** "TaskList currently on <task> [<position>/<number of tasks>]", the position counted from 1. */
    function ToString(): (s: string)
      reads this
      requires Valid()
      ensures var head := "TaskList currently on " + TaskDisplay(GetCurrentTask()) + " [";
              var tail := "/" + NatToString(|tasks|) + "]";
              |s| >= |head| + |tail| && s[..|head|] == head && s[|s| - |tail|..] == tail
      ensures 1 <= currentTaskIndex + 1 <= |tasks|
    {
      var head := "TaskList currently on " + TaskDisplay(GetCurrentTask()) + " [";
      var tail := "/" + NatToString(|tasks|) + "]";
      ThreeParts(head, NatToString(currentTaskIndex + 1), tail);
      head + NatToString(currentTaskIndex + 1) + tail
    }

    /**
     * The comma-joined encodings of all tasks, starting at the current one. Like the source,
     * this moves the cursor |tasks| - 1 times, so it ends one task before where it started.
     */
    method Encode() returns (s: string)
      requires Valid()
      modifies this
      ensures Valid()
      ensures s == EncodeTasks(Rotate(tasks, old(currentTaskIndex)))
      ensures currentTaskIndex == Wrap(old(currentTaskIndex) + |tasks| - 1, |tasks|)
    {
      ghost var start := currentTaskIndex;
      ghost var view := Rotate(tasks, start);
      s := EncodeTask(GetCurrentTask());
      EncodeTasksOfOne(view);
      var i := 1;
      while i < |tasks|
        invariant 1 <= i <= |tasks|
        invariant Valid()
        invariant currentTaskIndex == Wrap(start + i - 1, |tasks|)
        invariant s == EncodeTasks(view[..i])
      {
        var next := GetNextTask();
        assert next == view[i] by {
          RotateEntry(tasks, start, i);
        }
        EncodeTasksStep(view, i);
        s := s + "," + EncodeTask(next);
        MoveToNextTask();
        i := i + 1;
      }
      assert view[..i] == view;
    }
  }
}
