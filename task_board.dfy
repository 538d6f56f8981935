/**
 * The kanban board of one project: its tasks grouped into four ordered
 * columns, one per status, the drag-end handler that moves a task between
 * columns optimistically and issues one status update, and the
 * reconciliation of that update (rollback on failure, refetch on success).
 */
module TaskBoard {
  import opened Common
  import opened Domain

  /** The board state (`TasksByStatus`): one ordered column per status. */
  datatype Columns = Columns(todo: seq<Task>, inProgress: seq<Task>, review: seq<Task>, done: seq<Task>)
  {
    /** `tasks[status]` */
    function Get(s: TaskStatus): seq<Task>
    {
      match s
      case TODO => todo
      case IN_PROGRESS => inProgress
      case REVIEW => review
      case DONE => done
    }

    /** `{ ...tasks, [status]: col }` */
    function With(s: TaskStatus, col: seq<Task>): (r: Columns)
      ensures r.Get(s) == col
      ensures forall s' :: s' != s ==> r.Get(s') == Get(s')
    {
      match s
      case TODO => this.(todo := col)
      case IN_PROGRESS => this.(inProgress := col)
      case REVIEW => this.(review := col)
      case DONE => this.(done := col)
    }
  }

  /** Four empty columns. */
  const Empty := Columns([], [], [], [])

  /** Every task sits in the column of its own status. */
  ghost predicate ColumnsConsistent(b: Columns)
  {
    forall s: TaskStatus, t: Task :: t in b.Get(s) ==> t.status == s
  }

  // ---------------------------------------------------------------------
  // Partition (`organizeTasksByStatus`)
  // ---------------------------------------------------------------------

  /** The tasks of `ts` whose status is `s`, in the order of `ts`. */
  function Bucket(ts: seq<Task>, s: TaskStatus): seq<Task>
  {
    if ts == [] then []
    else (if ts[0].status == s then [ts[0]] else []) + Bucket(ts[1..], s)
  }

  /** The board computed from an authoritative task list. */
  function Partition(ts: seq<Task>): (b: Columns)
    ensures forall s :: b.Get(s) == Bucket(ts, s)
  {
    Columns(Bucket(ts, TODO), Bucket(ts, IN_PROGRESS), Bucket(ts, REVIEW), Bucket(ts, DONE))
  }

  /** The columns read left to right, as one list. */
  function Flatten(b: Columns): seq<Task>
  {
    b.todo + b.inProgress + b.review + b.done
  }

  /** A task is in column `s` exactly when it is in the input with status `s`. */
  lemma {:induction false} PartitionPlacement(ts: seq<Task>, s: TaskStatus, t: Task)
    ensures t in Partition(ts).Get(s) <==> t in ts && t.status == s
  {
    if ts != [] {
      PartitionPlacement(ts[1..], s, t);
      assert ts == [ts[0]] + ts[1..];
    }
  }

  /** So a partitioned board keeps every task in the column of its own status. */
  lemma PartitionConsistent(ts: seq<Task>)
    ensures ColumnsConsistent(Partition(ts))
  {
    forall s: TaskStatus, t: Task | t in Partition(ts).Get(s) ensures t.status == s {
      PartitionPlacement(ts, s, t);
    }
  }

  /** Partitioning distributes over concatenation: relative order is kept. */
  lemma {:induction false} BucketConcat(a: seq<Task>, b: seq<Task>, s: TaskStatus)
    ensures Bucket(a + b, s) == Bucket(a, s) + Bucket(b, s)
  {
    if a != [] {
      BucketConcat(a[1..], b, s);
      assert (a + b)[1..] == a[1..] + b;
    } else {
      assert a + b == b;
    }
  }

  /** Each column is a subsequence of the input: its tasks keep their input order. */
  lemma {:induction false} BucketIsSubsequence(ts: seq<Task>, s: TaskStatus)
    ensures IsSubsequence(Partition(ts).Get(s), ts)
  {
    if ts != [] {
      BucketIsSubsequence(ts[1..], s);
      var rest := Bucket(ts[1..], s);
      if ts[0].status == s {
        assert ([ts[0]] + rest)[1..] == rest;
      } else {
        assert Bucket(ts, s) == rest;
        if rest != [] {
          PartitionPlacement(ts[1..], s, rest[0]);
          assert rest[0] != ts[0];
        }
      }
    }
  }

  /** The columns together hold exactly the input's tasks: sizes sum to the input length. */
  lemma {:induction false} PartitionCovers(ts: seq<Task>)
    ensures multiset(Partition(ts).todo) + multiset(Partition(ts).inProgress)
          + multiset(Partition(ts).review) + multiset(Partition(ts).done) == multiset(ts)
    ensures |Partition(ts).todo| + |Partition(ts).inProgress|
          + |Partition(ts).review| + |Partition(ts).done| == |ts|
  {
    if ts != [] {
      PartitionCovers(ts[1..]);
      assert ts == [ts[0]] + ts[1..];
      assert multiset(ts) == multiset{ts[0]} + multiset(ts[1..]);
    }
    var p := Partition(ts);
    assert |multiset(ts)| == |ts|;
    assert |multiset(p.todo) + multiset(p.inProgress) + multiset(p.review) + multiset(p.done)|
        == |p.todo| + |p.inProgress| + |p.review| + |p.done|;
  }

  /** Filtering a column by another status leaves nothing; by its own, everything. */
  lemma {:induction false} BucketOfBucket(ts: seq<Task>, s: TaskStatus, s': TaskStatus)
    ensures Bucket(Bucket(ts, s'), s) == if s == s' then Bucket(ts, s) else []
  {
    if ts != [] {
      BucketOfBucket(ts[1..], s, s');
      var head := if ts[0].status == s' then [ts[0]] else [];
      BucketConcat(head, Bucket(ts[1..], s'), s);
    }
  }

  /** Re-partitioning the reassembled board yields the same board. */
  lemma PartitionIdempotent(ts: seq<Task>)
    ensures Partition(Flatten(Partition(ts))) == Partition(ts)
  {
    var p := Partition(ts);
    forall s: TaskStatus ensures Bucket(Flatten(p), s) == Bucket(ts, s) {
      BucketConcat(p.todo + p.inProgress + p.review, p.done, s);
      BucketConcat(p.todo + p.inProgress, p.review, s);
      BucketConcat(p.todo, p.inProgress, s);
      BucketOfBucket(ts, s, TODO);
      BucketOfBucket(ts, s, IN_PROGRESS);
      BucketOfBucket(ts, s, REVIEW);
      BucketOfBucket(ts, s, DONE);
    }
  }

  // ---------------------------------------------------------------------
  // Drag end (`onDragEnd`)
  // ---------------------------------------------------------------------

  /** A position reported by the drag-and-drop library: a column id and an index in it. */
  datatype Location = Location(droppableId: string, index: int)

  /** What the library reports when a drag ends; no destination when dropped outside a column. */
  datatype DropResult = DropResult(draggableId: TaskId, source: Location, destination: Option<Location>)

  /** The durable status update request `{ id, status }`. */
  datatype StatusUpdate = StatusUpdate(id: TaskId, status: TaskStatus)

  /** How a drag ended: silently ignored, rejected with a logged error, or a move. */
  datatype DragOutcome =
    | NoDestination
    | SamePosition
    | InvalidColumn
    | NotInSource
    | Moved(request: StatusUpdate)

  datatype DragStep = DragStep(outcome: DragOutcome, buckets: Columns)

  /** `column.find(task => task.id === id)`: the first task with that id. */
  function FindById(col: seq<Task>, id: TaskId): (r: Option<Task>)
    ensures r.Some? ==> r.value in col && r.value.id == id
    ensures r.None? ==> forall t :: t in col ==> t.id != id
  {
    if col == [] then None
    else if col[0].id == id then Some(col[0])
    else FindById(col[1..], id)
  }

  /** `column.filter(task => task.id !== id)`. */
  function WithoutId(col: seq<Task>, id: TaskId): (r: seq<Task>)
    ensures forall t :: t in r <==> t in col && t.id != id
    ensures IsSubsequence(r, col)
  {
    if col == [] then []
    else if col[0].id == id then WithoutId(col[1..], id)
    else [col[0]] + WithoutId(col[1..], id)
  }

  /** `find` returns the first task with the id: every task before it has another id. */
  lemma {:induction false} FindByIdFirst(col: seq<Task>, id: TaskId)
    requires FindById(col, id).Some?
    ensures exists i :: 0 <= i < |col| && col[i] == FindById(col, id).value
                        && forall j :: 0 <= j < i ==> col[j].id != id
  {
    if col[0].id != id {
      FindByIdFirst(col[1..], id);
      var i :| 0 <= i < |col[1..]| && col[1..][i] == FindById(col, id).value
               && forall j :: 0 <= j < i ==> col[1..][j].id != id;
      assert col[i + 1] == FindById(col, id).value;
      forall j | 0 <= j < i + 1 ensures col[j].id != id {
        if j > 0 {
          assert col[j] == col[1..][j - 1];
        }
      }
    } else {
      assert col[0] == FindById(col, id).value;
    }
  }

  /** The filter keeps every copy of every task with another id, and none with that id. */
  lemma {:induction false} WithoutIdCounts(col: seq<Task>, id: TaskId, t: Task)
    ensures multiset(WithoutId(col, id))[t] == if t.id == id then 0 else multiset(col)[t]
  {
    if col != [] {
      WithoutIdCounts(col[1..], id, t);
      assert col == [col[0]] + col[1..];
      assert multiset(col) == multiset{col[0]} + multiset(col[1..]);
      if col[0].id != id {
        assert multiset(WithoutId(col, id)) == multiset{col[0]} + multiset(WithoutId(col[1..], id));
      }
    }
  }

  /** Where `splice(start, 0, x)` inserts into an array of length `len`. */
  function SpliceStart(len: nat, start: int): (k: nat)
    ensures k <= len
    ensures 0 <= start <= len ==> k == start
    ensures start > len ==> k == len
  {
    if start < 0 then (if len + start < 0 then 0 else len + start)
    else if start > len then len
    else start
  }

  /** `col.splice(start, 0, x)` on a copy of `col`: `x` inserted, later elements shifted right. */
  function Splice(col: seq<Task>, start: int, x: Task): (r: seq<Task>)
    ensures |r| == |col| + 1
    ensures var k := SpliceStart(|col|, start);
      && r[k] == x
      && (forall j :: 0 <= j < k ==> r[j] == col[j])
      && (forall j :: k < j < |r| ==> r[j] == col[j - 1])
  {
    var k := SpliceStart(|col|, start);
    col[..k] + [x] + col[k..]
  }

  /** The number of tasks in `col` with the given id. */
  function CountId(col: seq<Task>, id: TaskId): nat
  {
    if col == [] then 0 else (if col[0].id == id then 1 else 0) + CountId(col[1..], id)
  }

  /** The state change and outcome of `onDragEnd` on board `b`. */
  function DragEnd(b: Columns, result: DropResult): DragStep
  {
    if result.destination.None? then DragStep(NoDestination, b)
    else
      var dest := result.destination.value;
      if dest.droppableId == result.source.droppableId && dest.index == result.source.index then
        DragStep(SamePosition, b)
      else
        var from := ParseStatus(result.source.droppableId);
        var to := ParseStatus(dest.droppableId);
        if from.None? || to.None? then DragStep(InvalidColumn, b)
        else
          match FindById(b.Get(from.value), result.draggableId)
          case None => DragStep(NotInSource, b)
          case Some(task) =>
            var newSource := WithoutId(b.Get(from.value), result.draggableId);
            var newDest := Splice(b.Get(to.value), dest.index, task.(status := to.value));
            // the destination is written last, so a same-column drop keeps only `newDest`
            DragStep(Moved(StatusUpdate(result.draggableId, to.value)),
                     b.With(from.value, newSource).With(to.value, newDest))
  }

  /**
   * What the drag-and-drop library hands to `onDragEnd`: while the columns are
   * disabled (`isDropDisabled`), no column can be the drop target, so the
   * destination is reported absent.
   */
  function Delivered(result: DropResult, dropDisabled: bool): (r: DropResult)
    ensures dropDisabled ==> r.destination.None?
    ensures !dropDisabled ==> r == result
    ensures r.draggableId == result.draggableId && r.source == result.source
  {
    if dropDisabled then result.(destination := None) else result
  }

  /** A drop onto disabled columns moves nothing and issues no request. */
  lemma DisabledDropIgnored(b: Columns, result: DropResult)
    ensures DragEnd(b, Delivered(result, true)) == DragStep(NoDestination, b)
  {
  }

  /** A drag moves something exactly when it has a destination other than its own
      position, both column ids name statuses, and the source column holds the task;
      in every other case the board is unchanged and no request is issued. */
  lemma DragMovesOnlyWhenValid(b: Columns, result: DropResult)
    ensures var step := DragEnd(b, result);
      && (step.outcome.Moved? <==>
            && result.destination.Some?
            && (result.destination.value.droppableId != result.source.droppableId
                || result.destination.value.index != result.source.index)
            && ParseStatus(result.source.droppableId).Some?
            && ParseStatus(result.destination.value.droppableId).Some?
            && exists t :: t in b.Get(ParseStatus(result.source.droppableId).value) && t.id == result.draggableId)
      && (!step.outcome.Moved? ==> step.buckets == b)
  {
    var step := DragEnd(b, result);
    if result.destination.Some? {
      var from := ParseStatus(result.source.droppableId);
      if from.Some? {
        var found := FindById(b.Get(from.value), result.draggableId);
        if found.Some? {
          assert found.value in b.Get(from.value) && found.value.id == result.draggableId;
        }
      }
    }
  }

  /** A cross-column move: the source loses every task with that id, the destination
      gains the re-statused copy at the drop index, the other columns are untouched,
      and the request names the task and its new column. */
  lemma CrossColumnDrag(b: Columns, result: DropResult)
    requires DragEnd(b, result).outcome.Moved?
    requires ParseStatus(result.source.droppableId) != ParseStatus(result.destination.value.droppableId)
    ensures var from := ParseStatus(result.source.droppableId).value;
      var to := ParseStatus(result.destination.value.droppableId).value;
      var task := FindById(b.Get(from), result.draggableId).value;
      var after := DragEnd(b, result).buckets;
      && DragEnd(b, result).outcome.request == StatusUpdate(result.draggableId, to)
      && after.Get(from) == WithoutId(b.Get(from), result.draggableId)
      && (forall t :: t in after.Get(from) ==> t.id != result.draggableId)
      && after.Get(to) == Splice(b.Get(to), result.destination.value.index, task.(status := to))
      && after.Get(to)[SpliceStart(|b.Get(to)|, result.destination.value.index)].status == to
      && (forall s :: s != from && s != to ==> after.Get(s) == b.Get(s))
  {
  }

  /** The defect of a same-column reorder: the destination column is copied before the
      source filter is applied and is written last, so the column keeps the task at its
      old position and gains the inserted copy; its tasks with that id grow by one. */
  lemma SameColumnDragDuplicates(b: Columns, result: DropResult)
    requires ColumnsConsistent(b)
    requires DragEnd(b, result).outcome.Moved?
    requires result.destination.value.droppableId == result.source.droppableId
    ensures var col := ParseStatus(result.source.droppableId).value;
      var task := FindById(b.Get(col), result.draggableId).value;
      var after := DragEnd(b, result).buckets;
      && after.Get(col) == Splice(b.Get(col), result.destination.value.index, task)
      && (forall t :: t in b.Get(col) ==> t in after.Get(col))
      && CountId(after.Get(col), result.draggableId) == CountId(b.Get(col), result.draggableId) + 1
      && CountId(after.Get(col), result.draggableId) >= 2
  {
    var col := ParseStatus(result.source.droppableId).value;
    var task := FindById(b.Get(col), result.draggableId).value;
    assert task.(status := col) == task;
    var k := SpliceStart(|b.Get(col)|, result.destination.value.index);
    var after := DragEnd(b, result).buckets;
    assert b.Get(col) == b.Get(col)[..k] + b.Get(col)[k..];
    assert after.Get(col) == b.Get(col)[..k] + ([task] + b.Get(col)[k..]);
    CountIdConcat(b.Get(col)[..k], b.Get(col)[k..], result.draggableId);
    CountIdConcat(b.Get(col)[..k], [task] + b.Get(col)[k..], result.draggableId);
    CountIdConcat([task], b.Get(col)[k..], result.draggableId);
    CountIdPositive(b.Get(col), task, result.draggableId);
    forall t | t in b.Get(col) ensures t in after.Get(col) {
      if t in b.Get(col)[..k] {
      } else {
        assert t in b.Get(col)[k..];
      }
    }
  }

  lemma {:induction false} CountIdConcat(a: seq<Task>, c: seq<Task>, id: TaskId)
    ensures CountId(a + c, id) == CountId(a, id) + CountId(c, id)
  {
    if a != [] {
      CountIdConcat(a[1..], c, id);
      assert (a + c)[1..] == a[1..] + c;
    } else {
      assert a + c == c;
    }
  }

  lemma {:induction false} CountIdPositive(col: seq<Task>, t: Task, id: TaskId)
    requires t in col && t.id == id
    ensures CountId(col, id) >= 1
  {
    if col[0] != t {
      CountIdPositive(col[1..], t, id);
    }
  }

  /** Every move keeps each task in the column of its own status. */
  lemma DragKeepsColumnsConsistent(b: Columns, result: DropResult)
    requires ColumnsConsistent(b)
    ensures ColumnsConsistent(DragEnd(b, result).buckets)
  {
    var step := DragEnd(b, result);
    if step.outcome.Moved? {
      var from := ParseStatus(result.source.droppableId).value;
      var to := ParseStatus(result.destination.value.droppableId).value;
      var task := FindById(b.Get(from), result.draggableId).value;
      var newDest := Splice(b.Get(to), result.destination.value.index, task.(status := to));
      forall t | t in newDest ensures t.status == to {
        var j :| 0 <= j < |newDest| && newDest[j] == t;
        var k := SpliceStart(|b.Get(to)|, result.destination.value.index);
        if j < k {
          assert t == b.Get(to)[j];
        } else if j > k {
          assert t == b.Get(to)[j - 1];
        }
      }
    }
  }

  // ---------------------------------------------------------------------
  // The board component's state
  // ---------------------------------------------------------------------

  class Board {
    /** The `tasks` state: the columns on screen. */
    var buckets: Columns
    /** The task list of the last `project` received, the authoritative list. */
    var project: Option<seq<Task>>
    /** Whether the status update request is in flight (`isPending`). */
    var pending: bool

    ghost predicate Valid()
      reads this
    {
      ColumnsConsistent(buckets)
    }

    /** The board starts with four empty columns, no project and no request. */
    constructor ()
      ensures Valid()
      ensures buckets == Empty
      ensures project == None && !pending
    {
      buckets := Empty;
      project := None;
      pending := false;
    }

    /** `organizeTasksByStatus`: push every task onto its status's column, in order. */
    method Organize(tasksArray: seq<Task>)
      modifies this`buckets
      ensures Valid()
      ensures buckets == Partition(tasksArray)
    {
      var organized := Empty;
      var i := 0;
      while i < |tasksArray|
        invariant 0 <= i <= |tasksArray|
        invariant forall s :: organized.Get(s) == Bucket(tasksArray[..i], s)
      {
        var task := tasksArray[i];
        // the source's `if (organized[task.status])` always holds: the status is one of the four
        forall s: TaskStatus
          ensures Bucket(tasksArray[..i + 1], s)
               == Bucket(tasksArray[..i], s) + (if task.status == s then [task] else [])
        {
          assert Bucket([task], s) == (if task.status == s then [task] else []) + Bucket([], s);
          assert tasksArray[..i + 1] == tasksArray[..i] + [task];
          BucketConcat(tasksArray[..i], [task], s);
        }
        organized := organized.With(task.status, organized.Get(task.status) + [task]);
        i := i + 1;
      }
      assert tasksArray[..i] == tasksArray;
      buckets := organized;
      PartitionConsistent(tasksArray);
    }

    /** The effect on `project`: a new authoritative list replaces the whole board. */
    method OnProjectChange(tasks: Option<seq<Task>>)
      modifies this`buckets, this`project
      requires Valid()
      ensures Valid()
      ensures project == tasks
      ensures buckets == if tasks.Some? then Partition(tasks.value) else old(buckets)
    {
      project := tasks;
      if tasks.Some? {
        Organize(tasks.value);
      }
    }

    /** `isDropDisabled` of a column: while the request is pending no column,
        whichever it is, accepts a drop. */
    function AcceptsDrops(column: TaskStatus): (r: bool)
      reads this
      ensures pending ==> !r
      ensures !pending ==> r
    {
      !pending
    }

    /**
     * `onDragEnd` on what the library reports (`result` is the drop as the
     * user made it): apply the move optimistically and issue one status
     * update. While an update is pending the columns are disabled, so the
     * drop arrives without a destination and nothing changes.
     */
    method OnDragEnd(result: DropResult) returns (outcome: DragOutcome)
      requires Valid()
      modifies this`buckets, this`pending
      ensures Valid()
      ensures outcome == DragEnd(old(buckets), Delivered(result, old(pending))).outcome
      ensures buckets == DragEnd(old(buckets), Delivered(result, old(pending))).buckets
      ensures pending == (old(pending) || outcome.Moved?)
      ensures old(pending) ==> outcome == NoDestination && buckets == old(buckets) && pending
    {
      var delivered := Delivered(result, !AcceptsDrops(TODO));
      DragKeepsColumnsConsistent(buckets, delivered);
      if delivered.destination.None? {
        return NoDestination;
      }
      var dest := delivered.destination.value;
      if dest.droppableId == delivered.source.droppableId && dest.index == delivered.source.index {
        return SamePosition;
      }
      var from := ParseStatus(delivered.source.droppableId);
      var to := ParseStatus(dest.droppableId);
      if from.None? || to.None? {
        return InvalidColumn;
      }
      var sourceColumn := buckets.Get(from.value);
      var destColumn := buckets.Get(to.value);
      var dragged := FindById(sourceColumn, delivered.draggableId);
      if dragged.None? {
        return NotInSource;
      }
      var newSourceTasks := WithoutId(sourceColumn, delivered.draggableId);
      var newDestTasks := Splice(destColumn, dest.index, dragged.value.(status := to.value));
      buckets := buckets.With(from.value, newSourceTasks).With(to.value, newDestTasks);
      pending := true;
      outcome := Moved(StatusUpdate(delivered.draggableId, to.value));
    }

    /** `onError`: roll the board back to the last authoritative list. */
    method OnUpdateError()
      requires Valid()
      modifies this`buckets, this`pending
      ensures Valid()
      ensures !pending
      ensures buckets == if project.Some? then Partition(project.value) else old(buckets)
    {
      pending := false;
      if project.Some? {
        Organize(project.value);
      }
    }

    /** `onSuccess`: ask for the project again; the board is rebuilt when it arrives. */
    method OnUpdateSuccess() returns (refetch: bool)
      requires Valid()
      modifies this`pending
      ensures Valid()
      ensures !pending && refetch
      ensures buckets == old(buckets)
    {
      pending := false;
      refetch := true;
    }
  }

  /** The board of a project with tasks A and B to do and C done: A dragged to the top
      of "In Progress" moves optimistically and issues one request; B dragged to "Done"
      while that request is pending moves nothing; when the request fails, the board is
      back to the authoritative partition. */
  method DragThenRollback(a: Task, b: Task, c: Task) returns (request: StatusUpdate)
    requires a.id == "A" && b.id == "B" && c.id == "C"
    requires a.status == TODO && b.status == TODO && c.status == DONE
    ensures request == StatusUpdate("A", IN_PROGRESS)
  {
    var board := new Board();
    assert [a, b, c][1..] == [b, c] && [b, c][1..] == [c] && [a, b][1..] == [b];
    forall s ensures Bucket([a, b, c], s) == if s == TODO then [a, b] else if s == DONE then [c] else [] {
      assert Bucket([c], s) == if s == DONE then [c] else [];
      assert Bucket([b, c], s) == if s == TODO then [b] else if s == DONE then [c] else [];
    }
    board.OnProjectChange(Some([a, b, c]));
    assert board.buckets == Columns([a, b], [], [], [c]);
    assert WithoutId([b], "A") == [b];
    assert WithoutId([a, b], "A") == [b];
    assert Splice([], 0, a.(status := IN_PROGRESS)) == [a.(status := IN_PROGRESS)];
    var outcome := board.OnDragEnd(DropResult("A", Location("TODO", 0), Some(Location("IN_PROGRESS", 0))));
    assert outcome == Moved(StatusUpdate("A", IN_PROGRESS));
    assert board.buckets == Columns([b], [a.(status := IN_PROGRESS)], [], [c]);
    assert !board.AcceptsDrops(IN_PROGRESS) && !board.AcceptsDrops(DONE);
    var second := board.OnDragEnd(DropResult("B", Location("TODO", 0), Some(Location("DONE", 0))));
    assert second == NoDestination && board.buckets == Columns([b], [a.(status := IN_PROGRESS)], [], [c]);
    board.OnUpdateError();
    assert board.buckets == Columns([a, b], [], [], [c]);
    assert board.AcceptsDrops(TODO);
    request := outcome.request;
  }
}
