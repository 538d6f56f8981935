/**
 * The task card's display rules: the "time left" label, the overdue and
 * due-soon highlighting, and which menu entries (edit, delete) the signed-in
 * user is offered. Times are integer milliseconds; `now` is a parameter.
 */
module TaskCard {
  import opened Common
  import opened Domain
  import TaskRouter

  const MsPerMinute: nat := 60000
  const MsPerHour: nat := 3600000
  const MsPerDay: nat := 86400000
  /** How far ahead a deadline counts as "due soon": two days. */
  const DueSoonWindow: nat := 2 * 24 * 60 * 60 * 1000

  // ---------------------------------------------------------------------
  // Decimal rendering of the counts

  predicate IsDigit(c: char)
  {
    '0' <= c <= '9'
  }

  function DigitChar(d: nat): (c: char)
    requires d < 10
    ensures IsDigit(c) && (c as int) - ('0' as int) == d
  {
    ['0', '1', '2', '3', '4', '5', '6', '7', '8', '9'][d]
  }

  /** The decimal notation of `n`, as a template literal prints it. */
  function Digits(n: nat): (s: string)
    ensures |s| >= 1
    ensures forall i :: 0 <= i < |s| ==> IsDigit(s[i])
    ensures n != 0 ==> s[0] != '0'
    ensures |s| == 1 || s[0] != '0'
  {
    if n < 10 then [DigitChar(n)] else Digits(n / 10) + [DigitChar(n % 10)]
  }

  function DigitValue(c: char): nat
    requires IsDigit(c)
  {
    (c as int) - ('0' as int)
  }

  /** The number a string of decimal digits denotes. */
  function DigitsValue(s: string): nat
    requires forall i :: 0 <= i < |s| ==> IsDigit(s[i])
  {
    if s == [] then 0 else 10 * DigitsValue(s[..|s| - 1]) + DigitValue(s[|s| - 1])
  }

  /** The decimal notation denotes the number it was made from. */
  lemma {:induction false} DigitsRoundTrip(n: nat)
    ensures DigitsValue(Digits(n)) == n
  {
    var s := Digits(n);
    if n >= 10 {
      DigitsRoundTrip(n / 10);
      assert s[..|s| - 1] == Digits(n / 10);
    }
  }

  // ---------------------------------------------------------------------
  // getTimeLeftString

  /** The three counts the label shows. */
  datatype Remaining = Remaining(days: nat, hours: nat, minutes: nat)

  /**
   * Whole days, the hours past them and the minutes past those, of a
   * non-negative span of `delta` milliseconds.
   */
  function Breakdown(delta: nat): (b: Remaining)
    ensures b.hours < 24 && b.minutes < 60
    ensures b.days * 1440 + b.hours * 60 + b.minutes == delta / MsPerMinute
  {
    var b := Remaining(delta / MsPerDay, (delta / MsPerHour) % 24, (delta / MsPerMinute) % 60);
    MinutesSplit(delta);
    b
  }

  /** Whole hours are whole minutes divided by 60, and whole days are whole hours divided by 24. */
  lemma MinutesSplit(delta: nat)
    ensures delta / MsPerHour == (delta / MsPerMinute) / 60
    ensures delta / MsPerDay == (delta / MsPerHour) / 24
  {
    var minutes := delta / 60000;
    var hours := minutes / 60;
    assert delta == 3600000 * hours + (60000 * (minutes % 60) + delta % 60000);
    var days := hours / 24;
    assert delta == 86400000 * days + (3600000 * (hours % 24) + delta % 3600000);
  }

  datatype TimeUnit = Day | Hour | Minute

  /** One `<count><unit>` item of the label. */
  datatype Part = Part(amount: nat, unit: TimeUnit)

  /** `[p]` when `c` holds, otherwise nothing: one conditional `push`. */
  function PushIf(c: bool, p: Part): seq<Part>
  {
    if c then [p] else []
  }

  /** What `PushIf` leaves, put in front of a subsequence of `t`, is a subsequence of `[p] + t`. */
  lemma PushIfSubsequence(c: bool, p: Part, s: seq<Part>, t: seq<Part>)
    requires IsSubsequence(s, t)
    ensures IsSubsequence(PushIf(c, p) + s, [p] + t)
  {
    if c {
      SubsequenceCons(p, s, t);
    } else {
      assert PushIf(c, p) + s == s && ([p] + t)[1..] == t;
      SubsequenceOfTail(s, [p] + t);
    }
  }

  /**
   * The items the label shows, in the order days, hours, minutes: a count
   * appears when it is not zero, and the minutes also when days and hours
   * are both zero.
   */
  function Parts(b: Remaining): (ps: seq<Part>)
    ensures ps != []
    ensures Part(b.days, Day) in ps <==> b.days != 0
    ensures Part(b.hours, Hour) in ps <==> b.hours != 0
    ensures Part(b.minutes, Minute) in ps <==> b.minutes != 0 || (b.days == 0 && b.hours == 0)
    ensures IsSubsequence(ps, [Part(b.days, Day), Part(b.hours, Hour), Part(b.minutes, Minute)])
  {
    var minutePart := PushIf(b.minutes != 0 || (b.days == 0 && b.hours == 0), Part(b.minutes, Minute));
    var ps := PushIf(b.days != 0, Part(b.days, Day)) + PushIf(b.hours != 0, Part(b.hours, Hour)) + minutePart;
    PushIfSubsequence(b.minutes != 0 || (b.days == 0 && b.hours == 0), Part(b.minutes, Minute), [], []);
    assert minutePart + [] == minutePart;
    PushIfSubsequence(b.hours != 0, Part(b.hours, Hour), minutePart, [Part(b.minutes, Minute)]);
    PushIfSubsequence(b.days != 0, Part(b.days, Day), PushIf(b.hours != 0, Part(b.hours, Hour)) + minutePart,
                      [Part(b.hours, Hour), Part(b.minutes, Minute)]);
    assert ps == PushIf(b.days != 0, Part(b.days, Day)) + (PushIf(b.hours != 0, Part(b.hours, Hour)) + minutePart);
    ps
  }

  function UnitLetter(u: TimeUnit): char
  {
    match u
    case Day => 'd'
    case Hour => 'h'
    case Minute => 'm'
  }

  function PartText(p: Part): string
  {
    Digits(p.amount) + [UnitLetter(p.unit)]
  }

  /** `parts.join(" ")`. */
  function Joined(ps: seq<Part>): string
  {
    if ps == [] then ""
    else if |ps| == 1 then PartText(ps[0])
    else PartText(ps[0]) + " " + Joined(ps[1..])
  }

  /** `getTimeLeftString(deadline)` read at the instant `now`. */
  function TimeLeft(deadline: int, now: int): string
  {
    if deadline < now then "Expired"
    else Joined(Parts(Breakdown(deadline - now))) + " left"
  }

  /** The label reads "Expired" exactly when the deadline is strictly before now. */
  lemma ExpiredIff(deadline: int, now: int)
    ensures TimeLeft(deadline, now) == "Expired" <==> deadline < now
  {
    if deadline >= now {
      var s := TimeLeft(deadline, now);
      assert s[|s| - 1] == 't';
      assert "Expired"[6] == 'd';
    }
  }

  /** A label that is not "Expired" starts with a digit and ends with " left". */
  lemma {:induction false} TimeLeftShape(deadline: int, now: int)
    requires now <= deadline
    ensures var s := TimeLeft(deadline, now);
            |s| > 5 && IsDigit(s[0]) && s[|s| - 5..] == " left"
  {
    var ps := Parts(Breakdown(deadline - now));
    var j := Joined(ps);
    assert j[..|PartText(ps[0])|] == PartText(ps[0]);
    assert j[0] == Digits(ps[0].amount)[0];
  }

  /** At the deadline itself the label reads "0m left". */
  lemma DeadlineNow(t: int)
    ensures TimeLeft(t, t) == "0m left"
  {
    assert Breakdown(0) == Remaining(0, 0, 0);
    assert Parts(Remaining(0, 0, 0)) == [Part(0, Minute)];
  }

  // ---------------------------------------------------------------------
  // Overdue and due-soon highlighting

  predicate IsOverdue(due: int, status: TaskStatus, now: int)
  {
    due < now && status != DONE
  }

  predicate IsDueSoon(due: int, status: TaskStatus, now: int)
  {
    due <= now + DueSoonWindow && status != DONE
  }

  /** Read at one instant, an overdue task is also due soon; a finished task is neither. */
  lemma OverdueIsDueSoon(due: int, status: TaskStatus, now: int)
    ensures IsOverdue(due, status, now) ==> IsDueSoon(due, status, now)
    ensures status == DONE ==> !IsOverdue(due, status, now) && !IsDueSoon(due, status, now)
  {
  }

  datatype DueStyle = Overdue | DueSoon | Plain

  /** The label's style: overdue wins over due soon. */
  function Style(due: int, status: TaskStatus, now: int): (s: DueStyle)
    ensures s == Overdue <==> IsOverdue(due, status, now)
    ensures s == DueSoon <==> IsDueSoon(due, status, now) && !IsOverdue(due, status, now)
    ensures s == Plain <==> !IsDueSoon(due, status, now)
    ensures status == DONE ==> s == Plain
  {
    if IsOverdue(due, status, now) then Overdue
    else if IsDueSoon(due, status, now) then DueSoon
    else Plain
  }

  // ---------------------------------------------------------------------
  // Menu entries

  /** The task as the card receives it. */
  datatype TaskInfo = TaskInfo(
    id: TaskId,
    title: string,
    description: Option<string>,
    priority: Priority,
    status: TaskStatus,
    assigneeId: UserId,
    creatorId: UserId,
    dueDate: int)

  /** "Edit Task" is offered to the task's creator and its assignee. */
  predicate CanEdit(task: TaskInfo, sessionUser: Option<UserId>)
  {
    sessionUser.Some? && (task.creatorId == sessionUser.value || task.assigneeId == sessionUser.value)
  }

  /** "Delete Task", inside the edit group, is offered to the task's creator. */
  predicate CanDelete(task: TaskInfo, sessionUser: Option<UserId>)
  {
    CanEdit(task, sessionUser) && task.creatorId == sessionUser.value
  }

  /** Delete is offered exactly to the creator, and only alongside edit. */
  lemma DeleteOnlyForCreator(task: TaskInfo, sessionUser: Option<UserId>)
    ensures CanDelete(task, sessionUser) <==> sessionUser == Some(task.creatorId)
    ensures CanDelete(task, sessionUser) ==> CanEdit(task, sessionUser)
  {
  }

  /** The assignee id the board gives the card of a task nobody is assigned to. */
  const UnassignedPlaceholder: UserId := "Admin"

  /** The assignee id a card receives for a task's assignee. */
  function CardAssignee(assigneeId: Option<UserId>): (a: UserId)
    ensures assigneeId.Some? ==> a == assigneeId.value
    ensures assigneeId.None? ==> a == UnassignedPlaceholder
  {
    if assigneeId.Some? then assigneeId.value else UnassignedPlaceholder
  }

  /**
   * Whoever the card offers "Edit Task" to may update the task on the server,
   * except a user whose id is the placeholder when the task is unassigned.
   * The converse fails: the project's creator may update any task but is not
   * offered the entry unless they created it or are assigned to it.
   */
  lemma EditOfferedImpliesAllowed(card: TaskInfo, t: Task, p: Project, sessionUser: Option<UserId>)
    requires card.creatorId == t.creatorId && card.assigneeId == CardAssignee(t.assigneeId)
    requires CanEdit(card, sessionUser)
    ensures TaskRouter.MayUpdate(t, p, sessionUser.value)
            || (t.assigneeId.None? && sessionUser.value == UnassignedPlaceholder)
  {
  }

  /** The project's creator, when neither creator nor assignee of the task, is not offered "Edit Task". */
  lemma ProjectCreatorNotOffered(card: TaskInfo, t: Task, p: Project, u: UserId)
    requires card.creatorId == t.creatorId && card.assigneeId == CardAssignee(t.assigneeId)
    requires p.creatorId == u && card.creatorId != u && card.assigneeId != u
    ensures TaskRouter.MayUpdate(t, p, u) && !CanEdit(card, Some(u))
  {
  }
}
