/**
 * The task lifecycle of one signed-in session: adding a task, completing it
 * (delete first, then award XP) and the counter badge in the sidebar.
 *
 * Both remote steps of a completion can fail on their own: the delete is
 * awaited, but the XP increment that follows is neither awaited nor caught, so
 * a task can be deleted while its award is lost.
 *
 * The session record stands for the remote state the handlers act on: the
 * user's id, the `xp` field of the profile and the task collection of that
 * user. Push ids are modelled by `nextKey`, a counter the store advances on
 * every push, so new keys are always fresh.
 */
module Tasks {
  import opened Wrappers
  import opened Text
  import opened Users

  type TaskKey = nat

  datatype Task = Task(text: string, subject: string, priority: nat, effort: nat, dueDate: string, createdAt: int)

  datatype Session = Session(uid: Option<Uid>, xp: nat, tasks: map<TaskKey, Task>, nextKey: TaskKey)

  /** What the task form holds when "add" is pressed. */
  datatype TaskForm = TaskForm(text: string, subject: string, priority: nat, effort: nat, dueDate: string)

  /** The placeholder due date stored when the date field is left empty. */
  const DefaultDueDate: string := "Hoy"

  /** Every stored key was handed out before: the store never reuses a push id. */
  predicate Valid(s: Session) {
    forall k :: k in s.tasks ==> k < s.nextKey
  }

  /** The JavaScript truthiness test `userData.uid`: present and non-empty. */
  predicate SignedIn(s: Session) {
    s.uid.Some? && s.uid.value != ""
  }

  /** The XP a completed task is worth. */
  function Award(priority: nat, effort: nat): (points: nat)
    ensures points >= 30
  {
    30 + priority * 20 + effort * 10
  }

  /** The record a form turns into: text and subject as typed, empty date replaced by "Hoy". */
  function NewTask(f: TaskForm, now: int): (t: Task)
    ensures t.text == f.text && t.subject == f.subject
    ensures t.priority == f.priority && t.effort == f.effort && t.createdAt == now
    ensures t.dueDate != ""
    ensures f.dueDate != "" ==> t.dueDate == f.dueDate
    ensures f.dueDate == "" ==> t.dueDate == DefaultDueDate
  {
    Task(f.text, f.subject, f.priority, f.effort, if f.dueDate == "" then DefaultDueDate else f.dueDate, now)
  }

  /** An accepted push: `t` is stored under the next key, which is then used up. */
  function Push(s: Session, t: Task): (s': Session)
    ensures s'.uid == s.uid && s'.xp == s.xp && s'.nextKey == s.nextKey + 1
    ensures s.nextKey in s'.tasks && s'.tasks[s.nextKey] == t
    ensures s'.tasks.Keys == s.tasks.Keys + {s.nextKey}
    ensures forall k :: k in s.tasks && k != s.nextKey ==> k in s'.tasks && s'.tasks[k] == s.tasks[k]
    ensures Valid(s) ==> Valid(s') && s.nextKey !in s.tasks && |s'.tasks| == |s.tasks| + 1
  {
    s.(tasks := s.tasks[s.nextKey := t], nextKey := s.nextKey + 1)
  }

  /** `addTask`: ignored without a signed-in user or when the text is blank after
      trimming; otherwise one new task is pushed under a fresh key. The push is
      neither awaited nor caught: `pushOk` is whether the store accepted it, and
      a rejected push leaves the collection as it was. */
  function AddTask(s: Session, f: TaskForm, now: int, pushOk: bool): (s': Session)
    ensures !SignedIn(s) || AllWhitespace(f.text) || !pushOk ==> s' == s
    ensures SignedIn(s) && !AllWhitespace(f.text) && pushOk ==>
      && s'.uid == s.uid && s'.xp == s.xp
      && s.nextKey in s'.tasks
      && s'.tasks[s.nextKey] == NewTask(f, now)
      && s'.tasks.Keys == s.tasks.Keys + {s.nextKey}
    ensures SignedIn(s) && !AllWhitespace(f.text) && pushOk && Valid(s) ==>
      s.nextKey !in s.tasks && |s'.tasks| == |s.tasks| + 1
    ensures forall k :: k in s.tasks && k != s.nextKey ==> k in s'.tasks && s'.tasks[k] == s.tasks[k]
    ensures Valid(s) ==> Valid(s')
  {
    if !SignedIn(s) || IsBlank(f.text) || !pushOk then s
    else Push(s, NewTask(f, now))
  }

  /** `subirXP`: an atomic increment of the profile's XP, skipped when nobody is signed in. */
  function RaiseXp(s: Session, points: nat): (s': Session)
    ensures SignedIn(s) ==> s'.xp == s.xp + points
    ensures !SignedIn(s) ==> s'.xp == s.xp
    ensures s'.xp >= s.xp
    ensures s'.uid == s.uid && s'.tasks == s.tasks && s'.nextKey == s.nextKey
  {
    if SignedIn(s) then s.(xp := s.xp + points) else s
  }

  /** `completeTask`: the task is deleted first and only a successful delete is
      followed by the XP award. `deleteOk` is the outcome of the remote delete
      and `incrementOk` that of the increment sent after it; a rejected
      increment leaves the task deleted and the award lost.
      Without a signed-in user the delete addresses a path outside this
      session's collection and the award is skipped, so nothing here changes. */
  function CompleteTask(s: Session, key: TaskKey, priority: nat, effort: nat,
                        deleteOk: bool, incrementOk: bool): (s': Session)
    ensures !deleteOk ==> s' == s
    ensures !SignedIn(s) ==> s' == s
    ensures deleteOk && SignedIn(s) ==>
      && key !in s'.tasks
      && s'.tasks.Keys == s.tasks.Keys - {key}
    ensures deleteOk && incrementOk && SignedIn(s) ==> s'.xp == s.xp + Award(priority, effort)
    ensures !incrementOk ==> s'.xp == s.xp
    ensures forall k :: k in s'.tasks ==> k in s.tasks && s'.tasks[k] == s.tasks[k]
    ensures s'.uid == s.uid && s'.nextKey == s.nextKey
    ensures s'.xp >= s.xp
    ensures s'.xp != s.xp <==> deleteOk && incrementOk && SignedIn(s)
  {
    if !deleteOk then s
    else
      var removed := if SignedIn(s) then s.(tasks := s.tasks - {key}) else s;
      if incrementOk then RaiseXp(removed, Award(priority, effort)) else removed
  }

  /** The sidebar badge: the task count as text, shown only when it is not zero. */
  datatype Badge = Badge(text: string, visible: bool)

  /** `actualizarContadorTareas`: the badge for the current task collection. */
  function TaskCounter(tasks: map<TaskKey, Task>): (b: Badge)
    ensures b.visible <==> |tasks| > 0
    ensures IsDigits(b.text) && DigitsValue(b.text) == |tasks|
    ensures |b.text| > 1 ==> b.text[0] != '0'
  {
    NatToStringRoundTrip(|tasks|);
    Badge(NatToString(|tasks|), |tasks| > 0)
  }

  /** The badge is hidden exactly when it would read "0". */
  lemma BadgeHiddenIffZero(tasks: map<TaskKey, Task>)
    ensures !TaskCounter(tasks).visible <==> TaskCounter(tasks).text == "0"
  {
    NatToStringZero(|tasks|);
  }

  /** The two task operations a user can trigger. */
  datatype Action =
    | Add(form: TaskForm, now: int, pushOk: bool)
    | Complete(key: TaskKey, priority: nat, effort: nat, deleteOk: bool, incrementOk: bool)

  function Step(s: Session, a: Action): Session {
    match a
    case Add(f, now, pushed) => AddTask(s, f, now, pushed)
    case Complete(key, p, e, deleted, incremented) => CompleteTask(s, key, p, e, deleted, incremented)
  }

  /** The session after a sequence of actions, applied in order. */
  function Run(s: Session, actions: seq<Action>): (s': Session)
    ensures Valid(s) ==> Valid(s')
    ensures s'.uid == s.uid
    decreases |actions|
  {
    if |actions| == 0 then s else Run(Step(s, actions[0]), actions[1..])
  }

  /** XP a run earns: the award of every completion whose delete and increment
      both succeeded, provided someone is signed in. */
  function Earned(signedIn: bool, actions: seq<Action>): nat
    decreases |actions|
  {
    if |actions| == 0 then 0
    else
      var a := actions[0];
      (if signedIn && a.Complete? && a.deleteOk && a.incrementOk then Award(a.priority, a.effort) else 0)
        + Earned(signedIn, actions[1..])
  }

  /** XP a run asks for: the award of every completion whose delete succeeded,
      provided someone is signed in, whatever became of the increment. */
  function Requested(signedIn: bool, actions: seq<Action>): nat
    decreases |actions|
  {
    if |actions| == 0 then 0
    else
      var a := actions[0];
      (if signedIn && a.Complete? && a.deleteOk then Award(a.priority, a.effort) else 0)
        + Requested(signedIn, actions[1..])
  }

  /** No completion in the run had its XP increment rejected. */
  predicate IncrementsAccepted(actions: seq<Action>) {
    forall i :: 0 <= i < |actions| && actions[i].Complete? ==> actions[i].incrementOk
  }

  /** XP only changes through fully successful completions, by exactly their awards. */
  lemma {:induction false} RunXp(s: Session, actions: seq<Action>)
    ensures Run(s, actions).xp == s.xp + Earned(SignedIn(s), actions)
    decreases |actions|
  {
    if |actions| > 0 {
      var s1 := Step(s, actions[0]);
      assert SignedIn(s1) == SignedIn(s);
      RunXp(s1, actions[1..]);
    }
  }

  /** Earned XP never exceeds the XP asked for, and matches it when no increment was rejected. */
  lemma {:induction false} EarnedAtMostRequested(signedIn: bool, actions: seq<Action>)
    ensures Earned(signedIn, actions) <= Requested(signedIn, actions)
    ensures IncrementsAccepted(actions) ==> Earned(signedIn, actions) == Requested(signedIn, actions)
    decreases |actions|
  {
    if |actions| > 0 {
      EarnedAtMostRequested(signedIn, actions[1..]);
      if IncrementsAccepted(actions) {
        assert IncrementsAccepted(actions[1..]) by {
          forall i | 0 <= i < |actions[1..]| && actions[1..][i].Complete?
            ensures actions[1..][i].incrementOk
          {
            assert actions[1..][i] == actions[i + 1];
          }
        }
      }
    }
  }

  /** A run gains at most the awards of its successful deletes, and exactly
      those when no increment was rejected. */
  lemma RunXpAtMostRequested(s: Session, actions: seq<Action>)
    ensures Run(s, actions).xp <= s.xp + Requested(SignedIn(s), actions)
    ensures IncrementsAccepted(actions) ==> Run(s, actions).xp == s.xp + Requested(SignedIn(s), actions)
  {
    RunXp(s, actions);
    EarnedAtMostRequested(SignedIn(s), actions);
  }

  /** XP never decreases over any sequence of task actions. */
  lemma RunXpNeverDecreases(s: Session, actions: seq<Action>)
    ensures Run(s, actions).xp >= s.xp
  {
    RunXp(s, actions);
  }

  /** The worked example: priority 2 and effort 3 are worth 100 XP, a failed
      delete leaves the session as it was, and a rejected increment after a
      successful delete removes the task without the award. */
  lemma CompleteExample(s: Session, key: TaskKey)
    ensures Award(2, 3) == 100
    ensures CompleteTask(s, key, 2, 3, false, true) == s
    ensures SignedIn(s) ==> CompleteTask(s, key, 2, 3, true, true).xp == s.xp + 100
    ensures SignedIn(s) ==>
      var s' := CompleteTask(s, key, 2, 3, true, false);
      key !in s'.tasks && s'.xp == s.xp
  {
  }

  /** A higher priority or effort never earns less. */
  lemma AwardMonotone(p1: nat, e1: nat, p2: nat, e2: nat)
    requires p1 <= p2 && e1 <= e2
    ensures Award(p1, e1) <= Award(p2, e2)
  {
  }
}
