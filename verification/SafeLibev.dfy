/**
  The command queue through which other threads reach a libev event loop.

  A submission is named by its ticket, the number of submissions before it; the ticket stands
  for the callback. Ids are what the code stores: they wrap around after MAX_COMMAND_ID.
 */
module SafeLibevModel {
  import opened Basics

  const MAX_COMMAND_ID: nat := 268435455

  /** `notifies` marks the wrapper that runSync puts around its callback. */
  datatype Command = Command(ticket: nat, notifies: bool, id: nat, canceled: bool)

  function IncNextCommandId(id: nat): nat {
    if id == MAX_COMMAND_ID then 1 else id + 1
  }

  /** The id that the n-th submission gets. */
  function IdOf(ticket: nat): (id: nat)
    ensures 1 <= id <= MAX_COMMAND_ID
  {
    ticket % MAX_COMMAND_ID + 1
  }

  lemma IdsFollowTickets(ticket: nat)
    ensures IncNextCommandId(IdOf(ticket)) == IdOf(ticket + 1)
  {
    var q, r := ticket / MAX_COMMAND_ID, ticket % MAX_COMMAND_ID;
    if r == MAX_COMMAND_ID - 1 {
      assert ticket + 1 == (q + 1) * MAX_COMMAND_ID;
      DivModUnique(ticket + 1, q + 1, 0);
    } else {
      assert ticket + 1 == q * MAX_COMMAND_ID + (r + 1);
      DivModUnique(ticket + 1, q, r + 1);
    }
  }

  lemma DivModUnique(n: nat, q: nat, r: nat)
    requires n == q * MAX_COMMAND_ID + r && r < MAX_COMMAND_ID
    ensures n % MAX_COMMAND_ID == r
  {
  }

  /** Two submissions share an id exactly when they are a multiple of MAX_COMMAND_ID apart; closer
      ones have different ids, across wrap-around too. */
  lemma IdsDistinct(t: nat, u: nat)
    requires t < u <= t + MAX_COMMAND_ID
    ensures IdOf(t) == IdOf(u) <==> u == t + MAX_COMMAND_ID
  {
    var qt, rt := t / MAX_COMMAND_ID, t % MAX_COMMAND_ID;
    assert t == qt * MAX_COMMAND_ID + rt;
    if u < t + MAX_COMMAND_ID {
      if rt + (u - t) < MAX_COMMAND_ID {
        DivModUnique(u, qt, rt + (u - t));
      } else {
        DivModUnique(u, qt + 1, rt + (u - t) - MAX_COMMAND_ID);
      }
    } else {
      DivModUnique(u, qt + 1, rt);
    }
  }

  /** The ids in the queue are pairwise distinct if and only if it holds at most MAX_COMMAND_ID
      commands. */
  lemma PendingIdsDistinctIff(s: System)
    requires Ordered(s)
    ensures (forall i, j | 0 <= i < j < |s.commands| :: s.commands[i].id != s.commands[j].id)
       <==> |s.commands| <= MAX_COMMAND_ID
  {
    var q, h := s.commands, Head(s);
    if |q| <= MAX_COMMAND_ID {
      forall i, j | 0 <= i < j < |q| ensures q[i].id != q[j].id {
        IdsDistinct(h + i, h + j);
      }
    } else {
      IdsDistinct(h, h + MAX_COMMAND_ID);
      assert q[0].id == q[MAX_COMMAND_ID].id;
    }
  }

  /** The scan of cancelCommand: the first command with this id. */
  function Scan(q: seq<Command>, id: nat): (k: Option<nat>)
    ensures k.Some? ==> FirstWith(q, id, k.value)
    ensures k.None? ==> forall i | 0 <= i < |q| :: q[i].id != id
  {
    ScanFrom(q, id, 0)
  }

  function ScanFrom(q: seq<Command>, id: nat, i: nat): (k: Option<nat>)
    requires i <= |q| && forall j | 0 <= j < i :: q[j].id != id
    ensures k.Some? ==> FirstWith(q, id, k.value)
    ensures k.None? ==> forall j | 0 <= j < |q| :: q[j].id != id
    decreases |q| - i
  {
    if i == |q| then None else if q[i].id == id then Some(i) else ScanFrom(q, id, i + 1)
  }

  predicate FirstWith(q: seq<Command>, id: nat, k: int) {
    0 <= k < |q| && q[k].id == id && forall i | 0 <= i < k :: q[i].id != id
  }

  // ----- the threads

  datatype Loop =
    | Idle
    | Entered                                   // the async watcher fired, the lock is not yet taken
    | Running(batch: seq<Command>, notify: Option<nat>)  // `notify`: a runSync callback ran, `done` not yet set

  datatype System = System(
    commands: seq<Command>,
    nextCommandId: nat,
    submitted: nat,
    wakeup: bool,         // the pending flag of the async watcher
    loop: Loop,
    unsent: set<nat>,     // runLater calls between unlocking and ev_async_send
    waiting: set<nat>,    // runSync calls blocked on the condition variable
    done: set<nat>,
    returned: set<nat>,   // runSync calls that returned
    marked: set<nat>,     // tickets whose command was marked as canceled
    told: set<nat>,       // tickets whose holder got true from cancelCommand
    ran: seq<nat>)        // callbacks called so far, in order

  /** `Cancel` is a holder canceling the id that runLater gave it, however long ago; `CancelId` is
      anyone canceling any id. */
  datatype Action =
    | PushLater
    | Send(t: nat)
    | PushSync
    | Return(t: nat)
    | Cancel(t: nat)
    | CancelId(id: nat)
    | Wake
    | Drain
    | RunNext
    | Notify
    | Finish

  function Push(s: System, notifies: bool): System {
    s.(commands := s.commands + [Command(s.submitted, notifies, s.nextCommandId, false)],
       nextCommandId := IncNextCommandId(s.nextCommandId),
       submitted := s.submitted + 1)
  }

  function Hit(s: System, id: nat): Option<nat> {
    if id == 0 then None else Scan(s.commands, id)
  }

  function Mark(s: System, id: nat): System {
    match Hit(s, id)
    case None => s
    case Some(k) =>
      s.(commands := s.commands[k := s.commands[k].(canceled := true)], marked := s.marked + {s.commands[k].ticket})
  }

  /** The first ticket still in the queue; every smaller one was drained. */
  function Head(s: System): int {
    s.submitted - |s.commands|
  }

  /** Which steps can be taken. */
  predicate Enabled(s: System, a: Action) {
    match a
    case PushLater => true
    case Send(t) => t in s.unsent
    case PushSync => true
    case Return(t) => t in s.waiting && t in s.done
    case Cancel(t) => t < s.submitted && t !in s.waiting && t !in s.returned
    case CancelId(_) => true
    case Wake => s.loop == Idle && s.wakeup
    case Drain => s.loop == Entered
    case RunNext => s.loop.Running? && s.loop.notify == None && s.loop.batch != []
    case Notify => s.loop.Running? && s.loop.notify.Some?
    case Finish => s.loop == Running([], None)
  }

  function Step(s: System, a: Action): System
    requires Enabled(s, a)
  {
    match a
    case PushLater => Push(s, false).(unsent := s.unsent + {s.submitted})
    case Send(t) => s.(wakeup := true, unsent := s.unsent - {t})
    case PushSync => Push(s, true).(wakeup := true, waiting := s.waiting + {s.submitted})
    case Return(t) => s.(waiting := s.waiting - {t}, returned := s.returned + {t})
    case Cancel(t) => Mark(s, IdOf(t)).(told := s.told + if Hit(s, IdOf(t)).Some? then {t} else {})
    case CancelId(id) => Mark(s, id)
    case Wake => s.(wakeup := false, loop := Entered)
    case Drain => s.(loop := Running(s.commands, None), commands := [])
    case RunNext =>
      var c := s.loop.batch[0];
      var rest := s.loop.batch[1..];
      if c.canceled then s.(loop := Running(rest, None))
      else s.(ran := s.ran + [c.ticket], loop := Running(rest, if c.notifies then Some(c.ticket) else None))
    case Notify => s.(done := s.done + {s.loop.notify.value}, loop := s.loop.(notify := None))
    case Finish => s.(loop := Idle)
  }

  const Start := System([], 1, 0, false, Idle, {}, {}, {}, {}, {}, {}, [])

  predicate Legal(s: System, acts: seq<Action>)
    decreases |acts|
  {
    acts == [] || (Enabled(s, acts[0]) && Legal(Step(s, acts[0]), acts[1..]))
  }

  function Run(s: System, acts: seq<Action>): System
    requires Legal(s, acts)
    decreases |acts|
  {
    if acts == [] then s else Run(Step(s, acts[0]), acts[1..])
  }

  lemma {:induction false} RunAppend(s: System, a: seq<Action>, b: seq<Action>)
    requires Legal(s, a) && Legal(Run(s, a), b)
    ensures Legal(s, a + b) && Run(s, a + b) == Run(Run(s, a), b)
    decreases |a|
  {
    if a == [] {
      assert a + b == b;
    } else {
      assert (a + b)[0] == a[0] && (a + b)[1..] == a[1..] + b;
      hide Step, Enabled;
      RunAppend(Step(s, a[0]), a[1..], b);
    }
  }

  lemma RunOne(s: System, a: Action)
    requires Enabled(s, a)
    ensures Legal(s, [a]) && Run(s, [a]) == Step(s, a)
  {
    assert [a][1..] == [];
  }

  lemma RunSnoc(s: System, acts: seq<Action>, a: Action)
    requires Legal(s, acts) && Enabled(Run(s, acts), a)
    ensures Legal(s, acts + [a]) && Run(s, acts + [a]) == Step(Run(s, acts), a)
  {
    hide Step, Enabled;
    RunOne(Run(s, acts), a);
    RunAppend(s, acts, [a]);
  }

  // ----- the invariant

  function Batch(s: System): seq<Command> {
    if s.loop.Running? then s.loop.batch else []
  }

  /** The commands of `q` are the submissions from `first` on, without a gap; a command carries the
      mark exactly when it was marked, and only runSync's notify. */
  predicate Segment(q: seq<Command>, first: int, marked: set<nat>, synchronous: set<nat>) {
    && 0 <= first
    && forall i | 0 <= i < |q| ::
         q[i] == Command(first + i, first + i in synchronous, IdOf(first + i), first + i in marked)
  }

  /** The first ticket that was neither called nor skipped. */
  function Frontier(s: System): int {
    Head(s) - |Batch(s)|
  }

  predicate Ascending(r: seq<nat>) {
    forall i, j | 0 <= i < j < |r| :: r[i] < r[j]
  }

  predicate Ordered(s: System) {
    && s.nextCommandId == IdOf(s.submitted)
    && Segment(s.commands, Head(s), s.marked, s.waiting + s.returned)
    && Segment(Batch(s), Frontier(s), s.marked, s.waiting + s.returned)
  }

  /** Exactly once, in order: what lies behind the frontier was called, unless it was marked. */
  ghost predicate ExactlyOnce(s: System) {
    && Ascending(s.ran)
    && (forall t: nat :: t in s.ran <==> t < Frontier(s) && t !in s.marked)
  }

  /** No wake-up is lost: a command whose push was announced is waited for by nobody in vain. */
  predicate Announced(s: System) {
    forall t: nat | Head(s) <= t < s.submitted && t !in s.unsent :: s.wakeup || s.loop == Entered
  }

  predicate Synchronous(s: System) {
    && s.waiting !! s.returned
    && (forall t <- s.waiting + s.returned :: t < s.submitted && t !in s.unsent && t !in s.told)
    && (forall t <- s.unsent :: t < s.submitted)
    && (forall t <- s.marked :: t < s.submitted)
    && (forall t <- s.told :: t < s.submitted)
    && (forall t <- s.done :: t < s.submitted)
    && (forall t <- s.waiting :: t in s.done <==> t in s.ran && !(s.loop.Running? && s.loop.notify == Some(t)))
    && (forall t <- s.returned :: t in s.ran)
    && (s.loop.Running? && s.loop.notify.Some? ==> s.loop.notify.value in s.waiting && s.loop.notify.value in s.ran)
  }

  ghost predicate Inv(s: System) {
    Ordered(s) && ExactlyOnce(s) && Announced(s) && Synchronous(s)
  }

  // ----- what a cancelation hits

  /** Canceling the id of ticket `t` marks `t` itself exactly when `t` is among the first
      MAX_COMMAND_ID commands of the queue. */
  lemma CancelTarget(s: System, t: nat)
    requires Ordered(s) && t < s.submitted
    ensures FirstWith(s.commands, IdOf(t), t - Head(s)) <==> Head(s) <= t < Head(s) + MAX_COMMAND_ID
  {
    var q, h := s.commands, Head(s);
    if h <= t < h + MAX_COMMAND_ID {
      forall i | 0 <= i < t - h ensures q[i].id != IdOf(t) {
        IdsDistinct(h + i, t);
      }
    } else if h + MAX_COMMAND_ID <= t {
      IdsDistinct(t - MAX_COMMAND_ID, t);
      assert q[t - h - MAX_COMMAND_ID].id == IdOf(t);
    }
  }

  /** Whoever cancels an id, and whether or not it is its own: the first queued command with that id is
      marked, and no other; without one nothing changes. */
  lemma AnyIdCancelsFirst(s: System, id: nat, k: nat)
    ensures FirstWith(s.commands, id, k) && id != 0 ==>
              && Step(s, CancelId(id)).commands == s.commands[k := s.commands[k].(canceled := true)]
              && Step(s, CancelId(id)).marked == s.marked + {s.commands[k].ticket}
    ensures id == 0 || (forall i | 0 <= i < |s.commands| :: s.commands[i].id != id) ==> Step(s, CancelId(id)) == s
  {
  }

  /** The bound under which a holder can rely on its id: fewer than MAX_COMMAND_ID ids were issued
      since, and no id is queued twice. */
  predicate Timely(s: System, t: nat) {
    s.submitted - t <= MAX_COMMAND_ID && |s.commands| <= MAX_COMMAND_ID
  }

  /** Within the bound canceling succeeds exactly when `t` is still queued, and hits `t`. */
  lemma CancelHitsItsTicket(s: System, t: nat)
    requires Ordered(s) && t < s.submitted && Timely(s, t)
    ensures Hit(s, IdOf(t)) == if Head(s) <= t then Some(t - Head(s)) else None
  {
    var q, h := s.commands, Head(s);
    CancelTarget(s, t);
    if t < h {
      forall i | 0 <= i < |q| ensures q[i].id != IdOf(t) {
        IdsDistinct(t, h + i);
      }
    }
  }

  /** Both bounds are needed. A ticket that left the queue and whose id was issued again, or one
      behind more than MAX_COMMAND_ID queued commands, gets the answer true while another command
      is marked. */
  lemma CancelHitsAnother(s: System, t: nat)
    requires Ordered(s)
    requires (t < Head(s) <= t + MAX_COMMAND_ID < s.submitted) || (Head(s) + MAX_COMMAND_ID <= t < s.submitted)
    ensures Hit(s, IdOf(t)).Some? && Hit(s, IdOf(t)).value != t - Head(s)
  {
    var u := if t < Head(s) then t + MAX_COMMAND_ID else t - MAX_COMMAND_ID;
    IdsDistinct(if t < u then t else u, if t < u then u else t);
    assert s.commands[u - Head(s)].id == IdOf(t);
    CancelTarget(s, t);
  }

  // ----- every interleaving

  lemma PushKeepsInv(s: System, notifies: bool)
    requires Inv(s)
    ensures Inv(Step(s, if notifies then PushSync else PushLater))
  {
    IdsFollowTickets(s.submitted);
    hide IdOf, IncNextCommandId;
    var v := Step(s, if notifies then PushSync else PushLater);
    assert Head(v) == Head(s) && Frontier(v) == Frontier(s) && Batch(v) == Batch(s);
    assert Segment(v.commands, Head(v), v.marked, v.waiting + v.returned);
    assert Segment(Batch(v), Frontier(v), v.marked, v.waiting + v.returned);
    assert ExactlyOnce(v);
  }

  /** Whatever id is canceled, and whosever command it hits. */
  lemma MarkKeepsInv(s: System, id: nat)
    requires Inv(s)
    ensures Inv(Mark(s, id))
  {
    hide IdOf, Scan;
    var v := Mark(s, id);
    var k := Hit(s, id);
    if k.Some? {
      assert s.commands[k.value].ticket == Head(s) + k.value;
      assert Head(v) == Head(s) && Frontier(v) == Frontier(s) && Batch(v) == Batch(s);
      assert Segment(v.commands, Head(v), v.marked, v.waiting + v.returned);
      assert Segment(Batch(v), Frontier(v), v.marked, v.waiting + v.returned);
      assert ExactlyOnce(v);
    }
  }

  lemma CancelKeepsInv(s: System, t: nat)
    requires Inv(s) && Enabled(s, Cancel(t))
    ensures Inv(Step(s, Cancel(t)))
  {
    MarkKeepsInv(s, IdOf(t));
    hide IdOf, Segment, Ascending;
    var u, v := Mark(s, IdOf(t)), Step(s, Cancel(t));
    assert Head(v) == Head(u) && Batch(v) == Batch(u) && Frontier(v) == Frontier(u);
    assert ExactlyOnce(v);
  }

  lemma RunNextKeepsOrder(s: System)
    requires Inv(s) && Enabled(s, RunNext)
    ensures Ordered(Step(s, RunNext)) && Frontier(Step(s, RunNext)) == Frontier(s) + 1
    ensures s.loop.batch[0].ticket == Frontier(s)
  {
    hide IdOf, ExactlyOnce, Synchronous;
    var v := Step(s, RunNext);
    forall i | 0 <= i < |Batch(v)|
      ensures Batch(v)[i] == Command(Frontier(v) + i, Frontier(v) + i in v.waiting + v.returned, IdOf(Frontier(v) + i),
                                     Frontier(v) + i in v.marked)
    {
      assert Batch(v)[i] == Batch(s)[i + 1];
    }
  }

  /** The callback that is called next is new and lies behind all that ran. */
  lemma RunNextKeepsOnce(s: System)
    requires Inv(s) && Enabled(s, RunNext)
    ensures ExactlyOnce(Step(s, RunNext))
  {
    RunNextKeepsOrder(s);
    var v := Step(s, RunNext);
    var t := s.loop.batch[0].ticket;
    assert s.loop.batch[0].canceled <==> t in s.marked;
    hide IdOf, Segment, Ordered, Synchronous;
    forall u: nat ensures u in v.ran <==> u < Frontier(v) && u !in v.marked {
      assert u in s.ran <==> u < Frontier(s) && u !in s.marked;
    }
    assert forall i | 0 <= i < |s.ran| :: s.ran[i] in s.ran;
    assert Ascending(v.ran);
  }

  lemma RunNextKeepsSync(s: System)
    requires Inv(s) && Enabled(s, RunNext)
    ensures Announced(Step(s, RunNext)) && Synchronous(Step(s, RunNext))
  {
    RunNextKeepsOrder(s);
    var t := s.loop.batch[0].ticket;
    assert t !in s.ran && t !in s.returned;
    assert s.loop.batch[0].notifies <==> t in s.waiting;
    hide IdOf, Segment, Ordered, ExactlyOnce;
  }

  lemma RunNextKeepsInv(s: System)
    requires Inv(s) && Enabled(s, RunNext)
    ensures Inv(Step(s, RunNext))
  {
    RunNextKeepsOrder(s);
    RunNextKeepsOnce(s);
    RunNextKeepsSync(s);
    hide Step, Ordered, ExactlyOnce, Announced, Synchronous;
  }

  lemma DrainKeepsInv(s: System)
    requires Inv(s) && Enabled(s, Drain)
    ensures Inv(Step(s, Drain))
  {
  }

  lemma SignalKeepsInv(s: System, a: Action)
    requires Inv(s) && Enabled(s, a) && (a.Send? || a.Return? || a.Wake? || a.Notify? || a.Finish?)
    ensures Inv(Step(s, a))
  {
    hide IdOf;
    var v := Step(s, a);
    assert Head(v) == Head(s) && Batch(v) == Batch(s) && v.ran == s.ran;
    assert v.waiting + v.returned == s.waiting + s.returned;
  }

  lemma StepKeepsInv(s: System, a: Action)
    requires Inv(s) && Enabled(s, a)
    ensures Inv(Step(s, a))
  {
    hide Inv;
    match a
    case PushLater => PushKeepsInv(s, false);
    case PushSync => PushKeepsInv(s, true);
    case Cancel(t) => CancelKeepsInv(s, t);
    case CancelId(id) => MarkKeepsInv(s, id);
    case RunNext => RunNextKeepsInv(s);
    case Drain => DrainKeepsInv(s);
    case _ => SignalKeepsInv(s, a);
  }

  lemma {:induction false} RunKeepsInv(s: System, acts: seq<Action>)
    requires Inv(s) && Legal(s, acts)
    ensures Inv(Run(s, acts))
    decreases |acts|
  {
    if acts != [] {
      StepKeepsInv(s, acts[0]);
      RunKeepsInv(Step(s, acts[0]), acts[1..]);
    }
  }

  /** For every interleaving of producers, the loop and cancelers of any ids: commands run in
      submission order, each once, and exactly those behind the frontier ran that were not marked. */
  lemma EveryInterleaving(acts: seq<Action>)
    requires Legal(Start, acts)
    ensures Inv(Run(Start, acts))
  {
    RunKeepsInv(Start, acts);
  }

  // ----- which callbacks are called

  lemma StepKeepsMarks(s: System, a: Action)
    requires Enabled(s, a)
    ensures s.marked <= Step(s, a).marked && s.submitted <= Step(s, a).submitted
  {
  }

  /** A marked command is never called, however the run goes on. */
  lemma {:induction false} MarkedNeverRuns(s: System, t: nat, acts: seq<Action>)
    requires Inv(s) && t in s.marked && Legal(s, acts)
    ensures t !in Run(s, acts).ran
    decreases |acts|
  {
    if acts != [] {
      StepKeepsInv(s, acts[0]);
      StepKeepsMarks(s, acts[0]);
      MarkedNeverRuns(Step(s, acts[0]), t, acts[1..]);
    }
  }

  /** A command that is neither called nor marked, and whose push was announced, keeps the loop
      awake. */
  lemma UncalledKeepsLoopAwake(s: System, t: nat)
    requires Inv(s) && t < s.submitted && t !in s.unsent && t !in s.marked && t !in s.ran
    ensures s.loop != Idle || s.wakeup
  {
    if t < Head(s) {
      assert Frontier(s) <= t;
    }
  }

  /** The loop's next step, when it is not asleep. */
  function LoopAction(s: System): (a: Action)
    requires s.loop != Idle || s.wakeup
    ensures Enabled(s, a) && (a.Wake? || a.Drain? || a.RunNext? || a.Notify? || a.Finish?)
  {
    match s.loop
    case Idle => Wake
    case Entered => Drain
    case Running(batch, notify) => if notify.Some? then Notify else if batch == [] then Finish else RunNext
  }

  /** How many steps the loop takes at most until it has called everything. */
  function Distance(s: System): nat {
    2 * |s.commands| + 2 * |Batch(s)| + (
      match s.loop
      case Idle => 3
      case Entered => 2
      case Running(batch, notify) => (if notify.Some? then 1 else 0) + if s.commands == [] then 0 else 4)
  }

  lemma LoopStepAdvances(s: System, t: nat)
    requires Inv(s) && t < s.submitted && t !in s.marked && t !in s.ran
    requires s.loop != Idle || s.wakeup
    ensures
      var v := Step(s, LoopAction(s));
      && v.submitted == s.submitted && v.marked == s.marked && v.unsent == s.unsent && v.waiting == s.waiting
      && Distance(v) < Distance(s)
  {
    if s.loop == Running([], None) {
      assert Head(s) <= t;
      assert s.commands != [];
    }
  }

  /** With the loop alone at work, every announced command that is not marked is called after
      finitely many steps. */
  lemma {:induction false} LoopCalls(s: System, t: nat) returns (acts: seq<Action>)
    requires Inv(s) && t < s.submitted && t !in s.unsent && t !in s.marked
    ensures Legal(s, acts) && t in Run(s, acts).ran && Inv(Run(s, acts)) && Run(s, acts).waiting == s.waiting
    decreases Distance(s)
  {
    if t in s.ran {
      acts := [];
    } else {
      UncalledKeepsLoopAwake(s, t);
      LoopStepAdvances(s, t);
      var a := LoopAction(s);
      StepKeepsInv(s, a);
      hide Inv, Step, Distance, LoopAction;
      var rest := LoopCalls(Step(s, a), t);
      acts := [a] + rest;
      assert acts[1..] == rest;
    }
  }

  lemma CanStillRun(s: System, t: nat) returns (acts: seq<Action>)
    requires Inv(s) && t < s.submitted && t !in s.marked
    ensures Legal(s, acts) && t in Run(s, acts).ran
  {
    if t !in s.unsent {
      acts := LoopCalls(s, t);
    } else {
      StepKeepsInv(s, Send(t));
      var v := Step(s, Send(t));
      assert v.submitted == s.submitted && v.marked == s.marked && t !in v.unsent;
      RunOne(s, Send(t));
      hide Inv, Step, Legal, Run;
      var rest := LoopCalls(v, t);
      RunAppend(s, [Send(t)], rest);
      acts := [Send(t)] + rest;
    }
  }

  /** A submitted callback can still be called, or was, if and only if its command is not marked. */
  lemma RunsIffUnmarked(s: System, t: nat)
    requires Inv(s) && t < s.submitted
    ensures (exists acts :: Legal(s, acts) && t in Run(s, acts).ran) <==> t !in s.marked
  {
    if t in s.marked {
      hide Legal, Run, Inv;
      forall acts | Legal(s, acts) ensures t !in Run(s, acts).ran {
        MarkedNeverRuns(s, t, acts);
      }
    } else {
      var acts := CanStillRun(s, t);
    }
  }

  // ----- what the holder is told

  /** A holder cancels within the bound, and nobody cancels an id that is not its own. */
  predicate InBounds(s: System, a: Action) {
    match a
    case Cancel(t) => Timely(s, t)
    case CancelId(id) => Hit(s, id).None?
    case _ => true
  }

  predicate AllInBounds(s: System, acts: seq<Action>)
    requires Legal(s, acts)
    decreases |acts|
  {
    acts == [] || (InBounds(s, acts[0]) && AllInBounds(Step(s, acts[0]), acts[1..]))
  }

  lemma InBoundsKeepsTold(s: System, a: Action)
    requires Inv(s) && Enabled(s, a) && InBounds(s, a) && s.marked == s.told
    ensures Step(s, a).marked == Step(s, a).told
  {
    if a.Cancel? {
      CancelHitsItsTicket(s, a.t);
    }
  }

  /** As long as all cancelations are within the bound, the marked commands are exactly those whose
      holder was told so. */
  lemma {:induction false} MarkedIsTold(s: System, acts: seq<Action>)
    requires Inv(s) && s.marked == s.told && Legal(s, acts) && AllInBounds(s, acts)
    ensures Run(s, acts).marked == Run(s, acts).told
    decreases |acts|
  {
    if acts != [] {
      StepKeepsInv(s, acts[0]);
      InBoundsKeepsTold(s, acts[0]);
      MarkedIsTold(Step(s, acts[0]), acts[1..]);
    }
  }

  /** A command whose cancelCommand returned true is never called, if until then all cancelations
      were within the bound; what happens later does not matter. */
  lemma CanceledNeverRuns(before: seq<Action>, t: nat, after: seq<Action>)
    requires Legal(Start, before) && AllInBounds(Start, before) && t in Run(Start, before).told
    requires Legal(Run(Start, before), after)
    ensures t !in Run(Run(Start, before), after).ran
  {
    assert Inv(Start);
    RunKeepsInv(Start, before);
    MarkedIsTold(Start, before);
    MarkedNeverRuns(Run(Start, before), t, after);
  }

  /** The answer true promises that the callback will not be called in the future. It is called all
      the same in some continuation if and only if its command still waits in the drained batch, or in
      the queue behind MAX_COMMAND_ID others, and is not marked. */
  lemma TruePromiseBrokenIff(s: System, t: nat)
    requires Inv(s) && Enabled(s, Cancel(t)) && Hit(s, IdOf(t)).Some?
    ensures
      var v := Step(s, Cancel(t));
      (exists acts :: Legal(v, acts) && t in Run(v, acts).ran && t !in v.ran) <==>
        Frontier(s) <= t && !(Head(s) <= t < Head(s) + MAX_COMMAND_ID) && t !in s.marked
  {
    var v := Step(s, Cancel(t));
    var k := Hit(s, IdOf(t)).value;
    StepKeepsInv(s, Cancel(t));
    CancelTarget(s, t);
    assert s.commands[k].ticket == Head(s) + k;
    assert t in v.marked <==> t in s.marked || t == Head(s) + k;
    assert t in s.ran <==> t < Frontier(s) && t !in s.marked;
    assert v.ran == s.ran && v.submitted == s.submitted;
    hide Legal, Run, Step, Inv, IdOf, Hit, Frontier, Head;
    RunsIffUnmarked(v, t);
  }

  /** The answer false means, says the comment on cancelCommand, that the callback was called or is
      being called. That is so if and only if its command has also left the drained batch, and was not
      marked by an earlier cancelation. */
  lemma FalseMeansCalledIff(s: System, t: nat)
    requires Inv(s) && t < s.submitted && Hit(s, IdOf(t)).None?
    ensures t in s.ran <==> t < Frontier(s) && t !in s.marked
    ensures t in s.ran <==> (forall c <- Batch(s) :: c.ticket != t) && t !in s.marked
  {
    assert Head(s) <= t ==> s.commands[t - Head(s)].id == IdOf(t);
    if Frontier(s) <= t {
      assert Batch(s)[t - Frontier(s)].ticket == t;
    }
  }

  // ----- runSync

  /** A blocked runSync call whose command is not marked never waits on an idle loop. */
  lemma WaiterKeepsLoopAwake(s: System, t: nat)
    requires Inv(s) && t in s.waiting && t !in s.done && t !in s.marked
    ensures s.loop != Idle || s.wakeup
  {
    if t !in s.ran {
      UncalledKeepsLoopAwake(s, t);
    }
  }

  /** runSync returns only after its own callback ran. */
  lemma ReturnMeansRan(s: System, t: nat)
    requires Inv(s) && Enabled(s, Return(t))
    ensures t in s.ran
  {
  }

  /** With the loop alone at work, a blocked runSync call whose command is not marked is signaled
      after finitely many steps. */
  lemma LoopServesWaiter(s: System, t: nat) returns (acts: seq<Action>)
    requires Inv(s) && t in s.waiting && t !in s.marked
    ensures Legal(s, acts) && t in Run(s, acts).done
  {
    acts := LoopCalls(s, t);
    var v := Run(s, acts);
    if t !in v.done {
      assert v.loop.Running? && v.loop.notify == Some(t);
      RunSnoc(s, acts, Notify);
      acts := acts + [Notify];
    }
  }

  /** One whose command is marked blocks forever. */
  lemma {:induction false} MarkedWaiterIsStranded(s: System, t: nat, acts: seq<Action>)
    requires Inv(s) && t in s.waiting && t in s.marked && Legal(s, acts)
    ensures t in Run(s, acts).waiting && t !in Run(s, acts).done
    decreases |acts|
  {
    assert t !in s.ran && t !in s.done;
    if acts != [] {
      StepKeepsInv(s, acts[0]);
      StepKeepsMarks(s, acts[0]);
      assert t in Step(s, acts[0]).waiting;
      MarkedWaiterIsStranded(Step(s, acts[0]), t, acts[1..]);
    }
  }

  /** A blocked runSync call can be served if and only if its command is not marked. */
  lemma WaiterServedIff(s: System, t: nat)
    requires Inv(s) && t in s.waiting
    ensures (exists acts :: Legal(s, acts) && t in Run(s, acts).done) <==> t !in s.marked
  {
    if t in s.marked {
      forall acts | Legal(s, acts) ensures t !in Run(s, acts).done {
        MarkedWaiterIsStranded(s, t, acts);
      }
    } else {
      var acts := LoopServesWaiter(s, t);
    }
  }

  /** Within the bound no blocked call is ever marked, so each can be served. */
  lemma WaitersServedInBounds(acts: seq<Action>, t: nat)
    requires Legal(Start, acts) && AllInBounds(Start, acts) && t in Run(Start, acts).waiting
    ensures t !in Run(Start, acts).marked
  {
    assert Inv(Start);
    RunKeepsInv(Start, acts);
    MarkedIsTold(Start, acts);
  }

  // ----- one activation of the loop

  /** The commands of a drained batch that get called, in order. */
  function Called(batch: seq<Command>): seq<nat> {
    if batch == [] then [] else (if batch[0].canceled then [] else [batch[0].ticket]) + Called(batch[1..])
  }

  /** Once a batch is drained, the loop calls exactly its uncanceled commands, in order, and leaves
      the queue alone. */
  lemma {:induction false} LoopRunsBatch(s: System) returns (acts: seq<Action>)
    requires s.loop.Running?
    ensures Legal(s, acts)
    ensures
      var v := Run(s, acts);
      && v.loop == Running([], None) && v.ran == s.ran + Called(s.loop.batch)
      && v.commands == s.commands && v.nextCommandId == s.nextCommandId && v.submitted == s.submitted
    decreases |s.loop.batch|, s.loop.notify.Some?
  {
    if s.loop.notify.Some? || s.loop.batch != [] {
      var a := if s.loop.notify.Some? then Notify else RunNext;
      var v := Step(s, a);
      assert s.ran + Called(s.loop.batch) == v.ran + Called(v.loop.batch);
      var rest := LoopRunsBatch(v);
      acts := [a] + rest;
      hide Called;
      assert acts[1..] == rest;
    } else {
      acts := [];
    }
  }

  // ----- runs that end badly

  /** One submission that was drained and not yet called. */
  lemma ReachesDrained() returns (acts: seq<Action>)
    ensures Legal(Start, acts) && Inv(Run(Start, acts))
    ensures Run(Start, acts) ==
      Start.(nextCommandId := 2, submitted := 1, loop := Running([Command(0, false, 1, false)], None))
  {
    assert Inv(Start);
    RunOne(Start, PushLater);
    RunSnoc(Start, [PushLater], Send(0));
    RunSnoc(Start, [PushLater] + [Send(0)], Wake);
    RunSnoc(Start, [PushLater] + [Send(0)] + [Wake], Drain);
    acts := [PushLater] + [Send(0)] + [Wake] + [Drain];
    RunKeepsInv(Start, acts);
  }

  /** A run in which the answer is false, the command was not called before, and is called later. */
  lemma RefusedCancelRunsLater() returns (before: seq<Action>, after: seq<Action>)
    ensures Legal(Start, before) && Enabled(Run(Start, before), Cancel(0))
    ensures
      var s := Run(Start, before);
      && Hit(s, IdOf(0)).None? && 0 !in s.ran
      && Step(s, Cancel(0)) == s && Legal(s, after) && 0 in Run(s, after).ran
  {
    before := ReachesDrained();
    after := [RunNext];
    RunOne(Run(Start, before), RunNext);
  }

  /** A run in which a second cancelation is answered with false although the callback was never
      called, and is called in no continuation. */
  lemma RefusedCancelNeverRuns() returns (acts: seq<Action>)
    ensures Legal(Start, acts) && Enabled(Run(Start, acts), Cancel(0))
    ensures
      var s := Run(Start, acts);
      && Hit(s, IdOf(0)).None? && Batch(s) == [] && 0 !in s.ran
      && forall more | Legal(s, more) :: 0 !in Run(s, more).ran
  {
    acts := ReachesSkipped();
    var s := Run(Start, acts);
    hide Step, Inv, Legal, Run;
    forall more | Legal(s, more) ensures 0 !in Run(s, more).ran {
      MarkedNeverRuns(s, 0, more);
    }
  }

  /** One submission that was canceled, drained and skipped. */
  lemma ReachesSkipped() returns (acts: seq<Action>)
    ensures Legal(Start, acts) && Inv(Run(Start, acts))
    ensures Run(Start, acts) ==
      Start.(nextCommandId := 2, submitted := 1, loop := Running([], None), marked := {0}, told := {0})
  {
    var canceled := ReachesCanceled();
    var c := Run(Start, canceled);
    RunOne(c, Wake);
    RunSnoc(c, [Wake], Drain);
    RunSnoc(c, [Wake] + [Drain], RunNext);
    var rest := [Wake] + [Drain] + [RunNext];
    RunKeepsInv(c, rest);
    hide Inv;
    RunAppend(Start, canceled, rest);
    acts := canceled + rest;
  }

  /** One submission whose holder canceled it in time. */
  lemma ReachesCanceled() returns (acts: seq<Action>)
    ensures Legal(Start, acts) && Inv(Run(Start, acts))
    ensures Run(Start, acts) ==
      Start.(commands := [Command(0, false, 1, true)], nextCommandId := 2, submitted := 1, wakeup := true,
             marked := {0}, told := {0})
  {
    assert Inv(Start);
    RunOne(Start, PushLater);
    RunSnoc(Start, [PushLater], Send(0));
    var first := [PushLater] + [Send(0)];
    assert Run(Start, first).commands == [Command(0, false, 1, false)];
    assert Hit(Run(Start, first), 1) == Some(0);
    RunSnoc(Start, first, Cancel(0));
    acts := first + [Cancel(0)];
    RunKeepsInv(Start, acts);
  }

  lemma {:induction false} ManyPushes(s: System, n: nat) returns (acts: seq<Action>)
    requires Inv(s) && s.commands == []
    ensures Legal(s, acts) && Inv(Run(s, acts))
    ensures
      var v := Run(s, acts);
      && |v.commands| == n && v.submitted == s.submitted + n && v.ran == s.ran && v.loop == s.loop
      && v.waiting == s.waiting && v.returned == s.returned && v.marked == s.marked && v.done == s.done
    decreases n
  {
    if n == 0 {
      acts := [];
    } else {
      var shorter := ManyPushes(s, n - 1);
      acts := shorter + [PushLater];
      RunSnoc(s, shorter, PushLater);
      StepKeepsInv(Run(s, shorter), PushLater);
    }
  }

  /** Without the bound the promise fails: after MAX_COMMAND_ID further submissions the id of a
      command that was already called names another one, and canceling it succeeds. */
  lemma IdHeldTooLong(s: System, t: nat) returns (acts: seq<Action>)
    requires Inv(s) && s.commands == [] && t in s.ran && t + 1 == s.submitted
    ensures Legal(s, acts)
    ensures
      var v := Run(s, acts);
      t in v.ran && v.submitted - t == MAX_COMMAND_ID + 1 && Hit(v, IdOf(t)).Some?
  {
    acts := ManyPushes(s, MAX_COMMAND_ID);
    CancelHitsAnother(Run(s, acts), t);
  }

  /** A run in which the holder of a drained command is told true, and its callback is called after
      that. */
  lemma ToldTrueThenCalled() returns (before: seq<Action>)
    ensures Legal(Start, before) && Enabled(Run(Start, before), Cancel(0))
    ensures
      var s := Run(Start, before);
      var v := Step(s, Cancel(0));
      Hit(s, IdOf(0)).Some? && 0 in v.told && 0 !in v.ran && Enabled(v, RunNext) && 0 in Step(v, RunNext).ran
  {
    var drained := ReachesDrained();
    var d := Run(Start, drained);
    var pushes := ManyPushes(d, MAX_COMMAND_ID);
    RunAppend(Start, drained, pushes);
    before := drained + pushes;
    var s := Run(Start, before);
    assert s == Run(d, pushes);
    CancelHitsAnother(s, 0);
    assert s.loop == Running([Command(0, false, 1, false)], None);
  }

  /** After MAX_COMMAND_ID - 1 further submissions comes a runSync call, which gets the id of `t`.
      The holder of `t` is told true, and the call is marked and blocks forever. */
  lemma StaleCancelMarksWaiter(s: System, t: nat) returns (acts: seq<Action>)
    requires Inv(s) && s.commands == [] && t in s.ran && t + 1 == s.submitted
    requires t !in s.waiting && t !in s.returned
    ensures Legal(s, acts)
    ensures
      var v := Run(s, acts);
      var u := t + MAX_COMMAND_ID;
      Inv(v) && t in v.told && t in v.ran && u in v.waiting && u in v.marked
  {
    var pushes := ManyPushes(s, MAX_COMMAND_ID - 1);
    var w := Run(s, pushes);
    assert Enabled(w, PushSync);
    RunSnoc(s, pushes, PushSync);
    StepKeepsInv(w, PushSync);
    var x := Step(w, PushSync);
    SyncGetsStaleId(w, t);
    RunSnoc(s, pushes + [PushSync], Cancel(t));
    StepKeepsInv(x, Cancel(t));
    acts := pushes + [PushSync] + [Cancel(t)];
  }

  lemma SyncGetsStaleId(w: System, t: nat)
    requires Inv(w) && w.submitted == t + MAX_COMMAND_ID && |w.commands| == MAX_COMMAND_ID - 1
    ensures
      var x := Step(w, PushSync);
      && Hit(x, IdOf(t)) == Some(MAX_COMMAND_ID - 1)
      && x.commands[MAX_COMMAND_ID - 1].ticket == t + MAX_COMMAND_ID
      && t + MAX_COMMAND_ID in x.waiting && x.ran == w.ran && x.told == w.told
      && x.waiting == w.waiting + {t + MAX_COMMAND_ID} && x.returned == w.returned && x.submitted > t
  {
    StepKeepsInv(w, PushSync);
    var x := Step(w, PushSync);
    var u := t + MAX_COMMAND_ID;
    IdsDistinct(t, u);
    CancelTarget(x, u);
    assert Head(x) == t + 1;
  }

  /** A whole run in which a holder cancels an old id, is told true, and thereby leaves a runSync
      call blocked in every continuation. */
  lemma StaleCancelStrandsWaiter() returns (acts: seq<Action>, u: nat)
    ensures Legal(Start, acts)
    ensures
      var v := Run(Start, acts);
      && 0 in v.told && 0 in v.ran && u in v.waiting
      && forall more | Legal(v, more) :: u in Run(v, more).waiting && u !in Run(v, more).done
  {
    var drained := ReachesDrained();
    RunSnoc(Start, drained, RunNext);
    StepKeepsInv(Run(Start, drained), RunNext);
    var first := drained + [RunNext];
    var s := Run(Start, first);
    assert s.ran == [0] && s.commands == [] && s.submitted == 1;
    hide Step, Enabled, Inv;
    var rest := StaleCancelMarksWaiter(s, 0);
    RunAppend(Start, first, rest);
    acts, u := first + rest, MAX_COMMAND_ID;
    var v := Run(Start, acts);
    forall more | Legal(v, more) ensures u in Run(v, more).waiting && u !in Run(v, more).done {
      MarkedWaiterIsStranded(v, u, more);
    }
  }
}

module SafeLibev {
  import opened Basics
  import opened SafeLibevModel

  /** The queue as an object. `system` is the system it is part of, with its other threads. */
  class Queue {
    var commands: seq<Command>
    var nextCommandId: nat
    ghost var system: System

    ghost predicate Valid()
      reads this
    {
      system.commands == commands && system.nextCommandId == nextCommandId && Inv(system)
    }

    constructor ()
      ensures Valid() && system == Start
    {
      commands, nextCommandId, system := [], 1, Start;
    }

    /** The critical section of runLater and runSync. `callback` is the submission's ticket. */
    method Submit(callback: nat, notifies: bool) returns (id: nat)
      requires Valid() && callback == system.submitted
      modifies this
      ensures Valid() && system == Step(old(system), if notifies then PushSync else PushLater)
      ensures id == IdOf(callback)
    {
      hide IdOf;
      StepKeepsInv(system, if notifies then PushSync else PushLater);
      system := Step(system, if notifies then PushSync else PushLater);
      commands := commands + [Command(callback, notifies, nextCommandId, false)];
      id := nextCommandId;
      if nextCommandId == MAX_COMMAND_ID {
        nextCommandId := 1;
      } else {
        nextCommandId := nextCommandId + 1;
      }
    }

    /** `holder` is the ticket that the id was given out for, if the caller is its holder. */
    method CancelCommand(id: nat, ghost holder: Option<nat>) returns (canceled: bool)
      requires Valid()
      requires holder.Some? ==> Enabled(system, Cancel(holder.value)) && id == IdOf(holder.value)
      modifies this
      ensures Valid()
      ensures system == Step(old(system), if holder.Some? then Cancel(holder.value) else CancelId(id))
      ensures canceled <==> Hit(old(system), id).Some?
    {
      ghost var act := if holder.Some? then Cancel(holder.value) else CancelId(id);
      StepKeepsInv(system, act);
      system := Step(system, act);
      if id == 0 {
        return false;
      }
      hide Inv, IdOf;
      var i := 0;
      while i < |commands|
        invariant 0 <= i <= |commands|
        invariant commands == old(commands) && nextCommandId == old(nextCommandId)
        invariant system == Step(old(system), act)
        invariant forall j | 0 <= j < i :: commands[j].id != id
      {
        if commands[i].id == id {
          commands := commands[i := commands[i].(canceled := true)];
          return true;
        }
        i := i + 1;
      }
      return false;
    }

    /** One activation of the async watcher, without interference: the queue is taken over as a
        whole and its commands are called in order, canceled ones skipped. `acts` are the loop's steps. */
    method RunCommands() returns (called: seq<nat>, ghost acts: seq<Action>)
      requires Valid() && system.loop == Idle && system.wakeup
      modifies this
      ensures Valid() && commands == []
      ensures Legal(old(system), acts) && system == Run(old(system), acts) && system.loop == Idle
      ensures called == Called(old(commands)) && system.ran == old(system.ran) + called
    {
      hide Inv, Run, Legal, Called;
      acts := Activation(system);
      RunKeepsInv(system, acts);
      system := Run(system, acts);
      var batch := commands;
      commands := [];
      called := CallAll(batch);
    }
  }

  lemma CallNext(called: seq<nat>, batch: seq<Command>, i: nat)
    requires i < |batch|
    ensures called + Called(batch[i..]) ==
      (called + if batch[i].canceled then [] else [batch[i].ticket]) + Called(batch[i + 1..])
  {
    assert batch[i..][0] == batch[i] && batch[i..][1..] == batch[i + 1..];
  }

  /** The loop over the drained vector. */
  method CallAll(batch: seq<Command>) returns (called: seq<nat>)
    ensures called == Called(batch)
  {
    called := [];
    var i := 0;
    assert batch[0..] == batch;
    while i < |batch|
      invariant 0 <= i <= |batch|
      invariant called + Called(batch[i..]) == Called(batch)
    {
      hide Called;
      CallNext(called, batch, i);
      if !batch[i].canceled {
        called := called + [batch[i].ticket];
      } else {
        assert called + [] == called;
      }
      i := i + 1;
    }
  }

  /** The steps of one undisturbed activation. */
  lemma Activation(s: System) returns (acts: seq<Action>)
    requires s.loop == Idle && s.wakeup
    ensures Legal(s, acts)
    ensures
      var v := Run(s, acts);
      && v.loop == Idle && v.ran == s.ran + Called(s.commands)
      && v.commands == [] && v.nextCommandId == s.nextCommandId && v.submitted == s.submitted
  {
    RunOne(s, Wake);
    RunSnoc(s, [Wake], Drain);
    var start := [Wake] + [Drain];
    var drained := Run(s, start);
    var work := LoopRunsBatch(drained);
    hide Called;
    RunAppend(s, start, work);
    RunSnoc(s, start + work, Finish);
    acts := start + work + [Finish];
  }
}
