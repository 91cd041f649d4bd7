/**
  The handshake between the thread that runs the libev loop and the thread that polls libuv on
  its behalf, with the owner that starts and stops both. One step is one action of one thread
  between two points where the others can see a difference.
 */
module BackgroundEventLoop {

  /** The owner: `start` and `stop`. */
  datatype Owner =
    | Off
    | Starting          // threads created, barrier not reached
    | OwnerAtBarrier
    | Up                // start returned
    | Interrupting      // stop: interrupting and joining the poller
    | Joining           // stop: exit signaled, joining the loop thread

  /** runBackgroundLoop and the two async callbacks. */
  datatype LoopThread =
    | NoLoop
    | Booting           // timer start and first uv_run
    | LoopAtBarrier
    | Serving           // inside ev_run, no callback active
    | Draining          // onLibuvActivity: inside uv_run
    | Posting           // onLibuvActivity: before uv_sem_post
    | Exiting           // signalLibevExit: inside uv_run
    | LoopDone

  /** pollLibuv. */
  datatype Poller =
    | NoPoller
    | Spawned
    | PollerAtBarrier
    | Top               // at the head of the while loop
    | Reading           // uv_backend_timeout
    | Blocked           // in the poll system call
    | Signaling         // before ev_async_send
    | Waiting           // in uv_sem_wait
    | PollerDone

  /** A cyclic barrier: it counts arrivals, then lets that many threads out. */
  datatype Barrier = Filling(arrived: nat) | Releasing(inside: nat)

  datatype System = System(
    usesLibuv: bool,
    owner: Owner,
    loop: LoopThread,
    poller: Poller,
    barrier: Barrier,
    sem: nat,
    activity: bool,     // libuvActivitySignaller is pending
    exit: bool,         // exitSignaller is pending
    interrupted: bool)  // interruption of the poller was requested

  datatype Action =
    | Start
    | Stop
    | OwnerArrives | OwnerLeaves | JoinPoller | JoinLoop
    | LoopArrives | LoopLeaves | TakeActivity | DrainDone | Post | TakeExit | ExitDone
    | PollerArrives | PollerLeaves | CheckInterruption | ReadTimeout | PollReturns | PollInterrupted | Signal | Acquire

  function Parties(s: System): nat {
    if s.usesLibuv then 3 else 2
  }

  function Arrive(s: System): Barrier {
    match s.barrier
    case Filling(n) => if n + 1 >= Parties(s) then Releasing(n + 1) else Filling(n + 1)
    case Releasing(n) => s.barrier
  }

  function Leave(b: Barrier): Barrier {
    if b.Releasing? && b.inside > 1 then Releasing(b.inside - 1) else Filling(0)
  }

  predicate Enabled(s: System, a: Action) {
    match a
    case Start => s.owner == Off
    case Stop => s.owner == Up
    case OwnerArrives => s.owner == Starting && s.barrier.Filling?
    case OwnerLeaves => s.owner == OwnerAtBarrier && s.barrier.Releasing?
    case JoinPoller => s.owner == Interrupting && (s.usesLibuv ==> s.poller == PollerDone)
    case JoinLoop => s.owner == Joining && s.loop == LoopDone
    case LoopArrives => s.loop == Booting && s.barrier.Filling?
    case LoopLeaves => s.loop == LoopAtBarrier && s.barrier.Releasing?
    case TakeActivity => s.loop == Serving && s.activity
    case DrainDone => s.loop == Draining
    case Post => s.loop == Posting
    case TakeExit => s.loop == Serving && s.exit
    case ExitDone => s.loop == Exiting
    case PollerArrives => s.poller == Spawned && s.barrier.Filling?
    case PollerLeaves => s.poller == PollerAtBarrier && s.barrier.Releasing?
    case CheckInterruption => s.poller == Top
    case ReadTimeout => s.poller == Reading
    case PollReturns => s.poller == Blocked
    case PollInterrupted => s.poller == Blocked && s.interrupted
    case Signal => s.poller == Signaling
    case Acquire => s.poller == Waiting && s.sem > 0
  }

  function Step(s: System, a: Action): System
    requires Enabled(s, a)
  {
    match a
    case Start => s.(owner := Starting, loop := Booting, poller := if s.usesLibuv then Spawned else NoPoller)
    case Stop => s.(owner := Interrupting, interrupted := s.usesLibuv)
    case OwnerArrives => s.(owner := OwnerAtBarrier, barrier := Arrive(s))
    case OwnerLeaves => s.(owner := Up, barrier := Leave(s.barrier))
    case JoinPoller => s.(owner := Joining, poller := NoPoller, interrupted := false, exit := true)
    case JoinLoop => s.(owner := Off, loop := NoLoop)
    case LoopArrives => s.(loop := LoopAtBarrier, barrier := Arrive(s))
    case LoopLeaves => s.(loop := Serving, barrier := Leave(s.barrier))
    case TakeActivity => s.(loop := Draining, activity := false)
    case DrainDone => s.(loop := Posting)
    case Post => s.(loop := Serving, sem := s.sem + 1)
    case TakeExit => s.(loop := Exiting, exit := false, activity := false)
    case ExitDone => s.(loop := LoopDone)
    case PollerArrives => s.(poller := PollerAtBarrier, barrier := Arrive(s))
    case PollerLeaves => s.(poller := Top, barrier := Leave(s.barrier))
    case CheckInterruption => s.(poller := if s.interrupted then PollerDone else Reading)
    case ReadTimeout => s.(poller := Blocked)
    case PollReturns => s.(poller := Signaling)
    case PollInterrupted => s.(poller := PollerDone)
    case Signal => s.(poller := Waiting, activity := true)
    case Acquire => s.(poller := Top, sem := s.sem - 1)
  }

  function Initial(usesLibuv: bool): System {
    System(usesLibuv, Off, NoLoop, NoPoller, Filling(0), 0, false, false, false)
  }

  predicate Legal(s: System, acts: seq<Action>)
    decreases |acts|
  {
    acts == [] || (Enabled(s, acts[0]) && Legal(Step(s, acts[0]), acts[1..]))
  }

  function Run(s: System, acts: seq<Action>): System
    requires Legal(s, acts)
    decreases |acts|
  {
    if acts == [] then s else Run(Step(s, acts[0]), acts[1..])
  }

  // ----- the token

  function Tokens(s: System): nat {
    (if s.activity then 1 else 0) + (if s.loop in {Draining, Posting} then 1 else 0) + s.sem
  }

  /** One token exists exactly while the poller waits for the loop thread. */
  predicate TokenHeld(s: System) {
    Tokens(s) == if s.poller == Waiting then 1 else 0
  }

  /** The loop thread is inside uv_run. */
  predicate RunsLibuv(s: System) {
    s.loop in {Booting, Draining, Exiting}
  }

  /** The poller looks at libuv's state or waits on its descriptor. */
  predicate InspectsLibuv(s: System) {
    s.poller in {Reading, Blocked}
  }

  // ----- the barrier and the life of the threads

  function AtBarrier(s: System): nat {
    (if s.owner == OwnerAtBarrier then 1 else 0) + (if s.loop == LoopAtBarrier then 1 else 0)
    + (if s.poller == PollerAtBarrier then 1 else 0)
  }

  function Ahead(s: System): nat {
    (if s.owner == Starting then 1 else 0) + (if s.loop == Booting then 1 else 0)
    + (if s.poller == Spawned then 1 else 0)
  }

  /** Nobody passes the barrier before all have arrived. */
  predicate BarrierSound(s: System) {
    && (s.barrier.Filling? ==>
          && s.barrier.arrived == AtBarrier(s)
          && (Ahead(s) + AtBarrier(s) == Parties(s) || Ahead(s) + AtBarrier(s) == 0)
          && (AtBarrier(s) > 0 ==> Ahead(s) > 0))
    && (s.barrier.Releasing? ==> s.barrier.inside == AtBarrier(s) && AtBarrier(s) > 0 && Ahead(s) == 0)
  }

  predicate LivesSound(s: System) {
    && (s.poller != NoPoller ==> s.usesLibuv)
    && (s.owner == Off ==> s.loop == NoLoop && s.poller == NoPoller)
    && (s.owner != Off ==> s.loop != NoLoop)
    && (s.usesLibuv && s.owner in {Starting, OwnerAtBarrier, Up, Interrupting} ==> s.poller != NoPoller)
    && (s.owner == Joining ==> s.poller == NoPoller)
    && (s.interrupted <==> s.usesLibuv && s.owner == Interrupting)
    && (s.poller == PollerDone ==> s.owner == Interrupting)
    && (s.exit ==> s.owner == Joining && s.loop in {LoopAtBarrier, Serving})
    && (s.loop in {Exiting, LoopDone} ==> s.owner == Joining)
    && (s.owner == Joining ==> s.exit || s.loop in {Exiting, LoopDone})
  }

  predicate Inv(s: System) {
    TokenHeld(s) && BarrierSound(s) && LivesSound(s)
  }

  // ----- every step

  predicate ByOwner(a: Action) {
    a in {Start, Stop, OwnerArrives, OwnerLeaves, JoinPoller, JoinLoop}
  }

  predicate ByLoop(a: Action) {
    a in {LoopArrives, LoopLeaves, TakeActivity, DrainDone, Post, TakeExit, ExitDone}
  }

  lemma OwnerKeepsInv(s: System, a: Action)
    requires Inv(s) && Enabled(s, a) && ByOwner(a)
    ensures Inv(Step(s, a))
  {
  }

  lemma LoopKeepsInv(s: System, a: Action)
    requires Inv(s) && Enabled(s, a) && ByLoop(a)
    ensures Inv(Step(s, a))
  {
  }

  lemma PollerKeepsInv(s: System, a: Action)
    requires Inv(s) && Enabled(s, a) && !ByOwner(a) && !ByLoop(a)
    ensures Inv(Step(s, a))
  {
  }

  lemma StepKeepsInv(s: System, a: Action)
    requires Inv(s) && Enabled(s, a)
    ensures Inv(Step(s, a))
  {
    hide Inv, Enabled, Step, ByOwner, ByLoop;
    if ByOwner(a) {
      OwnerKeepsInv(s, a);
    } else if ByLoop(a) {
      LoopKeepsInv(s, a);
    } else {
      PollerKeepsInv(s, a);
    }
  }

  /** In every interleaving, over any number of starts and stops, the invariant holds. */
  lemma {:induction false} RunKeepsInv(s: System, acts: seq<Action>)
    requires Inv(s) && Legal(s, acts)
    ensures Inv(Run(s, acts))
    decreases |acts|
  {
    if acts != [] {
      StepKeepsInv(s, acts[0]);
      RunKeepsInv(Step(s, acts[0]), acts[1..]);
    }
  }

  /** uv_run never overlaps the poller's reading of the timeout or its poll; the semaphore never
      exceeds one; and after stop it is zero with nothing pending, as the constructor left it. */
  lemma HandshakeIsSafe(usesLibuv: bool, acts: seq<Action>)
    requires Legal(Initial(usesLibuv), acts)
    ensures
      var s := Run(Initial(usesLibuv), acts);
      && !(RunsLibuv(s) && InspectsLibuv(s))
      && s.sem <= 1
      && (s.sem == 1 ==> s.poller == Waiting && !s.activity)
      && (s.owner == Off ==> s == Initial(usesLibuv))
  {
    RunKeepsInv(Initial(usesLibuv), acts);
    RunKeepsUse(Initial(usesLibuv), acts);
  }

  lemma {:induction false} RunKeepsUse(s: System, acts: seq<Action>)
    requires Legal(s, acts)
    ensures Run(s, acts).usesLibuv == s.usesLibuv
    decreases |acts|
  {
    if acts != [] {
      RunKeepsUse(Step(s, acts[0]), acts[1..]);
    }
  }

  // ----- what the poller finds is processed

  function Count(acts: seq<Action>, a: Action): nat {
    if acts == [] then 0 else (if acts[0] == a then 1 else 0) + Count(acts[1..], a)
  }

  /** The poller has seen libuv activity that the loop thread has not run through uv_run yet. */
  function Unprocessed(s: System): nat {
    if s.poller == Signaling || (s.poller == Waiting && (s.activity || s.loop == Draining)) then 1 else 0
  }

  lemma OwnerKeepsUnprocessed(s: System, a: Action)
    requires Inv(s) && Enabled(s, a) && ByOwner(a)
    ensures Unprocessed(Step(s, a)) == Unprocessed(s)
  {
  }

  lemma LoopProcesses(s: System, a: Action)
    requires Inv(s) && Enabled(s, a) && ByLoop(a)
    ensures Unprocessed(Step(s, a)) == Unprocessed(s) - if a == DrainDone then 1 else 0
  {
  }

  lemma PollerFinds(s: System, a: Action)
    requires Inv(s) && Enabled(s, a) && !ByOwner(a) && !ByLoop(a)
    ensures Unprocessed(Step(s, a)) == Unprocessed(s) + if a == PollReturns then 1 else 0
  {
  }

  lemma StepAccounts(s: System, a: Action)
    requires Inv(s) && Enabled(s, a)
    ensures Unprocessed(Step(s, a)) ==
      Unprocessed(s) + (if a == PollReturns then 1 else 0) - (if a == DrainDone then 1 else 0)
  {
    hide Inv, Enabled, Step, Unprocessed;
    if ByOwner(a) {
      OwnerKeepsUnprocessed(s, a);
    } else if ByLoop(a) {
      LoopProcesses(s, a);
    } else {
      PollerFinds(s, a);
    }
  }

  lemma {:induction false} RunAccounts(s: System, acts: seq<Action>)
    requires Inv(s) && Legal(s, acts)
    ensures Unprocessed(Run(s, acts)) == Unprocessed(s) + Count(acts, PollReturns) - Count(acts, DrainDone)
    decreases |acts|
  {
    if acts != [] {
      hide Inv, Enabled, Step, Unprocessed;
      StepAccounts(s, acts[0]);
      StepKeepsInv(s, acts[0]);
      RunAccounts(Step(s, acts[0]), acts[1..]);
    }
  }

  /** In every run each return of the poll is followed by one uv_run before the poller polls again:
      whenever it is neither signaling nor waiting, there were as many of one as of the other. */
  lemma ActivityIsProcessed(usesLibuv: bool, acts: seq<Action>)
    requires Legal(Initial(usesLibuv), acts)
    ensures
      var s := Run(Initial(usesLibuv), acts);
      && Count(acts, DrainDone) <= Count(acts, PollReturns) <= Count(acts, DrainDone) + 1
      && (s.poller !in {Signaling, Waiting} ==> Count(acts, PollReturns) == Count(acts, DrainDone))
      && (s.sem == 1 ==> Count(acts, PollReturns) == Count(acts, DrainDone))
  {
    RunKeepsInv(Initial(usesLibuv), acts);
    RunAccounts(Initial(usesLibuv), acts);
  }

  lemma QuietWhileSignaling(s: System)
    requires Inv(s) && s.poller == Signaling
    ensures !s.activity && s.sem == 0
  {
  }

  /** After a return of the poll the five steps of the handshake bring the poller back to the head of
      its loop, with one uv_run in between. */
  lemma HandshakeSteps(s: System)
    requires Inv(s) && s.poller == Signaling && s.loop == Serving
    ensures
      && Enabled(s, Signal)
      && var s1 := Step(s, Signal);
      && Enabled(s1, TakeActivity)
      && var s2 := Step(s1, TakeActivity);
      && s2.loop == Draining && Enabled(s2, DrainDone)
      && var s3 := Step(s2, DrainDone);
      && Enabled(s3, Post)
      && var s4 := Step(s3, Post);
      && Enabled(s4, Acquire)
      && Step(s4, Acquire) == s.(poller := Top)
  {
    QuietWhileSignaling(s);
    hide Inv;
  }

  // ----- the life of the loop thread

  function Alive(s: System): nat {
    if s.loop in {NoLoop, LoopDone} then 0 else 1
  }

  lemma StepCountsLives(s: System, a: Action)
    requires Inv(s) && Enabled(s, a)
    ensures Alive(Step(s, a)) == Alive(s) + (if a == Start then 1 else 0) - (if a == ExitDone then 1 else 0)
  {
    hide BarrierSound, TokenHeld;
  }

  lemma {:induction false} RunCountsLives(s: System, acts: seq<Action>)
    requires Inv(s) && Legal(s, acts)
    ensures Alive(Run(s, acts)) == Alive(s) + Count(acts, Start) - Count(acts, ExitDone)
    decreases |acts|
  {
    if acts != [] {
      hide Inv, Enabled, Step, Alive;
      StepCountsLives(s, acts[0]);
      StepKeepsInv(s, acts[0]);
      RunCountsLives(Step(s, acts[0]), acts[1..]);
    }
  }

  /** When stop has returned, the loop thread of every start has gone through its last uv_run. */
  lemma EveryStartEndsWithLibuv(usesLibuv: bool, acts: seq<Action>)
    requires Legal(Initial(usesLibuv), acts) && Run(Initial(usesLibuv), acts).owner == Off
    ensures Count(acts, Start) == Count(acts, ExitDone)
  {
    RunKeepsInv(Initial(usesLibuv), acts);
    RunCountsLives(Initial(usesLibuv), acts);
  }

  // ----- stop

  predicate Stopping(s: System) {
    s.owner in {Interrupting, Joining}
  }

  /** How far the loop thread is from the post that a waiting poller needs. */
  function BeforePost(s: System): nat {
    if s.activity then 3 else if s.loop == Draining then 2 else if s.loop == Posting then 1 else 0
  }

  /** How much is left to do until stop returns. */
  function Remaining(s: System): nat {
    (match s.owner case Interrupting => 40 case Joining => 20 case _ => 0)
    + (match s.loop
       case LoopAtBarrier => 4
       case Serving => 3
       case Draining => 3
       case Posting => 3
       case Exiting => 2
       case LoopDone => 1
       case _ => 0)
    + (match s.poller
       case PollerAtBarrier => 2
       case Top => 1
       case Reading => 8
       case Blocked => 7
       case Signaling => 6
       case Waiting => 2 + BeforePost(s)
       case _ => 0)
  }

  predicate Serves(s: System, v: System) {
    && (Stopping(v) || v == Initial(s.usesLibuv))
    && v.usesLibuv == s.usesLibuv
    && Remaining(v) < Remaining(s)
  }

  lemma OwnerServesStop(s: System, a: Action)
    requires Inv(s) && Stopping(s) && Enabled(s, a) && ByOwner(a)
    ensures Serves(s, Step(s, a))
  {
  }

  lemma CallbackServesStop(s: System, a: Action)
    requires Inv(s) && Stopping(s) && Enabled(s, a) && a in {TakeActivity, DrainDone, Post}
    ensures Serves(s, Step(s, a))
  {
    hide BarrierSound, LivesSound;
  }

  lemma ExitServesStop(s: System, a: Action)
    requires Inv(s) && Stopping(s) && Enabled(s, a) && a in {LoopArrives, LoopLeaves, TakeExit, ExitDone}
    ensures Serves(s, Step(s, a))
  {
    NoBootWhileStopping(s);
    hide Inv;
  }

  lemma NoBootWhileStopping(s: System)
    requires Inv(s) && Stopping(s)
    ensures s.loop != Booting && (s.exit ==> s.poller == NoPoller)
  {
  }

  lemma LoopServesStop(s: System, a: Action)
    requires Inv(s) && Stopping(s) && Enabled(s, a) && ByLoop(a)
    ensures Serves(s, Step(s, a))
  {
    hide Inv, Stopping, Enabled, Step, Serves;
    if a in {TakeActivity, DrainDone, Post} {
      CallbackServesStop(s, a);
    } else {
      ExitServesStop(s, a);
    }
  }

  lemma PollerServesStop(s: System, a: Action)
    requires Inv(s) && Stopping(s) && Enabled(s, a) && !ByOwner(a) && !ByLoop(a)
    ensures Serves(s, Step(s, a))
  {
  }

  /** Once stop was called, every step of every thread brings its return closer. */
  lemma EveryStepServesStop(s: System, a: Action)
    requires Inv(s) && Stopping(s) && Enabled(s, a)
    ensures Stopping(Step(s, a)) || Step(s, a) == Initial(s.usesLibuv)
    ensures Step(s, a).usesLibuv == s.usesLibuv
    ensures Remaining(Step(s, a)) < Remaining(s)
  {
    hide Inv, Stopping, Enabled, Step, Remaining, Initial, ByOwner, ByLoop;
    if ByOwner(a) {
      OwnerServesStop(s, a);
    } else if ByLoop(a) {
      LoopServesStop(s, a);
    } else {
      PollerServesStop(s, a);
    }
  }

  /** And some thread can always take one: stop cannot deadlock. */
  lemma StopNeverBlocks(s: System) returns (a: Action)
    requires Inv(s) && Stopping(s)
    ensures Enabled(s, a)
  {
    if s.loop == LoopAtBarrier {
      a := LoopLeaves;
    } else if s.owner == Joining {
      a := if s.loop == LoopDone then JoinLoop else if s.loop == Exiting then ExitDone
           else if s.loop == Draining then DrainDone else if s.loop == Posting then Post else TakeExit;
    } else {
      a := match s.poller
           case NoPoller => JoinPoller
           case PollerAtBarrier => PollerLeaves
           case Top => CheckInterruption
           case Reading => ReadTimeout
           case Blocked => PollInterrupted
           case Signaling => Signal
           case Waiting => if s.sem > 0 then Acquire else if s.activity then TakeActivity
                           else if s.loop == Draining then DrainDone else Post
           case _ => JoinPoller;
    }
  }

  lemma StopTakesSteps(s: System)
    requires Stopping(s)
    ensures Remaining(s) > 0
  {
  }

  /** Whatever the schedule, a run that starts inside stop leaves it after at most
      `Remaining` steps, with the loop as the constructor left it, ready to be started again. */
  lemma {:induction false} StopAlwaysEnds(s: System, acts: seq<Action>) returns (k: nat)
    requires Inv(s) && Stopping(s) && Legal(s, acts)
    requires |acts| >= Remaining(s)
    ensures 0 < k <= |acts| && Legal(s, acts[..k])
    ensures Run(s, acts[..k]) == Initial(s.usesLibuv)
    decreases Remaining(s)
  {
    hide Step, Enabled, Remaining, Inv, Stopping, Initial;
    StopTakesSteps(s);
    var v := Step(s, acts[0]);
    EveryStepServesStop(s, acts[0]);
    StepKeepsInv(s, acts[0]);
    if Stopping(v) {
      k := StopAlwaysEnds(v, acts[1..]);
      k := k + 1;
      assert acts[..k][1..] == acts[1..][..k - 1];
    } else {
      k := 1;
      assert acts[..1][1..] == [];
    }
  }
}
