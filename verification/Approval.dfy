/**
 The approval workflow of one job: deciders that come with the job id (src/api/documents.py) or with a token
 (src/api/approval.py), the background work after a decision (src/services/approval_service.py), the PII
 worker that asks for approval (src/services/pii_service.py) and the timeout sweep
 (src/services/timeout_service.py). Each Redis command is one step; any number of these run at once.
 */
module Approval {
  import opened Text
  import opened JobStatus

  /** What Redis holds about the job, how often its processing was started, and whether storage is configured. */
  datatype Job = Job(status: Option<Status>, tracked: bool, lock: Option<nat>, starts: nat, storage: bool)

  /** The step a participant is about to take. */
  datatype Pc =
    | ReadToApprove | WriteQueued | UntrackApproved | TakeLock | Recheck | WriteProcessing | Spawn | ReleaseLock
    | ReadToDeny | WriteDenied | UntrackDenied | WriteDeniedAgain
    | ReadExpired | WriteTimedOut | UntrackExpired
    | WriteAwaiting | Track | StoreToken | WriteGivenUp
    | Finished

  predicate Armed(s: Option<Status>) {
    s == Some(Queued) || s == Some(Awaiting)
  }

  /** The status a step writes, if it writes one. */
  function Written(job: Job, pc: Pc): Option<Status> {
    match pc
    case WriteQueued => Some(Queued)
    case WriteProcessing => Some(Processing)
    case Spawn => if job.storage then None else Some(Failed)
    case WriteDenied => Some(Denied)
    case WriteDeniedAgain => Some(Denied)
    case WriteTimedOut => Some(Failed)
    case WriteAwaiting => Some(Awaiting)
    case WriteGivenUp => Some(Failed)
    case _ => None
  }

  /** What a step does to the job. */
  function Effect(job: Job, me: nat, pc: Pc): Job {
    match pc
    case UntrackApproved => job.(tracked := false)
    case UntrackDenied => job.(tracked := false)
    case UntrackExpired => job.(tracked := false)
    case Track => job.(tracked := true)
    case TakeLock => if job.lock == None then job.(lock := Some(me)) else job
    case ReleaseLock => job.(lock := None)
    case Spawn => if job.storage then job.(starts := job.starts + 1) else job.(status := Some(Failed))
    case _ => if Written(job, pc).Some? then job.(status := Written(job, pc)) else job
  }

  /** Where a participant goes from a step that succeeded; `job` is what the step found. */
  function Next(job: Job, pc: Pc): Pc {
    match pc
    case ReadToApprove => if job.status == Some(Awaiting) then WriteQueued else Finished
    case WriteQueued => UntrackApproved
    case UntrackApproved => TakeLock
    case TakeLock => if job.lock == None then Recheck else Finished
    case Recheck => if Armed(job.status) then WriteProcessing else ReleaseLock
    case WriteProcessing => Spawn
    case Spawn => ReleaseLock
    case ReadToDeny => if job.status == Some(Awaiting) then WriteDenied else Finished
    case WriteDenied => UntrackDenied
    case UntrackDenied => WriteDeniedAgain
    case ReadExpired => if job.status == Some(Awaiting) then WriteTimedOut else UntrackExpired
    case WriteTimedOut => UntrackExpired
    case WriteAwaiting => Track
    case Track => StoreToken
    case _ => Finished
  }

  /** Where a step that raised leads: to the handler, to the `finally`, or to the retry of the whole queueing. */
  function Rescue(pc: Pc, retry: bool): Pc {
    match pc
    case UntrackApproved => TakeLock
    case Recheck => ReleaseLock
    case WriteProcessing => ReleaseLock
    case Spawn => ReleaseLock
    case UntrackDenied => WriteDeniedAgain
    case WriteAwaiting => if retry then WriteAwaiting else WriteGivenUp
    case Track => if retry then WriteAwaiting else WriteGivenUp
    case StoreToken => if retry then WriteAwaiting else WriteGivenUp
    case WriteGivenUp => if retry then WriteGivenUp else Finished
    case _ => Finished
  }

  // ---------------------------------------------------------------------------
  // The services, each running alone
  // ---------------------------------------------------------------------------

  function Rank(pc: Pc): nat {
    match pc
    case ReadToApprove => 9
    case WriteQueued => 8
    case UntrackApproved => 7
    case TakeLock => 6
    case Recheck => 5
    case WriteProcessing => 4
    case Spawn => 3
    case ReleaseLock => 1
    case ReadToDeny => 4
    case WriteDenied => 3
    case UntrackDenied => 2
    case WriteDeniedAgain => 1
    case ReadExpired => 3
    case WriteTimedOut => 2
    case UntrackExpired => 1
    case WriteAwaiting => 3
    case Track => 2
    case StoreToken => 1
    case WriteGivenUp => 1
    case Finished => 0
  }

  /** The job after a participant has run from `pc` to its end with nobody in between. */
  function Alone(job: Job, me: nat, pc: Pc): Job
    decreases Rank(pc)
  {
    if pc == Finished then job else Alone(Effect(job, me, pc), me, Next(job, pc))
  }

  class JobRecord {
    var status: Option<Status>
    var tracked: bool
    var lock: Option<nat>
    var starts: nat
    const storage: bool

    function View(): Job
      reads this
    {
      Job(status, tracked, lock, starts, storage)
    }

    constructor (configured: bool)
      ensures View() == Job(Some(Scanning), false, None, 0, configured)
    {
      status, tracked, lock, starts, storage := Some(Scanning), false, None, 0, configured;
    }

    method QuickApprove()
      modifies this`status
      ensures View() == old(View()).(status := Some(Queued))
    {
      status := Some(Queued);
    }

    method QuickDeny()
      modifies this`status
      ensures View() == old(View()).(status := Some(Denied))
    {
      status := Some(Denied);
    }

    method ProcessApprovalBackground(me: nat)
      modifies this
      ensures View() == Alone(old(View()), me, UntrackApproved)
      ensures var was := old(View()).(tracked := false);
              View() == if was.lock != None || was.status !in {Some(Queued), Some(Awaiting)} then was
                        else if was.storage then was.(status := Some(Processing), starts := was.starts + 1)
                        else was.(status := Some(Failed))
    {
      tracked := false;
      if lock != None {
        return;
      }
      lock := Some(me);
      if status != Some(Queued) && status != Some(Awaiting) {
        lock := None;
        return;
      }
      status := Some(Processing);
      if !storage {
        status := Some(Failed);
        lock := None;
        return;
      }
      starts := starts + 1;
      lock := None;
    }

    method ProcessDenialBackground()
      modifies this
      ensures View() == Alone(old(View()), 0, UntrackDenied)
      ensures View() == old(View()).(tracked := false, status := Some(Denied))
    {
      tracked := false;
      status := Some(Denied);
    }

    /** The shared body of the two endpoints by job id; `false` is the 404 or 409. */
    method ProcessPiiDecision(me: nat, approved: bool) returns (accepted: bool)
      modifies this
      ensures accepted == (old(status) == Some(Awaiting))
      ensures View() == Alone(old(View()), me, if approved then ReadToApprove else ReadToDeny)
      ensures !accepted ==> View() == old(View())
      ensures accepted && !approved ==> View() == old(View()).(tracked := false, status := Some(Denied))
      ensures accepted && approved ==>
                tracked == false && lock == old(lock)
                && status == Some(if lock != None then Queued else if storage then Processing else Failed)
                && starts == old(starts) + if lock == None && storage then 1 else 0
    {
      DecisionSteps(View(), me);
      hide Alone;
      if status != Some(Awaiting) {
        return false;
      }
      if approved {
        QuickApprove();
        ProcessApprovalBackground(me);
      } else {
        QuickDeny();
        ProcessDenialBackground();
      }
      accepted := true;
    }

    method QueueForApproval()
      modifies this
      ensures View() == Alone(old(View()), 0, WriteAwaiting)
      ensures View() == old(View()).(status := Some(Awaiting), tracked := true)
    {
      status := Some(Awaiting);
      tracked := true;
    }

    method ProcessExpiredJob() returns (success: bool)
      modifies this
      ensures success == (old(status) == Some(Awaiting))
      ensures View() == Alone(old(View()), 0, ReadExpired)
      ensures View() == old(View()).(tracked := false, status := if success then Some(Failed) else old(status))
    {
      if status == None {
        tracked := false;
        return false;
      }
      if status != Some(Awaiting) {
        tracked := false;
        return false;
      }
      status := Some(Failed);
      tracked := false;
      success := true;
    }
  }

  lemma DecisionSteps(job: Job, me: nat)
    ensures job.status != Some(Awaiting) ==>
              Alone(job, me, ReadToApprove) == job && Alone(job, me, ReadToDeny) == job
    ensures job.status == Some(Awaiting) ==>
              Alone(job, me, ReadToApprove) == Alone(job.(status := Some(Queued)), me, UntrackApproved)
              && Alone(job, me, ReadToDeny) == Alone(job.(status := Some(Denied)), 0, UntrackDenied)
  {
    if job.status == Some(Awaiting) {
      assert Alone(job, me, ReadToApprove) == Alone(job, me, WriteQueued);
      assert Alone(job, me, ReadToDeny) == Alone(job, me, WriteDenied);
      assert Alone(job, me, WriteDenied) == Alone(job.(status := Some(Denied)), me, UntrackDenied);
    }
  }

  /** Alone, a decision on an awaiting job settles it: one start and no deadline, or denied and no deadline. */
  lemma DecidedAlone(job: Job, me: nat)
    requires job.status == Some(Awaiting) && job.lock == None
    ensures Alone(job, me, ReadToApprove) ==
            if job.storage then job.(status := Some(Processing), tracked := false, starts := job.starts + 1)
            else job.(status := Some(Failed), tracked := false)
    ensures Alone(job, me, ReadToDeny) == job.(status := Some(Denied), tracked := false)
    ensures Alone(job, me, ReadExpired) == job.(status := Some(Failed), tracked := false)
  {
    hide Alone;
    ApproveSettles(job, me);
    RefusedAlone(job, me);
  }

  lemma ApproveSettles(job: Job, me: nat)
    requires job.status == Some(Awaiting) && job.lock == None
    ensures Alone(job, me, ReadToApprove) ==
            if job.storage then job.(status := Some(Processing), tracked := false, starts := job.starts + 1)
            else job.(status := Some(Failed), tracked := false)
  {
    var queued := job.(status := Some(Queued), tracked := false, lock := Some(me));
    DecisionSteps(job, me);
    assert Alone(job.(status := Some(Queued)), me, UntrackApproved) == Alone(queued, me, Recheck);
    assert Alone(queued, me, Recheck) == Alone(queued.(status := Some(Processing)), me, Spawn);
  }

  /**
   Alone, the background work of an approval always leaves the lock as it found it. It starts nothing when the
   lock is taken or the status is not approvable any more, and otherwise starts once or fails for lack of storage.
   */
  lemma BackgroundAlone(job: Job, me: nat)
    ensures var off := job.(tracked := false);
            Alone(job, me, UntrackApproved) ==
            if job.lock != None || job.status !in {Some(Queued), Some(Awaiting)} then off
            else if job.storage then off.(status := Some(Processing), starts := job.starts + 1)
            else off.(status := Some(Failed))
  {
    var off := job.(tracked := false);
    var taken := off.(lock := Some(me));
    assert Alone(job, me, UntrackApproved) == Alone(off, me, TakeLock);
    if job.lock == None {
      assert Alone(off, me, TakeLock) == Alone(taken, me, Recheck);
      if Armed(job.status) {
        assert Alone(taken, me, Recheck) == Alone(taken.(status := Some(Processing)), me, Spawn);
      } else {
        assert Alone(taken, me, Recheck) == Alone(taken, me, ReleaseLock);
      }
    }
  }

  /**
   What becomes of the job when a step raises without effect and the participant then runs alone: a failed
   untracking holds up neither decision; inside the section the lock is given back and nothing else changes; a
   failed queueing is done again as a whole, or given up as a failure.
   */
  lemma RescuedAlone(job: Job, me: nat, retry: bool)
    ensures Alone(job, me, Rescue(UntrackApproved, retry)) == Alone(job, me, UntrackApproved).(tracked := job.tracked)
    ensures Alone(job, me, Rescue(UntrackDenied, retry)) == job.(status := Some(Denied))
    ensures forall pc | pc in {Recheck, WriteProcessing, Spawn} ::
              Alone(job, me, Rescue(pc, retry)) == job.(lock := None)
    ensures forall pc | pc in {WriteAwaiting, Track, StoreToken} ::
              Alone(job, me, Rescue(pc, retry)) ==
              if retry then job.(status := Some(Awaiting), tracked := true) else job.(status := Some(Failed))
    ensures Alone(job, me, Rescue(WriteGivenUp, retry)) == if retry then job.(status := Some(Failed)) else job
    ensures forall pc | pc in {ReadToApprove, WriteQueued, TakeLock, ReleaseLock, ReadToDeny, WriteDenied,
                               WriteDeniedAgain, ReadExpired, WriteTimedOut, UntrackExpired} ::
              Rescue(pc, retry) == Finished
  {
    LockAlone(job, me);
    RescuedInside(job, me, retry);
    RescuedWorker(job, me, retry);
  }

  lemma RescuedInside(job: Job, me: nat, retry: bool)
    ensures forall pc | pc in {Recheck, WriteProcessing, Spawn} ::
              Alone(job, me, Rescue(pc, retry)) == job.(lock := None)
    ensures Alone(job, me, Rescue(UntrackDenied, retry)) == job.(status := Some(Denied))
  {
  }

  lemma RescuedWorker(job: Job, me: nat, retry: bool)
    ensures forall pc | pc in {WriteAwaiting, Track, StoreToken} ::
              Alone(job, me, Rescue(pc, retry)) ==
              if retry then job.(status := Some(Awaiting), tracked := true) else job.(status := Some(Failed))
    ensures Alone(job, me, Rescue(WriteGivenUp, retry)) == if retry then job.(status := Some(Failed)) else job
  {
    assert Alone(job, me, WriteAwaiting) == Alone(job.(status := Some(Awaiting)), me, Track);
    assert Alone(job.(status := Some(Awaiting)), me, Track)
        == Alone(job.(status := Some(Awaiting), tracked := true), me, StoreToken);
  }

  lemma LockAlone(job: Job, me: nat)
    ensures Alone(job, me, TakeLock) == Alone(job, me, UntrackApproved).(tracked := job.tracked)
  {
    var taken := job.(lock := Some(me));
    BackgroundAlone(job, me);
    if job.lock == None {
      assert Alone(job, me, TakeLock) == Alone(taken, me, Recheck);
      if Armed(job.status) {
        assert Alone(taken, me, Recheck) == Alone(taken.(status := Some(Processing)), me, Spawn);
      } else {
        assert Alone(taken, me, Recheck) == Alone(taken, me, ReleaseLock);
      }
    }
  }

  lemma RefusedAlone(job: Job, me: nat)
    requires job.status == Some(Awaiting)
    ensures Alone(job, me, ReadToDeny) == job.(status := Some(Denied), tracked := false)
    ensures Alone(job, me, ReadExpired) == job.(status := Some(Failed), tracked := false)
  {
    assert Alone(job, me, ReadToDeny) == Alone(job.(status := Some(Denied)), me, UntrackDenied);
  }

  // ---------------------------------------------------------------------------
  // Everybody at once
  // ---------------------------------------------------------------------------

  /**
   What happened so far. `processing` counts the processing writes of approvers; `arms` the writes of a
   status that lets an approver go on, and `rearms` those among them that landed after a processing write.
   `begun`: approval was asked for; `left`: the status was then written away; `rearmed`: approval was asked
   for again after that; `queued`: a deadline was tracked.
   */
  datatype Log = Log(
    processing: nat, arms: nat, rearms: nat,
    begun: bool, left: bool, rearmed: bool, queued: bool)

  datatype World = World(job: Job, procs: map<nat, Pc>, log: Log)

  datatype Step =
    | Arrive(who: nat, pc: Pc)
    | Go(who: nat)
    | Fail(who: nat, landed: bool, retry: bool)
    | LockExpires
    | Elsewhere(status: Option<Status>)

  function Noted(log: Log, pc: Pc, written: Option<Status>): Log {
    var l := if pc == Track then log.(queued := true) else log;
    if written.None? then l
    else
      var s := written.value;
      l.(processing := if pc == WriteProcessing then l.processing + 1 else l.processing,
         arms := if Armed(written) then l.arms + 1 else l.arms,
         rearms := if Armed(written) && l.processing > 0 then l.rearms + 1 else l.rearms,
         begun := l.begun || s == Awaiting,
         left := l.left || (l.begun && s != Awaiting),
         rearmed := l.rearmed || (l.left && s == Awaiting))
  }

  predicate Inside(pc: Pc) {
    pc in {Recheck, WriteProcessing, Spawn, ReleaseLock}
  }

  predicate InSection(w: World, who: nat) {
    who in w.procs && Inside(w.procs[who])
  }

  /**
   Who can turn up: deciders by id and workers at any time, token holders once approval was asked for, and
   a sweep when it finds the job tracked.
   */
  predicate MayArrive(w: World, who: nat, pc: Pc) {
    who !in w.procs
    && match pc
       case ReadToApprove => true
       case ReadToDeny => true
       case WriteAwaiting => true
       case WriteQueued => w.log.begun
       case WriteDenied => w.log.begun
       case ReadExpired => w.job.tracked
       case _ => false
  }

  /** The lock's time to live runs out, but not inside the section it guards. */
  predicate MayExpire(w: World) {
    w.job.lock.None? || !InSection(w, w.job.lock.value)
  }

  function Act(w: World, who: nat, landed: bool, next: Pc): World
    requires who in w.procs
  {
    var pc := w.procs[who];
    var moved := w.(procs := w.procs[who := next]);
    if landed then moved.(job := Effect(w.job, who, pc), log := Noted(w.log, pc, Written(w.job, pc))) else moved
  }

  /** A step that cannot be taken changes nothing. */
  function Move(w: World, step: Step): World {
    match step
    case Arrive(who, pc) => if MayArrive(w, who, pc) then w.(procs := w.procs[who := pc]) else w
    case Go(who) => if who in w.procs then Act(w, who, true, Next(w.job, w.procs[who])) else w
    case Fail(who, landed, retry) =>
      if who in w.procs then Act(w, who, landed, Rescue(w.procs[who], retry)) else w
    case LockExpires => if MayExpire(w) then w.(job := w.job.(lock := None)) else w
    case Elsewhere(s) =>
      if Armed(s) then w else w.(job := w.job.(status := s), log := w.log.(left := w.log.left || w.log.begun))
  }

  function Moves(w: World, steps: seq<Step>): World
    decreases |steps|
  {
    if steps == [] then w else Moves(Move(w, steps[0]), steps[1..])
  }

  function Start(storage: bool): World {
    World(Job(Some(Scanning), false, None, 0, storage), map[], Log(0, 0, 0, false, false, false, false))
  }

  // ---------------------------------------------------------------------------
  // How often processing starts
  // ---------------------------------------------------------------------------

  ghost predicate Exclusive(w: World) {
    forall who | who in w.procs && Inside(w.procs[who]) :: w.job.lock == Some(who)
  }

  /** An approver that passed its re-check and has not written yet. */
  ghost predicate Cleared(w: World) {
    exists who :: who in w.procs && w.procs[who] == WriteProcessing
  }

  ghost predicate Spawning(w: World) {
    exists who :: who in w.procs && w.procs[who] == Spawn
  }

  ghost predicate Counted(w: World) {
    w.log.processing + (if Armed(w.job.status) || Cleared(w) then 1 else 0) <= 1 + w.log.rearms
    && w.job.starts + (if Spawning(w) then 1 else 0) <= w.log.processing
  }

  ghost predicate Valid(w: World) {
    Exclusive(w) && Counted(w)
  }

  /** `next` is where the step of `who` leads, whether it succeeds or raises. */
  ghost predicate Leads(w: World, who: nat, landed: bool, next: Pc) {
    who in w.procs
    && var pc := w.procs[who];
       (landed && next == Next(w.job, pc)) || exists retry :: next == Rescue(pc, retry)
  }

  lemma ActExclusive(w: World, who: nat, landed: bool, next: Pc)
    requires Exclusive(w) && Leads(w, who, landed, next)
    ensures Exclusive(Act(w, who, landed, next))
  {
    hide Noted;
  }

  lemma NoOtherInside(w: World, who: nat)
    requires Exclusive(w) && InSection(w, who)
    ensures AloneInside(w, who)
  {
  }

  /** A step keeps the count of processing writes within one more than the re-arming writes. */
  lemma ActCounted(w: World, who: nat, landed: bool, next: Pc)
    requires Valid(w) && Leads(w, who, landed, next)
    ensures Counted(Act(w, who, landed, next))
  {
    var pc := w.procs[who];
    if Inside(pc) {
      NoOtherInside(w, who);
    }
    hide Exclusive;
    if pc == WriteProcessing {
      WritingCounted(w, who, landed, next);
    } else if pc == Spawn {
      SpawnCounted(w, who, landed, next);
    } else {
      OtherCounted(w, who, landed, next);
    }
  }

  ghost predicate AloneInside(w: World, who: nat) {
    forall other | other in w.procs && Inside(w.procs[other]) :: other == who
  }

  lemma WritingCounted(w: World, who: nat, landed: bool, next: Pc)
    requires Counted(w) && Leads(w, who, landed, next) && AloneInside(w, who) && w.procs[who] == WriteProcessing
    ensures Counted(Act(w, who, landed, next))
  {
    var x := Act(w, who, landed, next);
    assert Cleared(w) && !Cleared(x) && !Spawning(w);
  }

  lemma SpawnCounted(w: World, who: nat, landed: bool, next: Pc)
    requires Counted(w) && Leads(w, who, landed, next) && AloneInside(w, who) && w.procs[who] == Spawn
    ensures Counted(Act(w, who, landed, next))
  {
    var x := Act(w, who, landed, next);
    assert Spawning(w) && !Spawning(x) && !Cleared(x);
  }

  lemma OtherCounted(w: World, who: nat, landed: bool, next: Pc)
    requires Counted(w) && Leads(w, who, landed, next) && w.procs[who] != WriteProcessing && w.procs[who] != Spawn
    ensures Counted(Act(w, who, landed, next))
  {
    OtherStays(w, who, landed, next);
    hide Cleared, Spawning;
  }

  /** Nobody else enters or leaves the two steps that are counted. */
  lemma OtherStays(w: World, who: nat, landed: bool, next: Pc)
    requires Leads(w, who, landed, next) && w.procs[who] != WriteProcessing && w.procs[who] != Spawn
    ensures var x := Act(w, who, landed, next);
            (Spawning(x) ==> Spawning(w))
            && (Cleared(x) ==> Cleared(w) || (landed && Armed(w.job.status) && w.procs[who] == Recheck))
            && (landed && w.procs[who] == Recheck ==> x.job == w.job && x.log == w.log)
  {
    var x := Act(w, who, landed, next);
    assert next != Spawn && (next == WriteProcessing ==> landed && w.procs[who] == Recheck && Armed(w.job.status));
    if Spawning(x) {
      var other :| other in x.procs && x.procs[other] == Spawn;
      assert w.procs[other] == Spawn;
    }
    if Cleared(x) && next != WriteProcessing {
      var other :| other in x.procs && x.procs[other] == WriteProcessing;
      assert w.procs[other] == WriteProcessing;
    }
  }

  lemma MoveValid(w: World, step: Step)
    requires Valid(w)
    ensures Valid(Move(w, step))
  {
    hide Noted, Effect, Next, Rescue, Act;
    match step {
      case Go(who) =>
        if who in w.procs {
          ActExclusive(w, who, true, Next(w.job, w.procs[who]));
          ActCounted(w, who, true, Next(w.job, w.procs[who]));
        }
      case Fail(who, landed, retry) =>
        if who in w.procs {
          ActExclusive(w, who, landed, Rescue(w.procs[who], retry));
          ActCounted(w, who, landed, Rescue(w.procs[who], retry));
        }
      case Arrive(who, pc) =>
        if MayArrive(w, who, pc) {
          ArriveValid(w, who, pc);
        }
      case _ =>
    }
  }

  lemma ArriveValid(w: World, who: nat, pc: Pc)
    requires Valid(w) && MayArrive(w, who, pc)
    ensures Valid(w.(procs := w.procs[who := pc]))
  {
    var x := w.(procs := w.procs[who := pc]);
    assert forall other | other in x.procs :: x.procs[other] == WriteProcessing ==> w.procs[other] == WriteProcessing;
    assert forall other | other in x.procs :: x.procs[other] == Spawn ==> w.procs[other] == Spawn;
  }

  lemma {:induction false} RunsValid(w: World, steps: seq<Step>)
    requires Valid(w)
    ensures Valid(Moves(w, steps))
    decreases |steps|
  {
    hide Valid, Move;
    if steps != [] {
      MoveValid(w, steps[0]);
      RunsValid(Move(w, steps[0]), steps[1..]);
    }
  }

  /**
   For any number of participants and every interleaving, with every command free to fail before or after it
   took effect, processing starts at most once more often than an approvable status is written after a
   processing write; so at most once when none is.
   */
  lemma StartsBounded(storage: bool, steps: seq<Step>)
    ensures var w := Moves(Start(storage), steps);
            w.job.starts <= w.log.processing <= 1 + w.log.rearms
  {
    RunsValid(Start(storage), steps);
  }

  /** No two participants are ever inside the section between taking the lock and releasing it. */
  lemma MutualExclusion(storage: bool, steps: seq<Step>, a: nat, b: nat)
    requires InSection(Moves(Start(storage), steps), a) && InSection(Moves(Start(storage), steps), b)
    ensures a == b
  {
    RunsValid(Start(storage), steps);
  }

  /** No command on the lock itself raises. */
  ghost predicate LockWorks(w: World, steps: seq<Step>)
    decreases |steps|
  {
    steps == []
    || (!(steps[0].Fail? && steps[0].who in w.procs && w.procs[steps[0].who] in {TakeLock, ReleaseLock})
        && LockWorks(Move(w, steps[0]), steps[1..]))
  }

  ghost predicate LockOwned(w: World) {
    w.job.lock.Some? ==> InSection(w, w.job.lock.value)
  }

  lemma MoveOwned(w: World, step: Step)
    requires Exclusive(w) && LockOwned(w) && LockWorks(w, [step])
    ensures LockOwned(Move(w, step))
  {
    hide Noted;
    assert [step][0] == step;
  }

  lemma {:induction false} RunsOwned(w: World, steps: seq<Step>)
    requires Valid(w) && LockOwned(w) && LockWorks(w, steps)
    ensures LockOwned(Moves(w, steps))
    decreases |steps|
  {
    hide Valid, LockOwned, Move;
    if steps != [] {
      MoveValid(w, steps[0]);
      assert Exclusive(w) by {
        ValidExclusive(w);
      }
      assert LockWorks(w, [steps[0]]);
      MoveOwned(w, steps[0]);
      RunsOwned(Move(w, steps[0]), steps[1..]);
    }
  }

  lemma ValidExclusive(w: World)
    requires Valid(w)
    ensures Exclusive(w)
  {
  }

  /**
   The lock never outlives its holder: in every run in which the commands that take and release it do not raise,
   whatever else fails, a lock that is held is held by somebody inside the section.
   */
  lemma LockGivenBack(storage: bool, steps: seq<Step>)
    requires LockWorks(Start(storage), steps)
    ensures var w := Moves(Start(storage), steps);
            w.job.lock.Some? ==> InSection(w, w.job.lock.value)
  {
    RunsOwned(Start(storage), steps);
  }

  // ---------------------------------------------------------------------------
  // When a decision is final
  // ---------------------------------------------------------------------------

  /** An approver that has written its decision and not passed its re-check. */
  ghost predicate Approaching(w: World) {
    exists who :: who in w.procs && w.procs[who] in {UntrackApproved, TakeLock, Recheck}
  }

  /**
   Without storage nothing starts; with it, nobody is let through, and nobody who has decided to approve
   finds a status that would let him through.
   */
  ghost predicate Settled(w: World) {
    w.job.storage ==> !Cleared(w) && !Spawning(w) && !(Armed(w.job.status) && Approaching(w))
  }

  lemma MoveSettled(w: World, step: Step)
    requires Settled(w)
    ensures Move(w, step).log.arms >= w.log.arms
    ensures Move(w, step).log.arms == w.log.arms ==>
              Settled(Move(w, step)) && Move(w, step).job.starts == w.job.starts
  {
    if step.Go? && step.who in w.procs {
      ActSettled(w, step.who, true, Next(w.job, w.procs[step.who]));
    } else if step.Fail? && step.who in w.procs {
      ActSettled(w, step.who, step.landed, Rescue(w.procs[step.who], step.retry));
    } else {
      var x := Move(w, step);
      assert forall who | who in x.procs ::
          (who in w.procs && w.procs[who] == x.procs[who])
          || x.procs[who] in {ReadToApprove, ReadToDeny, WriteAwaiting, WriteQueued, WriteDenied, ReadExpired};
    }
  }

  lemma ActSettled(w: World, who: nat, landed: bool, next: Pc)
    requires Settled(w) && Leads(w, who, landed, next)
    ensures Act(w, who, landed, next).log.arms >= w.log.arms
    ensures Act(w, who, landed, next).log.arms == w.log.arms ==>
              Settled(Act(w, who, landed, next)) && Act(w, who, landed, next).job.starts == w.job.starts
  {
    var x := Act(w, who, landed, next);
    assert forall other | other in x.procs && other != who :: x.procs[other] == w.procs[other];
    if landed {
      LandedSettled(w, who, next);
    }
  }

  lemma LandedSettled(w: World, who: nat, next: Pc)
    requires Settled(w) && Leads(w, who, true, next)
    ensures Act(w, who, true, next).log.arms >= w.log.arms
    ensures Act(w, who, true, next).log.arms == w.log.arms ==>
              Settled(Act(w, who, true, next)) && Act(w, who, true, next).job.starts == w.job.starts
  {
    if Written(w.job, w.procs[who]).None? {
      UnwrittenSettled(w, who, next);
    } else {
      WrittenSettled(w, who, next);
    }
  }

  lemma UnwrittenSettled(w: World, who: nat, next: Pc)
    requires Settled(w) && Leads(w, who, true, next) && Written(w.job, w.procs[who]).None?
    ensures var x := Act(w, who, true, next);
            x.log.arms == w.log.arms && Settled(x) && x.job.starts == w.job.starts
  {
    var x := Act(w, who, true, next);
    assert x.job.status == w.job.status && x.job.storage == w.job.storage;
    assert forall other | other in x.procs && other != who :: x.procs[other] == w.procs[other];
  }

  lemma WrittenSettled(w: World, who: nat, next: Pc)
    requires Settled(w) && Leads(w, who, true, next) && Written(w.job, w.procs[who]).Some?
    ensures var x := Act(w, who, true, next);
            x.log.arms == (if Armed(x.job.status) then w.log.arms + 1 else w.log.arms)
            && (!Armed(x.job.status) ==> Settled(x) && x.job.starts == w.job.starts)
  {
    var x := Act(w, who, true, next);
    assert forall other | other in x.procs && other != who :: x.procs[other] == w.procs[other];
  }

  lemma {:induction false} ArmsGrow(w: World, steps: seq<Step>)
    ensures w.log.arms <= Moves(w, steps).log.arms
    decreases |steps|
  {
    if steps != [] {
      ArmsGrow(Move(w, steps[0]), steps[1..]);
    }
  }

  /** From a settled state processing never starts unless an approvable status is written anew. */
  lemma {:induction false} SettledIsFinal(w: World, steps: seq<Step>)
    requires Settled(w) && Moves(w, steps).log.arms == w.log.arms
    ensures Settled(Moves(w, steps)) && Moves(w, steps).job.starts == w.job.starts
    decreases |steps|
  {
    if steps != [] {
      var x := Move(w, steps[0]);
      MoveSettled(w, steps[0]);
      hide Move, Settled;
      ArmsGrow(x, steps[1..]);
      SettledIsFinal(x, steps[1..]);
    }
  }

  /** From a state that is not settled processing can start, with nobody new arriving. */
  lemma UnsettledStarts(w: World) returns (x: World)
    requires Exclusive(w) && !Settled(w)
    ensures LeadsTo(w, x, {}) && x.log.arms == w.log.arms && x.job.starts > w.job.starts
  {
    Stays(w, {});
    hide LeadsTo, Moves, Act;
    if Spawning(w) {
      var who :| who in w.procs && w.procs[who] == Spawn;
      x := AloneIsARun(w, w, who, {});
      SpawnedAlone(w.job, who);
    } else if Cleared(w) {
      var who :| who in w.procs && w.procs[who] == WriteProcessing;
      x := AloneIsARun(w, w, who, {});
      WrittenAlone(w.job, who);
    } else {
      var who :| who in w.procs && w.procs[who] in {UntrackApproved, TakeLock, Recheck};
      var free := w;
      if w.procs[who] != Recheck && w.job.lock.Some? {
        var holder := w.job.lock.value;
        if MayExpire(w) {
          free := Then(w, w, LockExpires, {});
        } else if w.procs[holder] == Recheck {
          x := AloneIsARun(w, w, holder, {});
          RecheckedAlone(w.job, holder);
          return;
        } else {
          free := Then(w, w, Go(holder), {});
          assert w.procs[holder] == ReleaseLock;
          assert free.job == w.job.(lock := None) && free.log == w.log && free.procs[who] == w.procs[who] by {
            Released(w, holder);
          }
        }
      }
      x := AloneIsARun(w, free, who, {});
      RecheckedAlone(free.job, who);
    }
  }

  lemma Released(w: World, holder: nat)
    requires holder in w.procs && w.procs[holder] == ReleaseLock
    ensures Move(w, Go(holder)) == World(w.job.(lock := None), w.procs[holder := Finished], w.log)
  {
  }

  lemma SpawnedAlone(job: Job, me: nat)
    requires job.storage
    ensures Alone(job, me, Spawn).starts == job.starts + 1
  {
  }

  lemma RecheckedAlone(job: Job, me: nat)
    requires job.storage && Armed(job.status)
    ensures Alone(job, me, Recheck).starts == job.starts + 1
    ensures job.lock == None ==> Alone(job, me, TakeLock).starts == job.starts + 1
    ensures job.lock == None ==> Alone(job, me, UntrackApproved).starts == job.starts + 1
  {
    forall j: Job | j.storage && Armed(j.status)
      ensures Alone(j, me, Recheck).starts == j.starts + 1
    {
      assert Alone(j, me, Recheck) == Alone(j, me, WriteProcessing);
      WrittenAlone(j, me);
    }
    if job.lock == None {
      assert Alone(job, me, TakeLock) == Alone(job.(lock := Some(me)), me, Recheck);
      var off := job.(tracked := false);
      assert Alone(job, me, UntrackApproved) == Alone(off, me, TakeLock);
      assert Alone(off, me, TakeLock) == Alone(off.(lock := Some(me)), me, Recheck);
    }
  }

  /**
   In every reachable state: no continuation without a new write of an approvable status starts processing
   if and only if the state is settled. With a status that is not approvable and storage configured that
   means: if and only if no approver has passed its re-check and not yet started.
   */
  lemma FinalIff(storage: bool, history: seq<Step>)
    ensures var w := Moves(Start(storage), history);
            (forall steps | Moves(w, steps).log.arms == w.log.arms :: Moves(w, steps).job.starts == w.job.starts)
            <==> Settled(w)
  {
    var w := Moves(Start(storage), history);
    RunsValid(Start(storage), history);
    assert Exclusive(w);
    hide Settled, Exclusive;
    if Settled(w) {
      forall steps | Moves(w, steps).log.arms == w.log.arms
        ensures Moves(w, steps).job.starts == w.job.starts
      {
        SettledIsFinal(w, steps);
      }
    } else {
      var x := UnsettledStarts(w);
      var steps :| ArrivesBy(steps, {}) && Moves(w, steps) == x;
      assert Moves(w, steps).job.starts != w.job.starts;
    }
  }

  // ---------------------------------------------------------------------------
  // When a terminal status stays
  // ---------------------------------------------------------------------------

  predicate Terminal(s: Status) {
    s in {Denied, Completed, Failed}
  }

  /** Somebody at this step will or may write a status other than the terminal one that is there. */
  predicate Disturbs(storage: bool, s: Status, pc: Pc) {
    match pc
    case WriteQueued => true
    case WriteProcessing => true
    case WriteAwaiting => true
    case Track => true
    case StoreToken => true
    case Spawn => !storage && s != Failed
    case WriteTimedOut => s != Failed
    case WriteGivenUp => s != Failed
    case WriteDenied => s != Denied
    case UntrackDenied => s != Denied
    case WriteDeniedAgain => s != Denied
    case _ => false
  }

  ghost predicate Undisturbed(w: World, s: Status) {
    forall who | who in w.procs :: !Disturbs(w.job.storage, s, w.procs[who])
  }

  /** Whoever arrives reads the status first, and no other service writes it. */
  predicate OnlyReaders(steps: seq<Step>) {
    forall i | 0 <= i < |steps| ::
      !steps[i].Elsewhere?
      && (steps[i].Arrive? ==> steps[i].pc in {ReadToApprove, ReadToDeny, ReadExpired})
  }

  lemma ActUndisturbed(w: World, s: Status, who: nat, landed: bool, next: Pc)
    requires Terminal(s) && w.job.status == Some(s) && Undisturbed(w, s) && Leads(w, who, landed, next)
    ensures Act(w, who, landed, next).job.status == Some(s) && Undisturbed(Act(w, who, landed, next), s)
  {
    hide Noted;
    var x := Act(w, who, landed, next);
    assert !Disturbs(w.job.storage, s, w.procs[who]);
    assert x.job.status == Some(s) && x.job.storage == w.job.storage && !Disturbs(x.job.storage, s, next);
    assert forall other | other in x.procs && other != who :: x.procs[other] == w.procs[other];
  }

  lemma {:induction false} StatusStays(w: World, s: Status, steps: seq<Step>)
    requires Terminal(s) && w.job.status == Some(s) && Undisturbed(w, s) && OnlyReaders(steps)
    ensures Moves(w, steps).job.status == Some(s)
    decreases |steps|
  {
    if steps != [] {
      var step := steps[0];
      if step.Go? && step.who in w.procs {
        ActUndisturbed(w, s, step.who, true, Next(w.job, w.procs[step.who]));
      } else if step.Fail? && step.who in w.procs {
        ActUndisturbed(w, s, step.who, step.landed, Rescue(w.procs[step.who], step.retry));
      }
      assert Move(w, step).job.status == Some(s) && Undisturbed(Move(w, step), s);
      hide Move, Undisturbed;
      StatusStays(Move(w, step), s, steps[1..]);
    }
  }

  lemma MovesTwo(w: World, a: Step, b: Step)
    ensures Moves(w, [a]) == Move(w, a) && Moves(w, [a, b]) == Move(Move(w, a), b)
  {
    hide Move;
    var x := Move(w, a);
    assert [a][1..] == [] && [a, b][1..] == [b] && [b][1..] == [];
    assert Moves(x, []) == x && Moves(x, [b]) == Moves(Move(x, b), []);
  }

  /** Whoever disturbs needs at most two steps to write another status. */
  lemma DisturberWrites(w: World, s: Status, who: nat) returns (steps: seq<Step>)
    requires Terminal(s) && w.job.status == Some(s) && who in w.procs && Disturbs(w.job.storage, s, w.procs[who])
    ensures OnlyReaders(steps) && Moves(w, steps).job.status != Some(s)
  {
    var first := if w.procs[who] in {Track, StoreToken} then Fail(who, false, true) else Go(who);
    MovesTwo(w, first, Go(who));
    hide Moves;
    steps := if w.procs[who] in {Track, StoreToken, UntrackDenied} then [first, Go(who)] else [first];
  }

  /**
   A terminal status stays for good, whoever comes to look at it, if and only if nobody is left whose steps can
   write another one: an approver about to write, a worker not done with asking, a sweep or a failed worker about
   to write a failure, or somebody denying what was not denied.
   */
  lemma StatusStaysIff(w: World, s: Status)
    requires Terminal(s) && w.job.status == Some(s)
    ensures (forall steps | OnlyReaders(steps) :: Moves(w, steps).job.status == Some(s)) <==> Undisturbed(w, s)
  {
    if Undisturbed(w, s) {
      forall steps | OnlyReaders(steps)
        ensures Moves(w, steps).job.status == Some(s)
      {
        StatusStays(w, s, steps);
      }
    } else {
      var who :| who in w.procs && Disturbs(w.job.storage, s, w.procs[who]);
      hide Moves, OnlyReaders, Undisturbed;
      var steps := DisturberWrites(w, s, who);
      assert Moves(w, steps).job.status != Some(s);
    }
  }

  // ---------------------------------------------------------------------------
  // Awaiting jobs keep their deadline
  // ---------------------------------------------------------------------------

  ghost predicate Tracking(w: World) {
    (forall who | who in w.procs
         && w.procs[who] in {WriteQueued, WriteDenied, ReadExpired, WriteTimedOut, Track, StoreToken} ::
       w.log.begun)
    && (forall who | who in w.procs && w.procs[who] in {UntrackApproved, UntrackDenied, UntrackExpired} :: w.log.left)
    && (w.job.tracked || w.log.queued || w.log.left ==> w.log.begun)
    && (w.log.begun && !w.log.left ==> w.job.status == Some(Awaiting))
    && (w.log.left && !w.log.rearmed ==> w.job.status != Some(Awaiting))
    && (w.job.status == Some(Awaiting) ==> w.log.begun)
    && (w.log.queued && !w.log.left ==> w.job.tracked)
  }

  lemma ActTracking(w: World, who: nat, landed: bool, next: Pc)
    requires Tracking(w) && Leads(w, who, landed, next)
    ensures Tracking(Act(w, who, landed, next))
  {
    if landed {
      LandedTracking(w, who, next);
    }
  }

  lemma LandedTracking(w: World, who: nat, next: Pc)
    requires Tracking(w) && Leads(w, who, true, next)
    ensures Tracking(Act(w, who, true, next))
  {
    if Written(w.job, w.procs[who]).None? {
      UnwrittenTracking(w, who, next);
    }
  }

  lemma UnwrittenTracking(w: World, who: nat, next: Pc)
    requires Tracking(w) && Leads(w, who, true, next) && Written(w.job, w.procs[who]).None?
    ensures Tracking(Act(w, who, true, next))
  {
  }

  lemma MoveTracking(w: World, step: Step)
    requires Tracking(w)
    ensures Tracking(Move(w, step))
  {
    hide Noted, Effect, Next, Rescue, Act;
    match step {
      case Go(who) =>
        if who in w.procs {
          ActTracking(w, who, true, Next(w.job, w.procs[who]));
        }
      case Fail(who, landed, retry) =>
        if who in w.procs {
          ActTracking(w, who, landed, Rescue(w.procs[who], retry));
        }
      case _ =>
    }
  }

  lemma {:induction false} RunsTrack(w: World, steps: seq<Step>)
    requires Tracking(w)
    ensures Tracking(Moves(w, steps))
    decreases |steps|
  {
    hide Tracking, Move;
    if steps != [] {
      MoveTracking(w, steps[0]);
      RunsTrack(Move(w, steps[0]), steps[1..]);
    }
  }

  /**
   Once the deadline was queued, every reachable state in which the job awaits approval has it tracked,
   whatever decisions and sweeps are under way, as long as no worker asks for approval again after the
   status was written away.
   */
  lemma AwaitingIsTracked(storage: bool, steps: seq<Step>)
    requires var w := Moves(Start(storage), steps);
             w.log.queued && !w.log.rearmed && w.job.status == Some(Awaiting)
    ensures Moves(Start(storage), steps).job.tracked
  {
    RunsTrack(Start(storage), steps);
  }

  /** Somebody is about to take the job out of the tracking set. */
  ghost predicate Untracking(w: World) {
    exists who :: who in w.procs && w.procs[who] in {UntrackApproved, UntrackDenied, UntrackExpired}
  }

  /** The job awaits approval in every state of the run. */
  predicate AllAwaiting(w: World, steps: seq<Step>)
    decreases |steps|
  {
    w.job.status == Some(Awaiting) && (steps == [] || AllAwaiting(Move(w, steps[0]), steps[1..]))
  }

  lemma ActUntracking(w: World, who: nat, landed: bool, next: Pc)
    requires w.job.status == Some(Awaiting) && w.job.tracked && !Untracking(w) && Leads(w, who, landed, next)
    requires Act(w, who, landed, next).job.status == Some(Awaiting)
    ensures Act(w, who, landed, next).job.tracked && !Untracking(Act(w, who, landed, next))
  {
    var x := Act(w, who, landed, next);
    assert forall other | other in x.procs && other != who :: x.procs[other] == w.procs[other];
  }

  lemma MoveUntracking(w: World, step: Step)
    requires w.job.status == Some(Awaiting) && w.job.tracked && !Untracking(w)
    requires Move(w, step).job.status == Some(Awaiting)
    ensures Move(w, step).job.tracked && !Untracking(Move(w, step))
  {
    if step.Go? && step.who in w.procs {
      ActUntracking(w, step.who, true, Next(w.job, w.procs[step.who]));
    } else if step.Fail? && step.who in w.procs {
      ActUntracking(w, step.who, step.landed, Rescue(w.procs[step.who], step.retry));
    } else {
      var x := Move(w, step);
      assert forall who | who in x.procs ::
          (who in w.procs && w.procs[who] == x.procs[who])
          || x.procs[who] in {ReadToApprove, ReadToDeny, WriteAwaiting, WriteQueued, WriteDenied, ReadExpired};
    }
  }

  lemma {:induction false} StaysTracked(w: World, steps: seq<Step>)
    requires AllAwaiting(w, steps) && w.job.tracked && !Untracking(w)
    ensures Moves(w, steps).job.tracked
    decreases |steps|
  {
    hide Move, Untracking;
    if steps != [] {
      assert AllAwaiting(Move(w, steps[0]), steps[1..]);
      MoveUntracking(w, steps[0]);
      StaysTracked(Move(w, steps[0]), steps[1..]);
    }
  }

  lemma LosesDeadline(w: World) returns (steps: seq<Step>)
    requires w.job.status == Some(Awaiting) && Untracking(w)
    ensures AllAwaiting(w, steps) && !Moves(w, steps).job.tracked
  {
    var who :| who in w.procs && w.procs[who] in {UntrackApproved, UntrackDenied, UntrackExpired};
    var x := Move(w, Go(who));
    steps := [Go(who)];
    assert steps[1..] == [] && Moves(x, []) == x && AllAwaiting(x, []);
  }

  /**
   Whatever happened before, also when approval was asked for again after a decision: a job that awaits
   approval and is tracked keeps its deadline for as long as it awaits, in every continuation, if and only if
   nobody is about to untrack it.
   */
  lemma DeadlineKeptIff(w: World)
    requires w.job.status == Some(Awaiting) && w.job.tracked
    ensures (forall steps | AllAwaiting(w, steps) :: Moves(w, steps).job.tracked) <==> !Untracking(w)
  {
    hide AllAwaiting, Moves, Untracking;
    if Untracking(w) {
      var steps := LosesDeadline(w);
      assert AllAwaiting(w, steps) && !Moves(w, steps).job.tracked;
    } else {
      forall steps | AllAwaiting(w, steps)
        ensures Moves(w, steps).job.tracked
      {
        StaysTracked(w, steps);
      }
    }
  }

  // ---------------------------------------------------------------------------
  // The bounds are met, and the assumptions are needed
  // ---------------------------------------------------------------------------

  const Origin := Start(true)

  const ById: set<Pc> := {WriteAwaiting, ReadToApprove}

  const ReadersOrWorker: set<Pc> := {ReadToApprove, ReadToDeny, ReadExpired, WriteAwaiting}

  const ByIdOrToken: set<Pc> := {WriteAwaiting, ReadToApprove, WriteQueued, WriteDenied}

  /** Whoever arrives in the run is of one of the `kinds`. */
  predicate ArrivesBy(steps: seq<Step>, kinds: set<Pc>) {
    forall i | 0 <= i < |steps| :: steps[i].Arrive? ==> steps[i].pc in kinds
  }

  /** Some run in which only participants of the `kinds` arrive goes from `v` to `w`. */
  ghost predicate LeadsTo(v: World, w: World, kinds: set<Pc>) {
    exists steps :: ArrivesBy(steps, kinds) && Moves(v, steps) == w
  }

  lemma {:induction false} MovesSnoc(w: World, steps: seq<Step>, s: Step)
    ensures Moves(w, steps + [s]) == Move(Moves(w, steps), s)
    decreases |steps|
  {
    hide Move;
    if steps == [] {
      assert (steps + [s])[1..] == [];
    } else {
      assert (steps + [s])[1..] == steps[1..] + [s];
      MovesSnoc(Move(w, steps[0]), steps[1..], s);
    }
  }

  lemma Stays(w: World, kinds: set<Pc>)
    ensures LeadsTo(w, w, kinds)
  {
    assert Moves(w, []) == w && ArrivesBy([], kinds);
  }

  lemma Then(v: World, w: World, s: Step, kinds: set<Pc>) returns (x: World)
    requires LeadsTo(v, w, kinds) && (s.Arrive? ==> s.pc in kinds)
    ensures x == Move(w, s) && LeadsTo(v, x, kinds)
  {
    hide Move;
    var steps :| ArrivesBy(steps, kinds) && Moves(v, steps) == w;
    MovesSnoc(v, steps, s);
    assert ArrivesBy(steps + [s], kinds);
    assert Moves(v, steps + [s]) == Move(w, s);
    x := Move(w, s);
  }

  predicate Arming(pc: Pc) {
    pc in {ReadToApprove, WriteQueued, WriteAwaiting}
  }

  /** What a service does alone is one of the runs: the methods above take the steps of the protocol. */
  lemma {:induction false} AloneIsARun(v: World, w: World, who: nat, kinds: set<Pc>) returns (x: World)
    requires LeadsTo(v, w, kinds) && who in w.procs
    ensures LeadsTo(v, x, kinds) && x.job == Alone(w.job, who, w.procs[who]) && x.procs == w.procs[who := Finished]
    ensures !Arming(w.procs[who]) ==> x.log.arms == w.log.arms && x.log.rearms == w.log.rearms
    ensures w.procs[who] == WriteQueued ==> x.log.rearms == w.log.rearms + (if w.log.processing > 0 then 1 else 0)
    ensures w.log.begun ==> x.log.begun
    decreases Rank(w.procs[who])
  {
    hide LeadsTo, Moves;
    if w.procs[who] == Finished {
      x := w;
      assert x.procs == w.procs[who := Finished];
    } else {
      GoStep(w, who);
      hide Move, Effect, Next, Noted, Written;
      var y := Then(v, w, Go(who), kinds);
      x := AloneIsARun(v, y, who, kinds);
    }
  }

  lemma GoStep(w: World, who: nat)
    requires who in w.procs && w.procs[who] != Finished
    ensures var y, pc := Move(w, Go(who)), w.procs[who];
            y.procs == w.procs[who := Next(w.job, pc)] && y.job == Effect(w.job, who, pc)
            && Rank(Next(w.job, pc)) < Rank(pc) && (w.log.begun ==> y.log.begun)
            && Alone(w.job, who, pc) == Alone(Effect(w.job, who, pc), who, Next(w.job, pc))
            && (!Arming(pc) ==>
                  !Arming(Next(w.job, pc)) && y.log.arms == w.log.arms && y.log.rearms == w.log.rearms)
            && (pc == WriteQueued ==>
                  !Arming(Next(w.job, pc)) && y.log.rearms == w.log.rearms + if w.log.processing > 0 then 1 else 0)
  {
  }

  /** A job that has been queued for approval and is awaiting a decision. */
  lemma AwaitingWorld(kinds: set<Pc>) returns (w: World)
    requires WriteAwaiting in kinds
    ensures LeadsTo(Origin, w, kinds) && w.procs == map[0 := StoreToken]
    ensures w.job == Job(Some(Awaiting), true, None, 0, true)
    ensures w.log == Log(0, 1, 0, true, false, false, true)
  {
    assert Moves(Origin, []) == Origin && LeadsTo(Origin, Origin, kinds);
    hide Moves;
    var w1 := Then(Origin, Origin, Arrive(0, WriteAwaiting), kinds);
    var w2 := Then(Origin, w1, Go(0), kinds);
    w := Then(Origin, w2, Go(0), kinds);
  }

  /** Two deciders that both read the status before either wrote it start the processing twice. */
  lemma TwoApproversStartTwice()
    ensures exists w :: LeadsTo(Origin, w, ById) && w.job.starts == 2
  {
    hide LeadsTo;
    var w0 := AwaitingWorld(ById);
    var w1 := Then(Origin, w0, Arrive(1, ReadToApprove), ById);
    var w2 := Then(Origin, w1, Arrive(2, ReadToApprove), ById);
    var w3 := Then(Origin, w2, Go(1), ById);
    var w4 := Then(Origin, w3, Go(2), ById);
    assert w4.job == w0.job && w4.procs[1] == WriteQueued && w4.procs[2] == WriteQueued;
    var w5 := AloneIsARun(Origin, w4, 1, ById);
    ApprovedAlone(w4.job, 1);
    ApprovedAlone(w5.job, 2);
    var w6 := AloneIsARun(Origin, w5, 2, ById);
    assert LeadsTo(Origin, w6, ById) && w6.job.starts == 2;
  }

  lemma ApprovedAlone(job: Job, me: nat)
    requires job.lock == None && job.storage
    ensures Alone(job, me, WriteQueued) == job.(status := Some(Processing), tracked := false, starts := job.starts + 1)
  {
    var queued := job.(status := Some(Queued), tracked := false, lock := Some(me));
    assert Alone(job, me, WriteQueued) == Alone(job.(status := Some(Queued)), me, UntrackApproved);
    assert Alone(job.(status := Some(Queued)), me, UntrackApproved) == Alone(queued, me, Recheck);
    assert Alone(queued, me, Recheck) == Alone(queued.(status := Some(Processing)), me, Spawn);
  }

  // --- deciders by id, one at a time ---

  /** Between the read and the write of an approver by id. */
  ghost predicate Deciding(w: World, who: nat) {
    who in w.procs && w.procs[who] == WriteQueued
  }

  predicate Beyond(pc: Pc) {
    pc in {UntrackApproved, TakeLock, Recheck, WriteProcessing, Spawn}
  }

  /** No two approvers are between their read and their write, in any state of the run. */
  ghost predicate OneAtATime(w: World, steps: seq<Step>)
    decreases |steps|
  {
    (forall a, b | Deciding(w, a) && Deciding(w, b) :: a == b)
    && (steps == [] || OneAtATime(Move(w, steps[0]), steps[1..]))
  }

  /** As long as approval was not asked for again, whoever is still to write its approval is the first to. */
  ghost predicate FirstDecides(w: World) {
    (forall who | who in w.procs && Beyond(w.procs[who]) :: w.log.left)
    && (w.log.processing > 0 ==> w.log.left)
    && (!w.log.rearmed ==>
          w.log.rearms == 0
          && ((exists who :: Deciding(w, who)) ==>
                w.log.processing == 0 && forall who | who in w.procs :: !Beyond(w.procs[who])))
  }

  lemma ActFirst(w: World, who: nat, landed: bool, next: Pc)
    requires Tracking(w) && FirstDecides(w) && Leads(w, who, landed, next)
    requires forall a, b | Deciding(w, a) && Deciding(w, b) :: a == b
    ensures FirstDecides(Act(w, who, landed, next))
  {
    if w.procs[who] == WriteQueued {
      QueuedFirst(w, who, landed, next);
    } else if next == WriteQueued {
      ReadFirst(w, who, landed, next);
    } else {
      OtherFirst(w, who, landed, next);
    }
  }

  lemma QueuedFirst(w: World, who: nat, landed: bool, next: Pc)
    requires Tracking(w) && FirstDecides(w) && Leads(w, who, landed, next) && Deciding(w, who)
    requires forall a, b | Deciding(w, a) && Deciding(w, b) :: a == b
    ensures FirstDecides(Act(w, who, landed, next))
  {
    var x := Act(w, who, landed, next);
    assert forall other | other in x.procs && other != who :: x.procs[other] == w.procs[other];
    assert forall other | Deciding(x, other) :: other != who && Deciding(w, other);
    assert w.log.begun;
    hide Tracking;
  }

  lemma ReadFirst(w: World, who: nat, landed: bool, next: Pc)
    requires Tracking(w) && FirstDecides(w) && Leads(w, who, landed, next)
    requires w.procs[who] != WriteQueued && next == WriteQueued
    ensures FirstDecides(Act(w, who, landed, next))
  {
    var x := Act(w, who, landed, next);
    assert w.procs[who] == ReadToApprove && w.job.status == Some(Awaiting);
    assert x.log == w.log && (!w.log.rearmed ==> !w.log.left);
    hide Tracking;
    assert forall other | other in x.procs && other != who :: x.procs[other] == w.procs[other];
  }

  lemma OtherFirst(w: World, who: nat, landed: bool, next: Pc)
    requires Tracking(w) && FirstDecides(w) && Leads(w, who, landed, next)
    requires w.procs[who] != WriteQueued && next != WriteQueued
    ensures FirstDecides(Act(w, who, landed, next))
  {
    var pc := w.procs[who];
    var x := Act(w, who, landed, next);
    OtherLogged(w, who, landed, next);
    hide Tracking, Noted, Effect, Next, Rescue, Leads;
    assert forall other | other in x.procs && other != who :: x.procs[other] == w.procs[other];
    assert forall other | Deciding(x, other) :: Deciding(w, other);
  }

  lemma OtherLogged(w: World, who: nat, landed: bool, next: Pc)
    requires Tracking(w) && FirstDecides(w) && Leads(w, who, landed, next)
    requires w.procs[who] != WriteQueued && next != WriteQueued
    ensures var x := Act(w, who, landed, next);
            (Beyond(next) ==> Beyond(w.procs[who]))
            && (w.log.left ==> x.log.left)
            && (x.log.processing > 0 ==> w.log.processing > 0 || Beyond(w.procs[who]))
            && (x.log.processing > w.log.processing ==> Beyond(w.procs[who]))
            && (!x.log.rearmed ==> !w.log.rearmed && x.log.rearms == w.log.rearms)
  {
  }

  lemma MoveFirst(w: World, step: Step)
    requires Tracking(w) && FirstDecides(w) && (step.Arrive? ==> step.pc in ReadersOrWorker)
    requires forall a, b | Deciding(w, a) && Deciding(w, b) :: a == b
    ensures FirstDecides(Move(w, step))
  {
    if step.Go? && step.who in w.procs {
      ActFirst(w, step.who, true, Next(w.job, w.procs[step.who]));
    } else if step.Fail? && step.who in w.procs {
      ActFirst(w, step.who, step.landed, Rescue(w.procs[step.who], step.retry));
    } else {
      var x := Move(w, step);
      assert forall who | who in x.procs ::
          (who in w.procs && w.procs[who] == x.procs[who]) || x.procs[who] in ReadersOrWorker;
      assert forall who | Deciding(x, who) :: Deciding(w, who);
    }
  }

  lemma {:induction false} RunsFirst(w: World, steps: seq<Step>)
    requires Tracking(w) && FirstDecides(w) && ArrivesBy(steps, ReadersOrWorker) && OneAtATime(w, steps)
    ensures FirstDecides(Moves(w, steps))
    decreases |steps|
  {
    hide Tracking, FirstDecides, Move;
    if steps != [] {
      assert OneAtATime(Move(w, steps[0]), steps[1..]);
      MoveTracking(w, steps[0]);
      MoveFirst(w, steps[0]);
      RunsFirst(Move(w, steps[0]), steps[1..]);
    }
  }

  /**
   The check by job id does what it is for when it is not raced: if only workers, sweeps and deciders by id
   come, no two approvers are between their read and their write at once, and approval is not asked for again
   after a decision, then processing starts at most once.
   */
  lemma OneAtATimeStartsOnce(storage: bool, steps: seq<Step>)
    requires ArrivesBy(steps, ReadersOrWorker) && OneAtATime(Start(storage), steps)
    requires !Moves(Start(storage), steps).log.rearmed
    ensures Moves(Start(storage), steps).job.starts <= 1
  {
    RunsFirst(Start(storage), steps);
    StartsBounded(storage, steps);
  }

  /** For every `n` the bound is met: each late approver writes the status anew and starts once more. */
  lemma {:induction false} StartsReached(n: nat) returns (w: World)
    ensures LeadsTo(Origin, w, ByIdOrToken) && w.job.starts == 1 + n && w.log.rearms == n
    ensures w.job.lock == None && w.job.storage && w.log.begun && forall who | who in w.procs :: who <= n + 1
    decreases n
  {
    hide LeadsTo;
    hide Move, Moves, Act, Next, Effect, Alone;
    if n == 0 {
      var v := AwaitingWorld(ByIdOrToken);
      w := OneMoreStart(v, 1);
    } else {
      var v := StartsReached(n - 1);
      StartsWritten(v, ByIdOrToken);
      w := OneMoreStart(v, n + 1);
    }
  }

  /** A token holder who arrives when the lock is free starts the processing once more. */
  lemma OneMoreStart(v: World, me: nat) returns (w: World)
    requires LeadsTo(Origin, v, ByIdOrToken) && v.job.lock == None && v.job.storage && v.log.begun && me !in v.procs
    ensures LeadsTo(Origin, w, ByIdOrToken) && w.procs == v.procs[me := Finished]
    ensures w.job.starts == v.job.starts + 1 && w.job.lock == None && w.job.storage && w.log.begun
    ensures w.log.rearms == v.log.rearms + if v.log.processing > 0 then 1 else 0
  {
    hide LeadsTo;
    var u := Then(Origin, v, Arrive(me, WriteQueued), ByIdOrToken);
    assert u.job == v.job && u.log == v.log && u.procs == v.procs[me := WriteQueued];
    hide Move, Moves, Act, Next, Effect;
    ApprovedAlone(u.job, me);
    hide Alone;
    w := AloneIsARun(Origin, u, me, ByIdOrToken);
  }

  lemma StartsWritten(w: World, kinds: set<Pc>)
    requires LeadsTo(Origin, w, kinds)
    ensures w.job.starts <= w.log.processing
  {
    var steps :| ArrivesBy(steps, kinds) && Moves(Origin, steps) == w;
    StartsBounded(true, steps);
  }

  /** A denial whose every step has run is overwritten by an approver that had passed its re-check. */
  lemma DeniedThenProcessed()
    ensures exists w, x :: LeadsTo(Origin, w, ByIdOrToken) && LeadsTo(w, x, {})
              && w.job.status == Some(Denied) && 2 in w.procs && w.procs[2] == Finished
              && x.procs == w.procs[1 := Finished] && x.job.status == Some(Processing) && x.job.starts == 1
  {
    hide LeadsTo;
    var w0 := AwaitingWorld(ByIdOrToken);
    var w1 := Then(Origin, w0, Arrive(1, ReadToApprove), ByIdOrToken);
    var w2 := Then(Origin, w1, Arrive(2, WriteDenied), ByIdOrToken);
    var w3 := ToRecheck(w2);
    assert w3.procs == map[0 := StoreToken, 1 := Recheck, 2 := WriteDenied];
    var w4 := Then(Origin, w3, Go(1), ByIdOrToken);
    assert w4.procs == map[0 := StoreToken, 1 := WriteProcessing, 2 := WriteDenied] && w4.job == w3.job;
    hide Move, Act, Next, Effect;
    DeniedAlone(w4.job, 2);
    WrittenAlone(w4.job.(status := Some(Denied)), 1);
    hide Alone;
    var w5 := AloneIsARun(Origin, w4, 2, ByIdOrToken);
    Stays(w5, {});
    var w6 := AloneIsARun(w5, w5, 1, {});
    assert w6.job.status == Some(Processing) && w6.job.starts == 1;
  }

  lemma DeniedAlone(job: Job, me: nat)
    requires !job.tracked
    ensures Alone(job, me, WriteDenied) == job.(status := Some(Denied))
  {
    assert Alone(job, me, WriteDenied) == Alone(job.(status := Some(Denied)), me, UntrackDenied);
  }

  lemma WrittenAlone(job: Job, me: nat)
    requires job.storage
    ensures Alone(job, me, WriteProcessing) == job.(status := Some(Processing), lock := None, starts := job.starts + 1)
  {
    assert Alone(job, me, WriteProcessing) == Alone(job.(status := Some(Processing)), me, Spawn);
  }

  lemma ToRecheck(w: World) returns (x: World)
    requires LeadsTo(Origin, w, ByIdOrToken) && w.job == Job(Some(Awaiting), true, None, 0, true)
    requires 1 in w.procs && w.procs[1] == ReadToApprove && w.log.processing == 0 && w.log.rearms == 0
    ensures LeadsTo(Origin, x, ByIdOrToken) && x.procs == w.procs[1 := Recheck] && x.log.rearms == 0
    ensures x.job == Job(Some(Queued), false, Some(1), 0, true)
  {
    var w1 := Then(Origin, w, Go(1), ByIdOrToken);
    var w2 := Then(Origin, w1, Go(1), ByIdOrToken);
    var w3 := Then(Origin, w2, Go(1), ByIdOrToken);
    x := Then(Origin, w3, Go(1), ByIdOrToken);
  }

  /** If the lock could expire inside the section, two starts would need no re-arming write. */
  lemma ExpiryInsideStartsTwice()
    ensures exists w, x :: LeadsTo(Origin, w, ById) && InSection(w, 1) && w.job.lock == Some(1)
              && LeadsTo(w.(job := w.job.(lock := None)), x, ById) && x.job.starts == 2 && x.log.rearms == 0
  {
    var w := TwoQueued();
    var u := w.(job := w.job.(lock := None));
    Stays(u, ById);
    hide LeadsTo, Act;
    var y := AloneIsARun(u, u, 2, ById);
    assert Alone(u.job, 2, TakeLock) == Alone(u.job.(lock := Some(2), status := Some(Processing)), 2, Spawn);
    var x := AloneIsARun(u, y, 1, ById);
    assert x.job.starts == 2;
  }

  /** Two approvers have written `processing_queued`; one holds the lock, the other is about to ask for it. */
  lemma TwoQueued() returns (w: World)
    ensures LeadsTo(Origin, w, ById) && w.job == Job(Some(Queued), false, Some(1), 0, true) && w.log.rearms == 0
    ensures 1 in w.procs && w.procs[1] == WriteProcessing && 2 in w.procs && w.procs[2] == TakeLock
  {
    hide LeadsTo;
    var w0 := AwaitingWorld(ById);
    var w1 := Then(Origin, w0, Arrive(1, ReadToApprove), ById);
    var w2 := Then(Origin, w1, Arrive(2, ReadToApprove), ById);
    var w3 := Then(Origin, w2, Go(1), ById);
    var w4 := Then(Origin, w3, Go(2), ById);
    assert w4.procs == map[0 := StoreToken, 1 := WriteQueued, 2 := WriteQueued];
    var w5 := Then(Origin, w4, Go(2), ById);
    var w6 := Then(Origin, w5, Go(2), ById);
    assert w6.procs == map[0 := StoreToken, 1 := WriteQueued, 2 := TakeLock];
    var w7 := Then(Origin, w6, Go(1), ById);
    var w8 := Then(Origin, w7, Go(1), ById);
    var w9 := Then(Origin, w8, Go(1), ById);
    w := Then(Origin, w9, Go(1), ById);
  }

  /**
   A worker that asks again after a decision, because storing the token failed, can leave the job awaiting
   approval with no deadline and nobody at work on it.
   */
  lemma AskedAgainLosesDeadline()
    ensures exists w :: LeadsTo(Origin, w, ById) && w.log.rearmed && w.job.status == Some(Awaiting) && !w.job.tracked
              && forall who | who in w.procs :: w.procs[who] == Finished
  {
    hide LeadsTo;
    var w3 := QueuedBesideWorker();
    var w4 := Then(Origin, w3, Fail(0, false, true), ById);
    assert w4.procs == map[0 := WriteAwaiting, 1 := UntrackApproved];
    var w5 := Then(Origin, w4, Go(0), ById);
    var w6 := Then(Origin, w5, Go(0), ById);
    var w7 := Then(Origin, w6, Go(0), ById);
    assert w7.procs == map[0 := Finished, 1 := UntrackApproved] && w7.job.status == Some(Awaiting) && w7.log.rearmed;
    hide Act;
    var w9 := UntrackedThenFails(w7);
  }

  lemma QueuedBesideWorker() returns (w: World)
    ensures LeadsTo(Origin, w, ById) && w.procs == map[0 := StoreToken, 1 := UntrackApproved]
    ensures w.job == Job(Some(Queued), true, None, 0, true) && w.log.begun && w.log.left
  {
    hide LeadsTo;
    var w0 := AwaitingWorld(ById);
    var w1 := Then(Origin, w0, Arrive(1, ReadToApprove), ById);
    var w2 := Then(Origin, w1, Go(1), ById);
    w := Then(Origin, w2, Go(1), ById);
  }

  lemma UntrackedThenFails(w: World) returns (x: World)
    requires LeadsTo(Origin, w, ById) && w.procs == map[0 := Finished, 1 := UntrackApproved]
    ensures LeadsTo(Origin, x, ById) && x.procs == map[0 := Finished, 1 := Finished] && !x.job.tracked
    ensures x.job.status == w.job.status && x.log.rearmed == w.log.rearmed
  {
    hide LeadsTo;
    var y := Then(Origin, w, Go(1), ById);
    x := Then(Origin, y, Fail(1, false, false), ById);
  }
}
