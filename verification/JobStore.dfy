/**
 Job hashes, their secondary index and the approval deadlines in Redis: the Lua scripts and methods of
 src/services/job_service.py, the timeout set of src/services/queue_service.py, the timeout sweep of
 src/services/timeout_service.py and the retention sweep of src/services/orphan_service.py.
 */
module JobStore {
  import opened Text
  import opened JobStatus
  import Approval

  /** `Garbled` is a creation time that does not parse. */
  datatype Created = Absent | Garbled | At(time: real)

  /** The fields of a job hash that the services look at, and when the hash expires. */
  datatype Hash = Hash(status: Option<Status>, created: Created, expireAt: Option<real>)

  type Id = nat

  datatype Store = Store(jobs: map<Id, Hash>, index: map<Id, real>, timeouts: map<Id, real>)

  type Seconds = s: int | s > 0 witness 1

  datatype Ttls = Ttls(active: Seconds, completed: Seconds, failed: Seconds, denied: Seconds)

  function TtlFor(t: Ttls, s: Status): Seconds {
    match s
    case Completed => t.completed
    case Failed => t.failed
    case Denied => t.denied
    case _ => t.active
  }

  predicate Terminal(s: Option<Status>) {
    s in {Some(Completed), Some(Failed), Some(Denied)}
  }

  // ---------------------------------------------------------------------------
  // The scripts
  // ---------------------------------------------------------------------------

  function HashOf(s: Store, id: Id): Hash {
    if id in s.jobs then s.jobs[id] else Hash(None, Absent, None)
  }

  /** HSET, EXPIRE and ZADD: `ts` is the clock read by the caller, `at` the moment the script runs. */
  function Put(s: Store, t: Ttls, id: Id, status: Status, created: Option<Created>, ts: real, at: real): Store {
    var made := match created case Some(c) => c case None => HashOf(s, id).created;
    s.(jobs := s.jobs[id := Hash(Some(status), made, Some(at + TtlFor(t, status) as real))],
       index := s.index[id := ts])
  }

  /** HSET and ZADD, with no change of the time to live. */
  function Touch(s: Store, id: Id, ts: real): Store {
    s.(jobs := s.jobs[id := HashOf(s, id)], index := s.index[id := ts])
  }

  /** DEL and ZREM, for any number of jobs. */
  function Erase(s: Store, ids: set<Id>): Store {
    s.(jobs := s.jobs - ids, index := s.index - ids)
  }

  function UpdatedBefore(s: Store, cutoff: real): set<Id> {
    set id | id in s.index && s.index[id] <= cutoff
  }

  function Expired(s: Store, now: real): set<Id> {
    set id | id in s.timeouts && 0.0 <= s.timeouts[id] <= now
  }

  function AwaitingIn(s: Store, ids: set<Id>): set<Id> {
    set id | id in ids && StillAwaits(s, id)
  }

  /** Every job of `ids` written as failed, each at its own time, and none of `gone` tracked any more. */
  function TimedOut(s: Store, t: Ttls, ids: set<Id>, gone: set<Id>, when: Id -> real): Store {
    Store(
      map id | id in s.jobs ::
        if id in ids then Hash(Some(Failed), s.jobs[id].created, Some(when(id) + t.failed as real)) else s.jobs[id],
      map id | id in s.index.Keys + ids :: if id in ids then when(id) else s.index[id],
      s.timeouts - gone)
  }

  predicate StillAwaits(s: Store, id: Id) {
    id in s.jobs && s.jobs[id].status == Some(Awaiting)
  }

  /** The expired jobs the sweep fails, when the status writes of the jobs in `down` raise. */
  function Hit(s: Store, ids: set<Id>, down: set<Id>): set<Id> {
    AwaitingIn(s, ids) - down
  }

  /** Those whose deadline it removes: the failed ones and all that no longer await a decision. */
  function Off(s: Store, ids: set<Id>, down: set<Id>): set<Id> {
    ids - AwaitingIn(s, ids) * down
  }

  function Swept(s: Store, t: Ttls, ids: set<Id>, down: set<Id>, when: Id -> real): Store {
    TimedOut(s, t, Hit(s, ids, down), Off(s, ids, down), when)
  }

  // ---------------------------------------------------------------------------
  // The sweeps
  // ---------------------------------------------------------------------------

  /** What the retention sweep looks at: the index, or every job when the index yields nothing. */
  function Candidates(s: Store, cutoff: real): set<Id> {
    var aged := UpdatedBefore(s, cutoff);
    if aged == {} then s.jobs.Keys else aged
  }

  predicate Removable(s: Store, id: Id, cutoff: real) {
    id !in s.jobs
    || (Terminal(s.jobs[id].status) && s.jobs[id].created.At? && s.jobs[id].created.time < cutoff)
  }

  function Doomed(s: Store, cutoff: real): set<Id> {
    set id | id in Candidates(s, cutoff) && Removable(s, id, cutoff)
  }

  class JobService {
    const ttls: Ttls
    var jobs: map<Id, Hash>
    var index: map<Id, real>
    var timeouts: map<Id, real>

    function View(): Store
      reads this
    {
      Store(jobs, index, timeouts)
    }

    constructor (t: Ttls)
      ensures ttls == t && View() == Store(map[], map[], map[])
    {
      ttls, jobs, index, timeouts := t, map[], map[], map[];
    }

    method CreateJob(id: Id, status: Status, created: real, ts: real, at: real)
      modifies this
      ensures View() == Put(old(View()), ttls, id, status, Some(At(created)), ts, at)
      ensures id in jobs && jobs[id].status == Some(status) && jobs[id].created == At(created)
      ensures index == old(index)[id := ts]
      ensures forall other | other != id :: (other in jobs <==> other in old(jobs))
                && (other in jobs ==> jobs[other] == old(jobs)[other])
    {
      jobs := jobs[id := Hash(Some(status), At(created), Some(at + TtlFor(ttls, status) as real))];
      index := index[id := ts];
    }

    method UpdateJobStatus(id: Id, status: Status, ts: real, at: real)
      modifies this
      ensures View() == Put(old(View()), ttls, id, status, None, ts, at)
      ensures id in jobs && jobs[id].status == Some(status) && index == old(index)[id := ts]
      ensures jobs[id].created == if id in old(jobs) then old(jobs)[id].created else Absent
    {
      var made := if id in jobs then jobs[id].created else Absent;
      jobs := jobs[id := Hash(Some(status), made, Some(at + TtlFor(ttls, status) as real))];
      index := index[id := ts];
    }

    method AddPiiFindings(id: Id, ts: real)
      modifies this
      ensures View() == Touch(old(View()), id, ts)
      ensures index == old(index)[id := ts]
      ensures jobs == if id in old(jobs) then old(jobs) else old(jobs)[id := Hash(None, Absent, None)]
    {
      if id !in jobs {
        jobs := jobs[id := Hash(None, Absent, None)];
      } else {
        jobs := jobs[id := jobs[id]];
      }
      index := index[id := ts];
    }

    /** `works` tells whether the script runs; when it raises, the answer is the one for a missing job. */
    method CleanupOldJob(id: Id, works: bool) returns (existed: bool)
      modifies this
      ensures View() == if works then Erase(old(View()), {id}) else old(View())
      ensures existed == (works && id in old(jobs))
    {
      if !works {
        return false;
      }
      existed := id in jobs;
      jobs := jobs - {id};
      index := index - {id};
    }

    method AddToTimeoutTracking(id: Id, expiresAt: real)
      modifies this`timeouts
      ensures timeouts == old(timeouts)[id := expiresAt]
    {
      timeouts := timeouts[id := expiresAt];
    }

    /** The members of the timeout set with a score between 0 and `now`. */
    method GetExpiredTimeouts(now: real) returns (ids: set<Id>)
      ensures ids == Expired(View(), now)
    {
      ids := set id | id in timeouts && 0.0 <= timeouts[id] <= now;
    }

    /** The members of the index with a score at or below the cutoff. */
    method ListJobsUpdatedBefore(cutoff: real) returns (ids: set<Id>)
      ensures ids == UpdatedBefore(View(), cutoff)
    {
      ids := set id | id in index && index[id] <= cutoff;
    }

    method RemoveFromTimeoutTracking(id: Id) returns (removed: bool)
      modifies this`timeouts
      ensures timeouts == old(timeouts) - {id}
      ensures removed == (id in old(timeouts))
    {
      removed := id in timeouts;
      timeouts := timeouts - {id};
    }

    /** One expired job, with the jobs in `down` as above. */
    method ProcessExpiredJob(id: Id, when: Id -> real, down: set<Id>) returns (success: bool)
      modifies this
      ensures success == (StillAwaits(old(View()), id) && id !in down)
      ensures View() == Swept(old(View()), ttls, {id}, down, when)
    {
      SweptAlone(View(), ttls, id, down, when);
      hide Swept;
      if id !in jobs {
        var _ := RemoveFromTimeoutTracking(id);
        return false;
      }
      if jobs[id].status != Some(Awaiting) {
        var _ := RemoveFromTimeoutTracking(id);
        return false;
      }
      if id in down {
        return false;
      }
      UpdateJobStatus(id, Failed, when(id), when(id));
      var _ := RemoveFromTimeoutTracking(id);
      success := true;
    }

    /**
     The timeout sweep with nobody in between. It fails exactly the expired jobs still awaiting approval,
     returns their number, and leaves no deadline at or before `now` except those whose write raised.
     */
    method ProcessExpiredApprovals(now: real, when: Id -> real, down: set<Id>) returns (processed: nat)
      modifies this
      ensures var was := old(View());
              processed == |AwaitingIn(was, Expired(was, now)) - down|
              && View() == Swept(was, ttls, Expired(was, now), down, when)
              && Expired(View(), now) == AwaitingIn(was, Expired(was, now)) * down
    {
      hide Expired, AwaitingIn, Swept, StillAwaits;
      ghost var was := View();
      var todo := GetExpiredTimeouts(now);
      ghost var done: set<Id> := {};
      processed := 0;
      NothingSwept(was, ttls, down, when);
      while todo != {}
        invariant done + todo == Expired(was, now) && done * todo == {}
        invariant processed == |Hit(was, done, down)|
        invariant View() == Swept(was, ttls, done, down, when)
        decreases |todo|
      {
        var id :| id in todo;
        SweptOne(was, ttls, done, id, down, when);
        var success := ProcessExpiredJob(id, when, down);
        if success {
          processed := processed + 1;
        }
        todo := todo - {id};
        done := done + {id};
      }
      assert done == Expired(was, now);
      LeftExpired(was, ttls, now, down, when);
    }

    /**
     The retention sweep with nobody in between; cleaning up the files of the jobs in `down` raises, and so does
     the delete script for the jobs in `stuck`. It deletes exactly the removable candidates for which both work,
     from the hashes and from the index, and counts those of `stuck` as cleaned although they are still there.
     */
    method CleanupOldCompletedJobs(cutoff: real, down: set<Id>, stuck: set<Id>) returns (cleaned: nat, errors: nat)
      modifies this
      ensures var doomed := Doomed(old(View()), cutoff);
              View() == Erase(old(View()), doomed - down - stuck)
              && cleaned == |doomed - down| && errors == |doomed * down|
    {
      hide Removable, RemovableIn, Erase, UpdatedBefore;
      ghost var was := View();
      var todo := ListJobsUpdatedBefore(cutoff);
      if todo == {} {
        todo := jobs.Keys;
      }
      ghost var done: set<Id> := {};
      cleaned, errors := 0, 0;
      NothingErased(was, cutoff, down, stuck);
      while todo != {}
        invariant done + todo == Candidates(was, cutoff) && done * todo == {}
        invariant View() == Erase(was, RemovableIn(was, done, cutoff) - down - stuck)
        invariant cleaned == |RemovableIn(was, done, cutoff) - down|
        invariant errors == |RemovableIn(was, done, cutoff) * down|
        decreases |todo|
      {
        var id :| id in todo;
        ErasedOne(was, done, id, cutoff, down, stuck);
        var should := ShouldCleanupJob(id, cutoff);
        if should {
          if id in down {
            errors := errors + 1;
          } else {
            var _ := CleanupOldJob(id, id !in stuck);
            cleaned := cleaned + 1;
          }
        }
        todo := todo - {id};
        done := done + {id};
      }
      assert done == Candidates(was, cutoff);
      DoomedIs(was, cutoff);
    }

    method ShouldCleanupJob(id: Id, cutoff: real) returns (should: bool)
      ensures should <==> Removable(View(), id, cutoff)
    {
      if id !in jobs {
        return true;
      }
      if !Terminal(jobs[id].status) {
        return false;
      }
      match jobs[id].created {
        case At(time) => should := time < cutoff;
        case _ => should := false;
      }
    }
  }

  function RemovableIn(s: Store, ids: set<Id>, cutoff: real): set<Id> {
    set id | id in ids && Removable(s, id, cutoff)
  }

  /** What handling one expired job comes to. */
  lemma SweptAlone(s: Store, t: Ttls, id: Id, down: set<Id>, when: Id -> real)
    ensures Swept(s, t, {id}, down, when) ==
            if !StillAwaits(s, id) then s.(timeouts := s.timeouts - {id})
            else if id in down then s
            else Put(s, t, id, Failed, None, when(id), when(id)).(timeouts := s.timeouts - {id})
  {
    AwaitingOne(s, id);
    var x := Swept(s, t, {id}, down, when);
    assert s.timeouts - {} == s.timeouts;
    if StillAwaits(s, id) && id !in down {
      assert x.jobs == s.jobs[id := x.jobs[id]] && x.index == s.index[id := when(id)];
    } else {
      assert x.jobs == s.jobs && x.index == s.index;
    }
  }

  lemma DoomedIs(s: Store, cutoff: real)
    ensures RemovableIn(s, Candidates(s, cutoff), cutoff) == Doomed(s, cutoff)
  {
  }

  lemma NothingErased(s: Store, cutoff: real, down: set<Id>, stuck: set<Id>)
    ensures RemovableIn(s, {}, cutoff) == {} && Erase(s, {} - down - stuck) == s
  {
    assert s.jobs - {} == s.jobs && s.index - {} == s.index;
    assert {} - down - stuck == {};
  }

  /** One turn of the retention sweep. */
  lemma ErasedOne(s: Store, done: set<Id>, id: Id, cutoff: real, down: set<Id>, stuck: set<Id>)
    requires id !in done
    ensures var mid := Erase(s, RemovableIn(s, done, cutoff) - down - stuck);
            var before, after := RemovableIn(s, done, cutoff), RemovableIn(s, done + {id}, cutoff);
            if Removable(mid, id, cutoff) then
              if id in down then after - down == before - down && |after * down| == |before * down| + 1
              else (if id in stuck then mid else Erase(mid, {id})) == Erase(s, after - down - stuck)
                   && after * down == before * down && |after - down| == |before - down| + 1
            else after == before
  {
    hide Erase, Removable, RemovableIn;
    var before := RemovableIn(s, done, cutoff);
    RemovableGrows(s, done, id, cutoff);
    ErasedOthers(s, before - down - stuck, id, cutoff);
    SplitOne(before, id, down, stuck);
    ErasedTwice(s, before - down - stuck, id);
  }

  lemma ErasedOthers(s: Store, gone: set<Id>, id: Id, cutoff: real)
    ensures id !in gone ==> (Removable(Erase(s, gone), id, cutoff) <==> Removable(s, id, cutoff))
    ensures Erase(s, gone + {}) == Erase(s, gone)
  {
    assert gone + {} == gone;
  }

  lemma RemovableGrows(s: Store, done: set<Id>, id: Id, cutoff: real)
    requires id !in done
    ensures id !in RemovableIn(s, done, cutoff)
    ensures RemovableIn(s, done + {id}, cutoff)
            == RemovableIn(s, done, cutoff) + if Removable(s, id, cutoff) then {id} else {}
  {
  }

  lemma SplitOne(ids: set<Id>, id: Id, down: set<Id>, stuck: set<Id>)
    requires id !in ids
    ensures ids + {} == ids
    ensures id in down ==> (ids + {id}) - down == ids - down && |(ids + {id}) * down| == |ids * down| + 1
    ensures id !in down ==>
              (ids + {id}) * down == ids * down && |(ids + {id}) - down| == |ids - down| + 1
              && (ids + {id}) - down - stuck == (ids - down - stuck) + if id in stuck then {} else {id}
  {
    if id in down {
      assert (ids + {id}) * down == ids * down + {id};
      assert (ids + {id}) - down == ids - down;
    } else {
      assert (ids + {id}) - down == ids - down + {id};
      assert (ids + {id}) * down == ids * down;
    }
  }

  lemma ErasedTwice(s: Store, gone: set<Id>, id: Id)
    ensures Erase(Erase(s, gone), {id}) == Erase(s, gone + {id})
  {
    assert (s.jobs - gone) - {id} == s.jobs - (gone + {id});
    assert (s.index - gone) - {id} == s.index - (gone + {id});
  }

  lemma NothingSwept(s: Store, t: Ttls, down: set<Id>, when: Id -> real)
    ensures Swept(s, t, {}, down, when) == s && Hit(s, {}, down) == {}
  {
    assert AwaitingIn(s, {}) == {};
    assert s.timeouts - {} == s.timeouts;
    assert Swept(s, t, {}, down, when).jobs == s.jobs;
    assert Swept(s, t, {}, down, when).index == s.index;
  }

  /** One turn of the timeout sweep. */
  lemma SweptOne(s: Store, t: Ttls, done: set<Id>, id: Id, down: set<Id>, when: Id -> real)
    requires id !in done
    ensures var mid := Swept(s, t, done, down, when);
            Swept(mid, t, {id}, down, when) == Swept(s, t, done + {id}, down, when)
            && |Hit(s, done + {id}, down)|
               == |Hit(s, done, down)| + if StillAwaits(mid, id) && id !in down then 1 else 0
  {
    var mid := Swept(s, t, done, down, when);
    UntouchedAwaits(s, t, done, id, down, when);
    HitGrows(s, mid, done, id, down);
    TimedOutTwice(s, t, Hit(s, done, down), Hit(mid, {id}, down), Off(s, done, down), Off(mid, {id}, down), when);
    hide Hit, Off, TimedOut, StillAwaits;
  }

  lemma UntouchedAwaits(s: Store, t: Ttls, done: set<Id>, id: Id, down: set<Id>, when: Id -> real)
    requires id !in done
    ensures StillAwaits(Swept(s, t, done, down, when), id) == StillAwaits(s, id)
  {
    assert id !in Hit(s, done, down);
  }

  lemma HitGrows(s: Store, mid: Store, done: set<Id>, id: Id, down: set<Id>)
    requires id !in done && StillAwaits(mid, id) == StillAwaits(s, id)
    ensures Hit(s, done + {id}, down) == Hit(s, done, down) + Hit(mid, {id}, down)
    ensures Off(s, done + {id}, down) == Off(s, done, down) + Off(mid, {id}, down)
    ensures |Hit(s, done + {id}, down)|
            == |Hit(s, done, down)| + if StillAwaits(mid, id) && id !in down then 1 else 0
  {
    var one := if StillAwaits(s, id) then {id} else {};
    AwaitingGrows(s, done, id);
    AwaitingOne(mid, id);
    AwaitingAmong(s, done);
    hide StillAwaits, AwaitingIn;
    HitSets(AwaitingIn(s, done), one, id, down);
    OffGrows(AwaitingIn(s, done), one, done, id, down);
  }

  lemma HitSets(awaiting: set<Id>, one: set<Id>, id: Id, down: set<Id>)
    requires id !in awaiting && one <= {id}
    ensures (awaiting + one) - down == (awaiting - down) + (one - down)
    ensures |(awaiting + one) - down| == |awaiting - down| + if id in one && id !in down then 1 else 0
  {
    assert (awaiting + one) - down == (awaiting - down) + (one - down);
    assert one - down == if id in one && id !in down then {id} else {};
  }

  lemma AwaitingOne(s: Store, id: Id)
    ensures AwaitingIn(s, {id}) == if StillAwaits(s, id) then {id} else {}
  {
  }

  lemma AwaitingGrows(s: Store, ids: set<Id>, id: Id)
    ensures AwaitingIn(s, ids + {id}) == AwaitingIn(s, ids) + if StillAwaits(s, id) then {id} else {}
  {
  }

  lemma AwaitingAmong(s: Store, ids: set<Id>)
    ensures AwaitingIn(s, ids) <= ids
  {
  }

  lemma OffGrows(awaiting: set<Id>, one: set<Id>, done: set<Id>, id: Id, down: set<Id>)
    requires awaiting <= done && one <= {id} && id !in done
    ensures (done + {id}) - (awaiting + one) * down == (done - awaiting * down) + ({id} - one * down)
  {
  }

  lemma TimedOutTwice(s: Store, t: Ttls, a: set<Id>, b: set<Id>, g: set<Id>, h: set<Id>, when: Id -> real)
    ensures TimedOut(TimedOut(s, t, a, g, when), t, b, h, when) == TimedOut(s, t, a + b, g + h, when)
  {
    var x := TimedOut(TimedOut(s, t, a, g, when), t, b, h, when);
    var y := TimedOut(s, t, a + b, g + h, when);
    assert x.jobs == y.jobs;
    assert x.index == y.index;
    assert x.timeouts == y.timeouts;
  }

  lemma LeftExpired(s: Store, t: Ttls, now: real, down: set<Id>, when: Id -> real)
    ensures Expired(Swept(s, t, Expired(s, now), down, when), now) == AwaitingIn(s, Expired(s, now)) * down
  {
  }

  // ---------------------------------------------------------------------------
  // What the sweeps do to a job
  // ---------------------------------------------------------------------------

  /** A swept deadline is gone for good: a second sweep at the same time finds only what raised before. */
  lemma SecondSweepFindsNothing(s: Store, t: Ttls, now: real, when: Id -> real)
    ensures Expired(Swept(s, t, Expired(s, now), {}, when), now) == {}
    ensures forall id | id in s.jobs ::
              var x := Swept(s, t, Expired(s, now), {}, when);
              id in x.jobs && x.jobs[id].created == s.jobs[id].created
              && x.jobs[id].status == if id in Expired(s, now) && s.jobs[id].status == Some(Awaiting)
                                      then Some(Failed) else s.jobs[id].status
  {
    LeftExpired(s, t, now, {}, when);
  }

  /**
   An undisturbed retention sweep deletes a live job exactly when it is finished, known to be older than the
   cutoff, and either its own index entry is old or no entry is; every other job is untouched.
   */
  lemma RetentionKeepsActive(s: Store, cutoff: real, id: Id)
    requires id in s.jobs && id in s.index
    ensures var x := Erase(s, Doomed(s, cutoff));
            (id !in x.jobs <==>
               s.jobs[id].status in {Some(Completed), Some(Failed), Some(Denied)}
               && s.jobs[id].created.At? && s.jobs[id].created.time < cutoff
               && (s.index[id] <= cutoff || forall other | other in s.index :: s.index[other] > cutoff))
            && (id in x.jobs ==> x.jobs[id] == s.jobs[id])
  {
    if forall other | other in s.index :: s.index[other] > cutoff {
      assert UpdatedBefore(s, cutoff) == {};
    } else {
      var other :| other in s.index && s.index[other] <= cutoff;
      assert other in UpdatedBefore(s, cutoff);
    }
  }

  lemma RetentionClearsIndex(s: Store, cutoff: real, id: Id)
    requires id in s.index && s.index[id] <= cutoff && id !in s.jobs
    ensures id !in Erase(s, Doomed(s, cutoff)).index
  {
    assert id in UpdatedBefore(s, cutoff);
  }

  /**
   When the index holds nothing old, the sweep looks at every job and deletes a finished one that was created
   before the cutoff but updated after it; one unrelated old entry in the index spares it.
   */
  lemma FallbackReachesFurther(created: real, cutoff: real, updated: real, expires: real)
    requires created < cutoff < updated
    ensures var job := Hash(Some(Completed), At(created), Some(expires));
            var s := Store(map[1 := job], map[1 := updated], map[]);
            var u := s.(index := map[1 := updated, 2 := cutoff]);
            1 !in Erase(s, Doomed(s, cutoff)).jobs && 1 in Erase(u, Doomed(u, cutoff)).jobs
  {
    var s := Store(map[1 := Hash(Some(Completed), At(created), Some(expires))], map[1 := updated], map[]);
    var u := s.(index := map[1 := updated, 2 := cutoff]);
    assert UpdatedBefore(s, cutoff) == {};
    assert 2 in UpdatedBefore(u, cutoff);
  }

  // ---------------------------------------------------------------------------
  // Every run of writes, deletes and expiries
  // ---------------------------------------------------------------------------

  /**
   The commands on jobs. `Check` and `Remove` are the two halves of what a retention sweep, known by a number,
   does to one candidate: it reads the hash, and later, after other commands, deletes the job.
   */
  datatype Op =
    | Create(id: Id, status: Status, created: real, ts: real)
    | Update(id: Id, status: Status, ts: real)
    | Fields(id: Id, ts: real)
    | Delete(id: Id)
    | SetExpiration(id: Id, ttl: Seconds)
    | Lapse(id: Id)
    | Track(id: Id, deadline: real)
    | Untrack(id: Id)
    | Check(sweep: nat, id: Id, cutoff: real)
    | Remove(sweep: nat)

  /** `at` is when the command runs; a write carries the clock its caller read before. */
  datatype Step = Step(at: real, op: Op)

  /** When the latest write of a job ran, the clock its caller had read, and which step of the run it was. */
  datatype Stamp = Stamp(ts: real, at: real, number: nat)

  /** What a sweep saw of the job it is about to delete, and at which step of the run. */
  datatype Sight = Sight(id: Id, cutoff: real, found: Option<Hash>, number: nat)

  /** A deletion by a sweep: what it had seen, and what it deleted. */
  datatype Removal = Removal(seen: Sight, gone: Option<Hash>, written: Option<Stamp>)

  datatype World = World(
    store: Store,
    written: map<Id, Stamp>,
    sights: map<nat, Sight>,
    removals: seq<Removal>,
    number: nat)

  function Lookup<K, V>(m: map<K, V>, k: K): Option<V> {
    if k in m then Some(m[k]) else None
  }

  function Move(t: Ttls, v: World, step: Step): World {
    var w := v.(number := v.number + 1);
    match step.op
    case Create(id, status, created, ts) =>
      w.(store := Put(w.store, t, id, status, Some(At(created)), ts, step.at),
         written := w.written[id := Stamp(ts, step.at, v.number)])
    case Update(id, status, ts) =>
      w.(store := Put(w.store, t, id, status, None, ts, step.at),
         written := w.written[id := Stamp(ts, step.at, v.number)])
    case Fields(id, ts) =>
      w.(store := Touch(w.store, id, ts), written := w.written[id := Stamp(ts, step.at, v.number)])
    case Delete(id) => w.(store := Erase(w.store, {id}))
    case SetExpiration(id, ttl) =>
      if id in w.store.jobs
      then w.(store := w.store.(jobs := w.store.jobs[id := w.store.jobs[id].(expireAt := Some(step.at + ttl as real))]))
      else w
    case Lapse(id) =>
      if id in w.store.jobs && w.store.jobs[id].expireAt.Some? && step.at >= w.store.jobs[id].expireAt.value
      then w.(store := w.store.(jobs := w.store.jobs - {id}))
      else w
    case Track(id, deadline) => w.(store := w.store.(timeouts := w.store.timeouts[id := deadline]))
    case Untrack(id) => w.(store := w.store.(timeouts := w.store.timeouts - {id}))
    case Check(sweep, id, cutoff) =>
      if Removable(w.store, id, cutoff)
      then w.(sights := w.sights[sweep := Sight(id, cutoff, Lookup(w.store.jobs, id), v.number)])
      else w.(sights := w.sights - {sweep})
    case Remove(sweep) =>
      if sweep in w.sights then
        var seen := w.sights[sweep];
        w.(store := Erase(w.store, {seen.id}),
           sights := w.sights - {sweep},
           removals := w.removals + [Removal(seen, Lookup(w.store.jobs, seen.id), Lookup(w.written, seen.id))])
      else w
  }

  function Moves(t: Ttls, w: World, steps: seq<Step>): World
    decreases |steps|
  {
    if steps == [] then w else Moves(t, Move(t, w, steps[0]), steps[1..])
  }

  const Start := World(Store(map[], map[], map[]), map[], map[], [], 0)

  /** Every caller reads its clock before its command runs. */
  predicate ReadBefore(step: Step) {
    match step.op
    case Create(_, _, _, ts) => ts <= step.at
    case Update(_, _, ts) => ts <= step.at
    case Fields(_, ts) => ts <= step.at
    case _ => true
  }

  predicate AllReadBefore(steps: seq<Step>) {
    forall i | 0 <= i < |steps| :: ReadBefore(steps[i])
  }

  ghost predicate Indexed(w: World) {
    (forall id | id in w.store.jobs :: id in w.store.index && id in w.written && w.store.index[id] == w.written[id].ts)
    && (forall id | id in w.written :: w.written[id].ts <= w.written[id].at)
    && (forall id | id in w.store.jobs :: w.store.jobs[id].expireAt.None? ==> w.store.jobs[id].status.None?)
  }

  lemma MoveIndexed(t: Ttls, w: World, step: Step)
    requires Indexed(w) && ReadBefore(step)
    ensures Indexed(Move(t, w, step))
  {
    if step.op.Create? || step.op.Update? || step.op.Fields? {
      WriteIndexed(t, w, step);
    } else {
      OtherIndexed(t, w, step);
    }
  }

  lemma OtherIndexed(t: Ttls, w: World, step: Step)
    requires Indexed(w) && !step.op.Create? && !step.op.Update? && !step.op.Fields?
    ensures Indexed(Move(t, w, step))
  {
    if step.op.Lapse? || step.op.SetExpiration? {
      ExpiryIndexed(t, w, step);
    }
  }

  lemma ExpiryIndexed(t: Ttls, w: World, step: Step)
    requires Indexed(w) && (step.op.Lapse? || step.op.SetExpiration?)
    ensures Indexed(Move(t, w, step))
  {
    var x := Move(t, w, step);
    assert x.written == w.written && x.store.index == w.store.index;
  }

  lemma WriteIndexed(t: Ttls, w: World, step: Step)
    requires Indexed(w) && ReadBefore(step) && (step.op.Create? || step.op.Update? || step.op.Fields?)
    ensures Indexed(Move(t, w, step))
  {
  }

  lemma {:induction false} RunsIndexed(t: Ttls, w: World, steps: seq<Step>)
    requires Indexed(w) && AllReadBefore(steps)
    ensures Indexed(Moves(t, w, steps))
    decreases |steps|
  {
    hide Indexed, Move;
    if steps != [] {
      MoveIndexed(t, w, steps[0]);
      RunsIndexed(t, Move(t, w, steps[0]), steps[1..]);
    }
  }

  /**
   In every run every live job is in the index with the clock its last writer read, which is at most the time
   of that write. So the cutoff query finds a live job exactly when that clock is at or before the cutoff,
   and misses none whose last write ran by then.
   */
  lemma QueryFindsOldJobs(t: Ttls, steps: seq<Step>, id: Id, cutoff: real)
    requires AllReadBefore(steps) && id in Moves(t, Start, steps).store.jobs
    ensures var w := Moves(t, Start, steps);
            id in w.store.index && id in w.written
            && w.store.index[id] == w.written[id].ts <= w.written[id].at
            && (id in UpdatedBefore(w.store, cutoff) <==> w.written[id].ts <= cutoff)
            && (w.written[id].at <= cutoff ==> id in UpdatedBefore(w.store, cutoff))
  {
    RunsIndexed(t, Start, steps);
  }

  /** The deadline the latest command on the timeout set left for a job. */
  function Deadline(steps: seq<Step>, id: Id): Option<real> {
    if steps == [] then None
    else
      match steps[|steps| - 1].op
      case Track(i, deadline) => if i == id then Some(deadline) else Deadline(steps[..|steps| - 1], id)
      case Untrack(i) => if i == id then None else Deadline(steps[..|steps| - 1], id)
      case _ => Deadline(steps[..|steps| - 1], id)
  }

  lemma {:induction false} MovesSnoc(t: Ttls, w: World, steps: seq<Step>, s: Step)
    ensures Moves(t, w, steps + [s]) == Move(t, Moves(t, w, steps), s)
    decreases |steps|
  {
    hide Move;
    if steps == [] {
      assert (steps + [s])[1..] == [];
    } else {
      assert (steps + [s])[1..] == steps[1..] + [s];
      MovesSnoc(t, Move(t, w, steps[0]), steps[1..], s);
    }
  }

  /**
   In every run the range query of the timeout sweep finds exactly the jobs whose latest tracking command set a
   deadline between 0 and now and was not followed by a removal, whatever became of the jobs themselves.
   */
  lemma ExpiredExactly(t: Ttls, steps: seq<Step>, now: real, id: Id)
    ensures id in Expired(Moves(t, Start, steps).store, now)
            <==> Deadline(steps, id).Some? && 0.0 <= Deadline(steps, id).value <= now
  {
    hide Deadline, Moves;
    TrackedExactly(t, steps, id);
  }

  lemma MoveTracked(t: Ttls, w: World, s: Step, id: Id)
    ensures Lookup(Move(t, w, s).store.timeouts, id) ==
            match s.op
            case Track(i, deadline) => if i == id then Some(deadline) else Lookup(w.store.timeouts, id)
            case Untrack(i) => if i == id then None else Lookup(w.store.timeouts, id)
            case _ => Lookup(w.store.timeouts, id)
  {
  }

  lemma {:induction false} TrackedExactly(t: Ttls, steps: seq<Step>, id: Id)
    ensures Lookup(Moves(t, Start, steps).store.timeouts, id) == Deadline(steps, id)
    decreases |steps|
  {
    assert Moves(t, Start, []) == Start;
    hide Moves;
    if steps != [] {
      var before := steps[..|steps| - 1];
      var s := steps[|steps| - 1];
      assert before + [s] == steps;
      MovesSnoc(t, Start, before, s);
      MoveTracked(t, Moves(t, Start, before), s, id);
      hide Move;
      TrackedExactly(t, before, id);
    }
  }

  // ---------------------------------------------------------------------------
  // Sweeps beside everything else
  // ---------------------------------------------------------------------------

  /** What a sweep may hold on to: nothing, or a finished job known to be old. */
  predicate FoundRemovable(seen: Sight) {
    seen.found.None?
    || (Terminal(seen.found.value.status)
        && seen.found.value.created.At? && seen.found.value.created.time < seen.cutoff)
  }

  predicate WrittenSince(written: Option<Stamp>, seen: Sight) {
    written.Some? && written.value.number > seen.number
  }

  /** The job is as the sweep saw it, up to its expiry, or has vanished since. */
  predicate AsSeen(gone: Option<Hash>, seen: Sight) {
    gone.None?
    || (seen.found.Some?
        && gone.value.status == seen.found.value.status && gone.value.created == seen.found.value.created)
  }

  ghost predicate SightsOk(w: World) {
    (forall k | k in w.sights ::
       w.sights[k].number < w.number && FoundRemovable(w.sights[k])
       && (AsSeen(Lookup(w.store.jobs, w.sights[k].id), w.sights[k])
           || WrittenSince(Lookup(w.written, w.sights[k].id), w.sights[k])))
    && (forall i | 0 <= i < |w.removals| ::
          FoundRemovable(w.removals[i].seen)
          && (AsSeen(w.removals[i].gone, w.removals[i].seen)
              || WrittenSince(w.removals[i].written, w.removals[i].seen)))
  }

  lemma MoveSights(t: Ttls, w: World, step: Step)
    requires SightsOk(w)
    ensures SightsOk(Move(t, w, step))
  {
    var x := Move(t, w, step);
    if step.op.Remove? {
      RemoveSights(t, w, step);
    } else if step.op.Check? {
      CheckSights(t, w, step);
    } else {
      assert x.sights == w.sights && x.removals == w.removals;
    }
  }

  lemma RemoveSights(t: Ttls, w: World, step: Step)
    requires SightsOk(w) && step.op.Remove?
    ensures SightsOk(Move(t, w, step))
  {
  }

  lemma CheckSights(t: Ttls, w: World, step: Step)
    requires SightsOk(w) && step.op.Check?
    ensures SightsOk(Move(t, w, step))
  {
  }

  lemma {:induction false} RunsSights(t: Ttls, w: World, steps: seq<Step>)
    requires SightsOk(w)
    ensures SightsOk(Moves(t, w, steps))
    decreases |steps|
  {
    hide SightsOk, Move;
    if steps != [] {
      MoveSights(t, w, steps[0]);
      RunsSights(t, Move(t, w, steps[0]), steps[1..]);
    }
  }

  /** The deletion took a live job that was not finished and old. */
  predicate TookActive(r: Removal) {
    r.gone.Some?
    && !(Terminal(r.gone.value.status) && r.gone.value.created.At? && r.gone.value.created.time < r.seen.cutoff)
  }

  /**
   In every run of writes, deletes, expiries and any number of sweeps, every job a sweep deleted was missing, or
   finished and old, when that sweep checked it; and it took a job that was active only if the job had been
   written after the check.
   */
  lemma RemovedOnlyAsChecked(t: Ttls, steps: seq<Step>, i: nat)
    requires i < |Moves(t, Start, steps).removals|
    ensures var r := Moves(t, Start, steps).removals[i];
            FoundRemovable(r.seen) && (TookActive(r) ==> WrittenSince(r.written, r.seen))
  {
    RunsSights(t, Start, steps);
  }

  /** No write of this job. */
  predicate Unwritten(steps: seq<Step>, id: Id) {
    forall i | 0 <= i < |steps| ::
      match steps[i].op
      case Create(j, _, _, _) => j != id
      case Update(j, _, _) => j != id
      case Fields(j, _) => j != id
      case _ => true
  }

  /** The job is alive, and not one that a sweep with this cutoff would take. */
  predicate ActiveNow(s: Store, seen: Sight) {
    seen.id in s.jobs && !Removable(s, seen.id, seen.cutoff)
  }

  /** No deletion from number `n` on that goes back to this sight took an active job. */
  predicate TakesNoActive(w: World, n: nat, seen: Sight) {
    forall i | n <= i < |w.removals| :: w.removals[i].seen == seen ==> !TookActive(w.removals[i])
  }

  lemma MoveTakesNone(t: Ttls, w: World, step: Step, n: nat, seen: Sight)
    requires !ActiveNow(w.store, seen) && TakesNoActive(w, n, seen) && Unwritten([step], seen.id)
    ensures !ActiveNow(Move(t, w, step).store, seen) && TakesNoActive(Move(t, w, step), n, seen)
  {
    assert [step][0] == step;
  }

  lemma {:induction false} RunsTakeNone(t: Ttls, w: World, steps: seq<Step>, n: nat, seen: Sight)
    requires !ActiveNow(w.store, seen) && TakesNoActive(w, n, seen) && Unwritten(steps, seen.id)
    ensures TakesNoActive(Moves(t, w, steps), n, seen)
    decreases |steps|
  {
    hide ActiveNow, TakesNoActive, Move;
    if steps != [] {
      MoveTakesNone(t, w, steps[0], n, seen);
      RunsTakeNone(t, Move(t, w, steps[0]), steps[1..], n, seen);
    }
  }

  /**
   A sweep that holds a sight of a job takes no active job by it, in any continuation that does not write the job,
   if and only if the job is gone or finished and old now.
   */
  lemma TakesNoActiveIff(t: Ttls, w: World, sweep: nat)
    requires sweep in w.sights
    ensures var seen := w.sights[sweep];
            (forall steps | Unwritten(steps, seen.id) :: TakesNoActive(Moves(t, w, steps), |w.removals|, seen))
            <==> !ActiveNow(w.store, seen)
  {
    var seen := w.sights[sweep];
    if ActiveNow(w.store, seen) {
      var steps := [Step(0.0, Remove(sweep))];
      var x := Move(t, w, steps[0]);
      assert steps[1..] == [] && Moves(t, x, []) == x && Moves(t, w, steps) == x;
      assert x.removals[|w.removals|].seen == seen && TookActive(x.removals[|w.removals|]);
      assert Unwritten(steps, seen.id) && !TakesNoActive(x, |w.removals|, seen);
    } else {
      forall steps | Unwritten(steps, seen.id)
        ensures TakesNoActive(Moves(t, w, steps), |w.removals|, seen)
      {
        RunsTakeNone(t, w, steps, |w.removals|, seen);
      }
    }
  }

  /** A denied job that a token approval queues again between a sweep's check and its deletion is lost. */
  lemma ActiveJobRemoved(t: Ttls)
    ensures exists steps :: AllReadBefore(steps)
              && var w := Moves(t, Start, steps);
                 |w.removals| == 1 && TookActive(w.removals[0]) && w.removals[0].gone.value.status == Some(Queued)
                 && w.store.jobs == map[] && w.store.index == map[]
  {
    var s1 := [Step(0.0, Create(1, Denied, 0.0, 0.0))];
    var s2 := s1 + [Step(20.0, Check(0, 1, 10.0))];
    var s3 := s2 + [Step(20.0, Update(1, Queued, 20.0))];
    var s4 := s3 + [Step(20.0, Remove(0))];
    assert [] + s1 == s1 && Moves(t, Start, []) == Start;
    MovesSnoc(t, Start, [], s1[0]);
    MovesSnoc(t, Start, s1, Step(20.0, Check(0, 1, 10.0)));
    MovesSnoc(t, Start, s2, Step(20.0, Update(1, Queued, 20.0)));
    MovesSnoc(t, Start, s3, Step(20.0, Remove(0)));
    hide Moves;
    var w1 := Moves(t, Start, s1);
    assert w1.store.jobs.Keys == {1} && w1.store.index.Keys == {1};
    assert w1.store.jobs[1].status == Some(Denied) && w1.store.jobs[1].created == At(0.0) && w1.removals == [];
    CheckedThenRemoved(t, w1);
  }

  lemma CheckedThenRemoved(t: Ttls, w: World)
    requires w.store.jobs.Keys == {1} && w.store.index.Keys == {1} && w.removals == []
    requires w.store.jobs[1].status == Some(Denied) && w.store.jobs[1].created == At(0.0)
    ensures var x := Move(t, Move(t, w, Step(20.0, Check(0, 1, 10.0))), Step(20.0, Update(1, Queued, 20.0)));
            var y := Move(t, x, Step(20.0, Remove(0)));
            |y.removals| == 1 && TookActive(y.removals[0]) && y.removals[0].gone.value.status == Some(Queued)
            && y.store.jobs == map[] && y.store.index == map[]
  {
    var x := Move(t, Move(t, w, Step(20.0, Check(0, 1, 10.0))), Step(20.0, Update(1, Queued, 20.0)));
    assert 0 in x.sights && x.sights[0].id == 1 && x.store.jobs.Keys == {1} && x.store.index.Keys == {1};
  }

  /** Nothing but lapses and tracking touches the job, before time `until`, and no sweep deletes it. */
  predicate LeftAlone(steps: seq<Step>, id: Id, until: real) {
    forall i | 0 <= i < |steps| ::
      steps[i].at < until
      && match steps[i].op
         case Create(j, _, _, _) => j != id
         case Update(j, _, _) => j != id
         case Delete(j) => j != id
         case SetExpiration(j, _) => j != id
         case Remove(_) => false
         case _ => true
  }

  lemma {:induction false} LivesUntil(t: Ttls, w: World, id: Id, until: real, steps: seq<Step>)
    requires id in w.store.jobs && w.store.jobs[id].expireAt == Some(until) && LeftAlone(steps, id, until)
    ensures var x := Moves(t, w, steps);
            id in x.store.jobs && x.store.jobs[id].expireAt == Some(until)
            && x.store.jobs[id].status == w.store.jobs[id].status
    decreases |steps|
  {
    if steps != [] {
      var s := steps[0];
      assert s.at < until;
      LivesUntil(t, Move(t, w, s), id, until, steps[1..]);
    }
  }

  /**
   A status write gives the job the time to live of that status: it is there until then as long as nobody writes,
   expires or deletes it, and gone when its expiry runs then.
   */
  lemma LivesItsTtl(t: Ttls, w: World, id: Id, status: Status, ts: real, at: real, steps: seq<Step>, late: real)
    requires var ttl := if status == Completed then t.completed else if status == Failed then t.failed
                        else if status == Denied then t.denied else t.active;
             LeftAlone(steps, id, at + ttl as real) && late >= at + ttl as real
    ensures var x := Moves(t, Move(t, w, Step(at, Update(id, status, ts))), steps);
            id in x.store.jobs && x.store.jobs[id].status == Some(status)
            && id !in Move(t, x, Step(late, Lapse(id))).store.jobs
  {
    var y := Move(t, w, Step(at, Update(id, status, ts)));
    LivesUntil(t, y, id, at + TtlFor(t, status) as real, steps);
  }

  /** Anything but a write of a status, a deletion or a new expiry for this job, or for no job at all. */
  predicate Harmless(step: Step, id: Id) {
    match step.op
    case Create(i, _, _, _) => i != id
    case Update(i, _, _) => i != id
    case Delete(i) => i != id
    case SetExpiration(i, _) => i != id
    case _ => true
  }

  predicate AllHarmless(steps: seq<Step>, id: Id) {
    forall i | 0 <= i < |steps| :: Harmless(steps[i], id)
  }

  /** The job has a hash with no status and no expiry, and no sweep is about to delete it. */
  ghost predicate Undying(w: World, id: Id) {
    id in w.store.jobs && w.store.jobs[id] == Hash(None, Absent, None)
    && forall k | k in w.sights :: w.sights[k].id != id
  }

  /**
   Findings stored for a job that is gone bring back a hash with no status and no expiry. Unless a sweep is just
   then about to delete the job, no expiry, no further findings and no sweep, checking or deleting whatever it
   likes, ever remove it.
   */
  lemma FindingsReviveForGood(t: Ttls, w: World, id: Id, at: real, ts: real, steps: seq<Step>)
    requires id !in w.store.jobs && AllHarmless(steps, id) && forall k | k in w.sights :: w.sights[k].id != id
    ensures var x := Moves(t, Move(t, w, Step(at, Fields(id, ts))), steps);
            Undying(x, id) && forall cutoff :: id in Erase(x.store, Doomed(x.store, cutoff)).jobs
  {
    UndyingStays(t, Move(t, w, Step(at, Fields(id, ts))), steps, id);
  }

  lemma {:induction false} UndyingStays(t: Ttls, w: World, steps: seq<Step>, id: Id)
    requires Undying(w, id) && AllHarmless(steps, id)
    ensures Undying(Moves(t, w, steps), id)
    decreases |steps|
  {
    if steps != [] {
      assert Harmless(steps[0], id);
      UndyingStays(t, Move(t, w, steps[0]), steps[1..], id);
    }
  }

  // ---------------------------------------------------------------------------
  // The same service in the approval protocol
  // ---------------------------------------------------------------------------

  /** What the approval protocol sees of one job. */
  function OneJob(s: Store, id: Id): Approval.Job {
    Approval.Job(HashOf(s, id).status, id in s.timeouts, None, 0, true)
  }

  /**
   Handling one expired job does to that job what the sweep of the approval protocol does when it runs alone,
   or, when the status write raises, what that protocol's failing step does; and nothing to the others.
   */
  lemma SameSweep(s: Store, t: Ttls, id: Id, down: set<Id>, when: Id -> real, me: nat, other: Id)
    ensures var x := Swept(s, t, {id}, down, when);
            (id in down && StillAwaits(s, id) ==>
               OneJob(x, id) == OneJob(s, id) && Approval.Rescue(Approval.WriteTimedOut, false) == Approval.Finished)
            && (!(id in down && StillAwaits(s, id)) ==>
                  OneJob(x, id) == Approval.Alone(OneJob(s, id), me, Approval.ReadExpired))
            && (other != id ==> OneJob(x, other) == OneJob(s, other))
  {
    assert AwaitingIn(s, {id}) == if StillAwaits(s, id) then {id} else {};
  }
}
