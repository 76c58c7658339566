/**
 The sliding-window rate limiter of src/services/rate_limit_service.py over one Redis sorted set per key.
 The prune and count run as one transaction, the add and the expiry refresh as one command each, so checks
 interleave between them. `now` is read before the transaction runs.
 */
module RateLimit {
  import opened Text

  datatype Config = Config(limit: int, window: int)

  const SubmitPerIp := Config(35, 3600)
  const StatusPerIp := Config(100, 3600)
  const GlobalSubmit := Config(1000, 86400)

  // ---------------------------------------------------------------------------
  // The sorted set and its time to live
  // ---------------------------------------------------------------------------

  /** Members with their scores, and when the key expires; a key with no members does not exist. */
  datatype Key = Key(entries: map<nat, real>, expireAt: Option<real>)

  function ZRemRangeByScore(k: Key, low: real, high: real): Key {
    var left := map id | id in k.entries && !(low <= k.entries[id] <= high) :: k.entries[id];
    Key(left, if left == map[] then None else k.expireAt)
  }

  function ZAdd(k: Key, id: nat, score: real): Key {
    k.(entries := k.entries[id := score])
  }

  function Expire(k: Key, at: real, window: int): Key {
    if k.entries == map[] then k else k.(expireAt := Some(at + window as real))
  }

  function Prune(c: Config, k: Key, now: real): Key {
    ZRemRangeByScore(k, 0.0, now - c.window as real)
  }

  /** `int(...)` of a number that is not negative. */
  function RetryAfter(c: Config, oldest: real, now: real): int {
    var whole := (oldest + c.window as real - now).Floor;
    if whole < 1 then 1 else whole
  }

  predicate Oldest(k: Key, id: nat) {
    id in k.entries && forall other | other in k.entries :: k.entries[id] <= k.entries[other]
  }

  datatype Answer = Allowed | Retry(seconds: int)

  /** A check that nothing interrupts. */
  function Checked(c: Config, k: Key, id: nat, now: real, at: real): Key {
    var pruned := Prune(c, k, now);
    if |pruned.entries| < c.limit then Expire(ZAdd(pruned, id, now), at, c.window) else pruned
  }

  class RateKey {
    const config: Config
    var entries: map<nat, real>
    var expireAt: Option<real>

    function View(): Key
      reads this
    {
      Key(entries, expireAt)
    }

    constructor (c: Config)
      ensures config == c && View() == Key(map[], None)
    {
      config, entries, expireAt := c, map[], None;
    }

    method PruneAndCount(now: real) returns (count: nat)
      modifies this
      ensures View() == Prune(config, old(View()), now)
      ensures count == |entries|
    {
      var k := Prune(config, Key(entries, expireAt), now);
      entries, expireAt := k.entries, k.expireAt;
      count := |entries|;
    }

    method CheckRateLimit(id: nat, now: real, at: real) returns (r: Answer)
      modifies this
      ensures View() == Checked(config, old(View()), id, now, at)
      ensures r.Allowed? <==> |Prune(config, old(View()), now).entries| < config.limit
      ensures r.Allowed? ==> id in entries && entries[id] == now && expireAt == Some(at + config.window as real)
      ensures r.Retry? ==> View() == Prune(config, old(View()), now)
      ensures r.Retry? ==> if entries == map[] then r.seconds == config.window
              else exists first :: Oldest(View(), first) && r.seconds == RetryAfter(config, entries[first], now)
    {
      var count := PruneAndCount(now);
      if count < config.limit {
        entries := entries[id := now];
        expireAt := Some(at + config.window as real);
        return Allowed;
      }
      if entries == map[] {
        return Retry(config.window);
      }
      OldestExists(View());
      var first :| Oldest(View(), first);
      r := Retry(RetryAfter(config, entries[first], now));
    }

    method RemoveExpired(now: real)
      modifies this
      ensures View() == Prune(config, old(View()), now)
    {
      var k := Prune(config, Key(entries, expireAt), now);
      entries, expireAt := k.entries, k.expireAt;
    }

    /**
     The prune and the count are two commands; this is what they answer with nobody in between. The answer is
     the number of further checks that would pass at once.
     */
    method GetRemainingQuota(now: real) returns (remaining: int)
      modifies this
      ensures View() == Prune(config, old(View()), now)
      ensures remaining == Remaining(config, View())
      ensures config.limit >= 0 ==> 0 <= remaining <= config.limit
      ensures config.limit >= 0 && config.window > 0 ==>
                forall id: nat, n: nat | FreshFrom(View(), id) ::
                  CheckedTimes(config, View(), id, now, n).1 == if n < remaining then n else remaining
    {
      RemoveExpired(now);
      ghost var k := View();
      var current := |entries|;
      if config.limit >= 0 && config.window > 0 {
        forall id: nat, n: nat | FreshFrom(k, id)
          ensures CheckedTimes(config, k, id, now, n).1
                  == if n < Remaining(config, k) then n else Remaining(config, k)
        {
          QuotaIsRoom(config, k, id, now, n);
          PruneTwice(config, old(View()), now);
        }
      }
      var room := if config.limit - current < 0 then 0 else config.limit - current;
      remaining := if room < config.limit then room else config.limit;
    }
  }

  function Remaining(c: Config, k: Key): int {
    var room := if c.limit - |k.entries| < 0 then 0 else c.limit - |k.entries|;
    if room < c.limit then room else c.limit
  }

  lemma {:induction false} OldestExists(k: Key)
    requires k.entries != map[]
    ensures exists id :: Oldest(k, id)
    decreases |k.entries|
  {
    var id :| id in k.entries;
    var rest := k.(entries := k.entries - {id});
    if rest.entries == map[] {
      assert forall other | other in k.entries :: other == id || other in rest.entries;
      assert Oldest(k, id);
    } else {
      assert rest.entries.Keys == k.entries.Keys - {id};
      assert |rest.entries.Keys| < |k.entries.Keys|;
      OldestExists(rest);
      var first :| Oldest(rest, first);
      assert forall other | other in k.entries :: other == id || other in rest.entries;
      assert Oldest(k, if k.entries[id] < k.entries[first] then id else first);
    }
  }

  /** The entries younger than `seconds`, and any that lie before the clock's zero, which no prune reaches. */
  function InWindow(k: Key, now: real, seconds: real): set<nat> {
    set id | id in k.entries && (k.entries[id] > now - seconds || k.entries[id] < 0.0)
  }

  lemma PruneIs(c: Config, k: Key, now: real)
    ensures Prune(c, k, now).entries.Keys == InWindow(k, now, c.window as real)
    ensures |Prune(c, k, now).entries| == |InWindow(k, now, c.window as real)|
    ensures forall id | id in Prune(c, k, now).entries :: Prune(c, k, now).entries[id] == k.entries[id]
  {
    assert |Prune(c, k, now).entries| == |Prune(c, k, now).entries.Keys|;
  }

  /** A submission passes the per-address check and then the global one. */
  method CheckSubmitRateLimit(ip: RateKey, global: RateKey, id: nat, now: real, at: real, now2: real, at2: real)
    returns (r: Answer)
    requires ip != global && ip.config == SubmitPerIp && global.config == GlobalSubmit
    modifies ip, global
    ensures ip.View() == Checked(SubmitPerIp, old(ip.View()), id, now, at)
    ensures var ipAllows := |InWindow(old(ip.View()), now, 3600.0)| < 35;
            var allAllow := |InWindow(old(global.View()), now2, 86400.0)| < 1000;
            (r.Allowed? <==> ipAllows && allAllow)
            && global.View() == if ipAllows then Checked(GlobalSubmit, old(global.View()), id, now2, at2)
                                else old(global.View())
  {
    PruneIs(SubmitPerIp, ip.View(), now);
    PruneIs(GlobalSubmit, global.View(), now2);
    r := ip.CheckRateLimit(id, now, at);
    if r.Retry? {
      return;
    }
    r := global.CheckRateLimit(id, now2, at2);
  }

  /** A status query passes its address's check alone. */
  method CheckStatusRateLimit(ip: RateKey, id: nat, now: real, at: real) returns (r: Answer)
    requires ip.config == StatusPerIp
    modifies ip
    ensures ip.View() == Checked(StatusPerIp, old(ip.View()), id, now, at)
    ensures r.Allowed? <==> |InWindow(old(ip.View()), now, 3600.0)| < 100
  {
    PruneIs(StatusPerIp, ip.View(), now);
    r := ip.CheckRateLimit(id, now, at);
  }

  /** A submission that the global limit refuses has still used up one of its address's places. */
  lemma GlobalRefusalSpendsQuota(ip: Key, global: Key, id: nat, now: real, at: real)
    requires |Prune(SubmitPerIp, ip, now).entries| < 35 && id !in ip.entries
    requires |Prune(GlobalSubmit, global, now).entries| >= 1000 && now >= 0.0
    ensures Remaining(SubmitPerIp, Prune(SubmitPerIp, Checked(SubmitPerIp, ip, id, now, at), now))
            == Remaining(SubmitPerIp, Prune(SubmitPerIp, ip, now)) - 1
    ensures Checked(GlobalSubmit, global, id, now, at) == Prune(GlobalSubmit, global, now)
  {
    AddedStays(SubmitPerIp, ip, id, now, at);
  }

  lemma AddedStays(c: Config, k: Key, id: nat, now: real, at: real)
    requires |Prune(c, k, now).entries| < c.limit && id !in k.entries && c.window > 0
    ensures Prune(c, Checked(c, k, id, now, at), now).entries == Prune(c, k, now).entries[id := now]
    ensures |Prune(c, Checked(c, k, id, now, at), now).entries| == |Prune(c, k, now).entries| + 1
  {
    AddedKept(c, k, id, now, at);
    assert id !in Prune(c, k, now).entries;
    hide Prune, Checked;
    OneMore(Prune(c, k, now).entries, id, now);
  }

  lemma AddedKept(c: Config, k: Key, id: nat, now: real, at: real)
    requires |Prune(c, k, now).entries| < c.limit && id !in k.entries && c.window > 0
    ensures Prune(c, Checked(c, k, id, now, at), now).entries == Prune(c, k, now).entries[id := now]
  {
  }

  lemma OneMore(entries: map<nat, real>, id: nat, score: real)
    requires id !in entries
    ensures |entries[id := score]| == |entries| + 1
  {
    assert (entries[id := score]).Keys == entries.Keys + {id};
  }

  // ---------------------------------------------------------------------------
  // What the quota and the retry hint promise
  // ---------------------------------------------------------------------------

  function CheckedTimes(c: Config, k: Key, id: nat, now: real, n: nat): (r: (Key, nat))
    decreases n
  {
    if n == 0 then (k, 0)
    else
      var rest := CheckedTimes(c, Checked(c, k, id, now, now), id + 1, now, n - 1);
      (rest.0, rest.1 + if |Prune(c, k, now).entries| < c.limit then 1 else 0)
  }

  predicate FreshFrom(k: Key, id: nat) {
    forall e | e in k.entries :: e < id
  }

  lemma PruneTwice(c: Config, k: Key, now: real)
    ensures Prune(c, Prune(c, k, now), now).entries == Prune(c, k, now).entries
  {
  }

  lemma FreshNext(c: Config, k: Key, id: nat, now: real)
    requires FreshFrom(k, id)
    ensures FreshFrom(Checked(c, k, id, now, now), id + 1)
  {
  }

  lemma NextRoom(c: Config, k: Key, id: nat, now: real)
    requires c.limit >= 0 && c.window > 0 && FreshFrom(k, id)
    ensures var before := |Prune(c, k, now).entries|;
            |Prune(c, Checked(c, k, id, now, now), now).entries| == if before < c.limit then before + 1 else before
  {
    if |Prune(c, k, now).entries| < c.limit {
      AddedStays(c, k, id, now, now);
    } else {
      PruneTwice(c, k, now);
    }
  }

  /** Of any number of checks made at once, exactly as many pass as the quota says remain. */
  lemma {:induction false} QuotaIsRoom(c: Config, k: Key, id: nat, now: real, n: nat)
    requires c.limit >= 0 && c.window > 0 && FreshFrom(k, id)
    ensures CheckedTimes(c, k, id, now, n).1 ==
            var room := Remaining(c, Prune(c, k, now)); if n < room then n else room
    decreases n
  {
    if n > 0 {
      var next := Checked(c, k, id, now, now);
      FreshNext(c, k, id, now);
      hide Prune, Checked, FreshFrom;
      QuotaIsRoom(c, next, id + 1, now, n - 1);
      NextRoom(c, k, id, now);
    }
  }

  /** A count read later, with entries that have since left the window, can only say less than would pass. */
  lemma QuotaNeverOverstates(c: Config, k: Key, id: nat, now: real, n: nat)
    requires c.limit >= 0 && c.window > 0 && FreshFrom(k, id) && n <= Remaining(c, k)
    ensures CheckedTimes(c, k, id, now, n).1 == n
  {
    QuotaIsRoom(c, k, id, now, n);
    var left := Prune(c, k, now).entries;
    SubsetSize(left.Keys, k.entries.Keys);
    assert |left| == |left.Keys| && |k.entries| == |k.entries.Keys|;
  }

  /**
   After the time a refusal names, the oldest entry has left the window exactly when its remaining life was
   a whole number of seconds or under one: the hint is rounded down.
   */
  lemma RetryMayBeEarly(c: Config, k: Key, first: nat, now: real)
    requires Oldest(k, first) && 0.0 <= k.entries[first] && now - c.window as real < k.entries[first]
    ensures var life := k.entries[first] + c.window as real - now;
            first !in Prune(c, k, now + RetryAfter(c, k.entries[first], now) as real).entries
            <==> life <= 1.0 || life == life.Floor as real
  {
  }

  // ---------------------------------------------------------------------------
  // Any number of checks at once
  // ---------------------------------------------------------------------------

  /**
   `admitted` holds every check ever counted below the limit, with its score; `pending` those not yet added
   and `unrefreshed` those added whose expiry refresh has not run. `highest` is the latest time at which
   anything was dropped and `clock` the time of the latest step.
   */
  datatype Limiter = Limiter(
    key: Key,
    pending: set<nat>,
    unrefreshed: set<nat>,
    admitted: map<nat, real>,
    highest: real,
    clock: real)

  datatype Op =
    | Count(id: nat, now: real)
    | Add(id: nat)
    | Refresh(id: nat)
    | Quota(now: real)
    | Lapse

  datatype Step = Step(at: real, op: Op)

  function Later(a: real, b: real): real {
    if a < b then b else a
  }

  function Move(c: Config, l: Limiter, s: Step): Limiter {
    var m := l.(clock := s.at);
    match s.op
    case Count(id, now) =>
      var key := Prune(c, l.key, now);
      var n := m.(key := key, highest := Later(l.highest, now));
      if |key.entries| < c.limit then n.(pending := l.pending + {id}, admitted := l.admitted[id := now]) else n
    case Add(id) =>
      if id in l.pending && id in l.admitted
      then m.(key := ZAdd(l.key, id, l.admitted[id]), pending := l.pending - {id}, unrefreshed := l.unrefreshed + {id})
      else m
    case Refresh(id) =>
      if id in l.unrefreshed
      then m.(key := Expire(l.key, s.at, c.window), unrefreshed := l.unrefreshed - {id})
      else m
    case Quota(now) => m.(key := Prune(c, l.key, now), highest := Later(l.highest, now))
    case Lapse =>
      if l.key.expireAt.Some? && s.at >= l.key.expireAt.value
      then m.(key := Key(map[], None), highest := Later(l.highest, s.at))
      else m
  }

  /**
   What the bound needs of a step: one clock for all, new members, at most `k` checks between their count
   and their add, at most `skew` between a check's reading of the clock and the latest time anything was
   dropped at, and no key expiry between an add and its refresh.
   */
  predicate Orderly(c: Config, k: nat, skew: real, l: Limiter, s: Step) {
    l.clock <= s.at
    && match s.op
       case Count(id, now) =>
         id !in l.admitted && 0.0 <= now <= s.at && now >= l.highest - skew
         && (|Prune(c, l.key, now).entries| < c.limit ==> |l.pending| < k)
       case Quota(now) => now <= s.at
       case Lapse => l.unrefreshed == {}
       case _ => true
  }

  predicate AllOrderly(c: Config, k: nat, skew: real, l: Limiter, steps: seq<Step>)
    decreases |steps|
  {
    steps == [] || (Orderly(c, k, skew, l, steps[0]) && AllOrderly(c, k, skew, Move(c, l, steps[0]), steps[1..]))
  }

  function Moves(c: Config, l: Limiter, steps: seq<Step>): Limiter
    decreases |steps|
  {
    if steps == [] then l else Moves(c, Move(c, l, steps[0]), steps[1..])
  }

  const Start := Limiter(Key(map[], None), {}, {}, map[], 0.0, 0.0)

  /** A check that nothing interrupts is a run of its three commands, or of the first when it is refused. */
  lemma CheckIsARun(c: Config, l: Limiter, id: nat, now: real, at: real)
    requires id !in l.pending && id !in l.unrefreshed
    ensures var steps := [Step(at, Count(id, now)), Step(at, Add(id)), Step(at, Refresh(id))];
            var m := Moves(c, l, steps);
            m.key == Checked(c, l.key, id, now, at)
            && m.pending == l.pending && m.unrefreshed == l.unrefreshed
            && m.admitted == if |Prune(c, l.key, now).entries| < c.limit then l.admitted[id := now] else l.admitted
  {
    var s1, s2, s3 := Step(at, Count(id, now)), Step(at, Add(id)), Step(at, Refresh(id));
    MovesThree(c, l, s1, s2, s3);
    hide Moves, Prune;
    var l1 := Move(c, l, s1);
    var l2 := Move(c, l1, s2);
    if |l1.key.entries| < c.limit {
      assert l1.pending - {id} == l.pending && l2.unrefreshed - {id} == l.unrefreshed;
      assert id in l2.key.entries;
    }
  }

  lemma MovesThree(c: Config, l: Limiter, s1: Step, s2: Step, s3: Step)
    ensures Moves(c, l, [s1, s2, s3]) == Move(c, Move(c, Move(c, l, s1), s2), s3)
  {
    hide Move;
    var l1 := Move(c, l, s1);
    var l2 := Move(c, l1, s2);
    assert [s1, s2, s3][1..] == [s2, s3] && [s2, s3][1..] == [s3] && [s3][1..] == [];
    assert Moves(c, l2, [s3]) == Moves(c, Move(c, l2, s3), []);
    assert Moves(c, l1, [s2, s3]) == Moves(c, l2, [s3]);
  }

  /** The checks admitted with a score in `(t - width, t]`. */
  function Within(admitted: map<nat, real>, t: real, width: real): set<nat> {
    set id | id in admitted && t - width < admitted[id] <= t
  }

  /** Whatever was admitted is in the set, or on its way there, or left every window that is still open. */
  ghost predicate Covered(c: Config, l: Limiter) {
    (forall id | id in l.key.entries :: id in l.admitted && l.key.entries[id] == l.admitted[id])
    && (forall id | id in l.pending :: id in l.admitted)
    && (forall id | id in l.admitted :: 0.0 <= l.admitted[id] <= l.clock)
    && (forall id | id in l.admitted ::
          id in l.key.entries || id in l.pending || l.admitted[id] <= l.highest - c.window as real)
  }

  /** The time to live outlasts every entry that was refreshed. */
  ghost predicate Outlived(c: Config, l: Limiter) {
    (l.key.entries == map[] ==> l.key.expireAt.None?)
    && (l.key.expireAt.Some? ==>
          forall id | id in l.key.entries && id !in l.unrefreshed ::
            l.key.entries[id] <= l.key.expireAt.value - c.window as real)
    && (l.key.expireAt.None? ==> forall id | id in l.key.entries :: id in l.unrefreshed)
  }

  predicate InBound(c: Config, k: nat, skew: real, admitted: map<nat, real>, t: real) {
    |Within(admitted, t, c.window as real - skew)| <= Ceiling(c, k)
  }

  ghost predicate Bounded(c: Config, k: nat, skew: real, admitted: map<nat, real>) {
    forall t :: InBound(c, k, skew, admitted, t)
  }

  function Ceiling(c: Config, k: nat): nat {
    if c.limit >= 1 && k >= 1 then c.limit + k - 1 else 0
  }

  lemma SubsetSize(a: set<nat>, b: set<nat>)
    requires a <= b
    ensures |a| <= |b|
  {
    assert b == a + (b - a);
  }

  lemma CountBounded(c: Config, k: nat, skew: real, l: Limiter, id: nat, now: real, at: real, t: real)
    requires Covered(c, l) && skew >= 0.0 && Orderly(c, k, skew, l, Step(at, Count(id, now)))
    requires InBound(c, k, skew, l.admitted, t)
    ensures InBound(c, k, skew, Move(c, l, Step(at, Count(id, now))).admitted, t)
  {
    var m := Move(c, l, Step(at, Count(id, now)));
    var width := c.window as real - skew;
    var inside := Within(m.admitted, t, width);
    if |m.key.entries| < c.limit {
      if id in inside {
        InsideIsKnown(c, k, skew, l, id, now, at, t);
        SubsetSize(inside, m.key.entries.Keys + m.pending);
        SumSize(m.key.entries.Keys, l.pending, id);
        assert |m.key.entries| == |m.key.entries.Keys|;
      } else {
        assert inside == Within(l.admitted, t, width);
      }
    }
  }

  lemma SumSize(a: set<nat>, b: set<nat>, id: nat)
    ensures |a + (b + {id})| <= |a| + |b| + 1
  {
    assert a + (b + {id}) == a + b + {id};
    assert |a + b| <= |a| + |b|;
  }

  /** Nothing still inside the new check's interval was dropped before it counted. */
  lemma InsideIsKnown(c: Config, k: nat, skew: real, l: Limiter, id: nat, now: real, at: real, t: real)
    requires Covered(c, l) && skew >= 0.0 && Orderly(c, k, skew, l, Step(at, Count(id, now)))
    requires |Prune(c, l.key, now).entries| < c.limit && t - (c.window as real - skew) < now <= t
    ensures var m := Move(c, l, Step(at, Count(id, now)));
            Within(m.admitted, t, c.window as real - skew) <= m.key.entries.Keys + m.pending
  {
    var m := Move(c, l, Step(at, Count(id, now)));
    forall e | e in Within(m.admitted, t, c.window as real - skew)
      ensures e in m.key.entries.Keys + m.pending
    {
      if e != id {
        assert l.admitted[e] > t - c.window as real + skew;
      }
    }
  }

  lemma MoveBounded(c: Config, k: nat, skew: real, l: Limiter, s: Step)
    requires Covered(c, l) && skew >= 0.0 && Orderly(c, k, skew, l, s) && Bounded(c, k, skew, l.admitted)
    ensures Bounded(c, k, skew, Move(c, l, s).admitted)
  {
    hide InBound, Covered;
    if s.op.Count? {
      forall t: real
        ensures InBound(c, k, skew, Move(c, l, s).admitted, t)
      {
        CountBounded(c, k, skew, l, s.op.id, s.op.now, s.at, t);
      }
    }
  }

  lemma MoveCovered(c: Config, k: nat, skew: real, l: Limiter, s: Step)
    requires Covered(c, l) && Outlived(c, l) && Orderly(c, k, skew, l, s)
    ensures Covered(c, Move(c, l, s))
  {
    hide Outlived;
    if s.op.Count? {
      CountCovered(c, k, skew, l, s);
    } else if s.op.Lapse? {
      LapseCovered(c, k, skew, l, s);
    }
  }

  lemma CountCovered(c: Config, k: nat, skew: real, l: Limiter, s: Step)
    requires Covered(c, l) && Orderly(c, k, skew, l, s) && s.op.Count?
    ensures Covered(c, Move(c, l, s))
  {
  }

  lemma LapseCovered(c: Config, k: nat, skew: real, l: Limiter, s: Step)
    requires Covered(c, l) && Outlived(c, l) && Orderly(c, k, skew, l, s) && s.op.Lapse?
    ensures Covered(c, Move(c, l, s))
  {
  }

  lemma MoveOutlived(c: Config, k: nat, skew: real, l: Limiter, s: Step)
    requires Covered(c, l) && Outlived(c, l) && Orderly(c, k, skew, l, s)
    ensures Outlived(c, Move(c, l, s))
  {
  }

  lemma {:induction false} MovesKeep(c: Config, k: nat, skew: real, l: Limiter, steps: seq<Step>)
    requires Covered(c, l) && Outlived(c, l) && Bounded(c, k, skew, l.admitted)
    requires skew >= 0.0 && AllOrderly(c, k, skew, l, steps)
    ensures var m := Moves(c, l, steps); Covered(c, m) && Outlived(c, m) && Bounded(c, k, skew, m.admitted)
    decreases |steps|
  {
    hide Covered, Outlived, Bounded, Move, Orderly;
    if steps != [] {
      MoveCovered(c, k, skew, l, steps[0]);
      MoveOutlived(c, k, skew, l, steps[0]);
      MoveBounded(c, k, skew, l, steps[0]);
      MovesKeep(c, k, skew, Move(c, l, steps[0]), steps[1..]);
    }
  }

  lemma StartBounded(c: Config, k: nat, skew: real)
    ensures Bounded(c, k, skew, Start.admitted) && Covered(c, Start) && Outlived(c, Start)
  {
    forall t: real
      ensures InBound(c, k, skew, Start.admitted, t)
    {
      assert Within(Start.admitted, t, c.window as real - skew) == {};
    }
  }

  /**
   In every orderly run, every interval of the window's width less the skew holds at most
   `limit + k - 1` admissions.
   */
  lemma SlidingWindow(c: Config, k: nat, skew: real, steps: seq<Step>, t: real)
    requires skew >= 0.0 && AllOrderly(c, k, skew, Start, steps)
    ensures |Within(Moves(c, Start, steps).admitted, t, c.window as real - skew)| <= Ceiling(c, k)
  {
    hide Covered, Outlived, AllOrderly, Moves, Within, Ceiling;
    StartBounded(c, k, skew);
    MovesKeep(c, k, skew, Start, steps);
    assert InBound(c, k, skew, Moves(c, Start, steps).admitted, t);
  }

  /** With one check at a time and a clock read in order, no window ever holds more than the limit. */
  lemma ExactLimit(c: Config, steps: seq<Step>, t: real)
    requires c.limit >= 1 && AllOrderly(c, 1, 0.0, Start, steps)
    ensures |Within(Moves(c, Start, steps).admitted, t, c.window as real)| <= c.limit
  {
    hide AllOrderly, Moves, Within;
    SlidingWindow(c, 1, 0.0, steps, t);
  }

  /** The expiry of the key, refreshed on every add, never drops an entry that is still in the window. */
  lemma LapseDropsOnlyDead(c: Config, k: nat, skew: real, steps: seq<Step>, at: real, id: nat)
    requires skew >= 0.0 && AllOrderly(c, k, skew, Start, steps)
    requires var l := Moves(c, Start, steps);
             l.key.expireAt.Some? && at >= l.key.expireAt.value && id in l.key.entries && id !in l.unrefreshed
    ensures id !in Prune(c, Moves(c, Start, steps).key, at).entries
  {
    StartBounded(c, k, skew);
    MovesKeep(c, k, skew, Start, steps);
  }

  // ---------------------------------------------------------------------------
  // The bound is met, and each assumption is needed
  // ---------------------------------------------------------------------------

  lemma {:induction false} MovesSnoc(c: Config, k: nat, skew: real, l: Limiter, steps: seq<Step>, s: Step)
    ensures Moves(c, l, steps + [s]) == Move(c, Moves(c, l, steps), s)
    ensures AllOrderly(c, k, skew, l, steps + [s])
            <==> AllOrderly(c, k, skew, l, steps) && Orderly(c, k, skew, Moves(c, l, steps), s)
    decreases |steps|
  {
    hide Move, Orderly;
    if steps == [] {
      assert (steps + [s])[1..] == [];
    } else {
      assert (steps + [s])[1..] == steps[1..] + [s];
      MovesSnoc(c, k, skew, Move(c, l, steps[0]), steps[1..], s);
    }
  }

  function Ones(n: nat): map<nat, real> {
    if n == 0 then map[] else Ones(n - 1)[n - 1 := 1.0]
  }

  /** `n` checks at one moment, each added before the next. */
  lemma {:induction false} OneByOne(c: Config, k: nat, n: nat) returns (steps: seq<Step>)
    requires n < c.limit && k >= 1 && c.window > 0
    ensures AllOrderly(c, k, 0.0, Start, steps)
    ensures Alone(Moves(c, Start, steps), n)
    decreases n
  {
    if n == 0 {
      steps := [];
    } else {
      hide AllOrderly, Moves, Alone, Move, Orderly;
      var before := OneByOne(c, k, n - 1);
      var l := Moves(c, Start, before);
      var count := Step(1.0, Count(n - 1, 1.0));
      var add := Step(1.0, Add(n - 1));
      steps := before + [count] + [add];
      CountAndAdd(c, k, l, n - 1);
      MovesSnoc(c, k, 0.0, Start, before, count);
      MovesSnoc(c, k, 0.0, Start, before + [count], add);
    }
  }

  /** The first `n` checks have been added and nothing is under way. */
  ghost predicate Alone(l: Limiter, n: nat) {
    l.key.entries == Ones(n) == l.admitted && l.pending == {} && l.clock <= 1.0 && l.highest <= 1.0
  }

  lemma CountAndAdd(c: Config, k: nat, l: Limiter, n: nat)
    requires Alone(l, n) && n < c.limit && k >= 1 && c.window > 0
    ensures var count, add := Step(1.0, Count(n, 1.0)), Step(1.0, Add(n));
            Orderly(c, k, 0.0, l, count) && Orderly(c, k, 0.0, Move(c, l, count), add)
            && Alone(Move(c, Move(c, l, count), add), n + 1)
  {
    OnesNext(n);
    OnesStep(n);
    PruneOnes(c, l.key, n);
    hide Ones, Prune;
    var m := Move(c, l, Step(1.0, Count(n, 1.0)));
    assert m.pending == {n} && m.admitted == Ones(n)[n := 1.0];
    assert {n} - {n} == {};
  }

  lemma OnesNext(n: nat)
    ensures |Ones(n)| == n && forall id | id in Ones(n) :: id < n && Ones(n)[id] == 1.0
    decreases n
  {
    if n > 0 {
      OnesNext(n - 1);
      assert Ones(n).Keys == Ones(n - 1).Keys + {n - 1};
      assert |Ones(n).Keys| == n;
    }
  }

  lemma PruneOnes(c: Config, k: Key, n: nat)
    requires k.entries == Ones(n) && c.window > 0
    ensures Prune(c, k, 1.0).entries == Ones(n) && |Ones(n)| == n
  {
    OnesNext(n);
  }

  /** The set holds `limit - 1` entries and `n` more checks have counted and not added. */
  ghost predicate Crowd(c: Config, l: Limiter, n: nat) {
    c.limit >= 1
    && l.key.entries == Ones(c.limit - 1) && l.admitted == Ones(c.limit - 1 + n)
    && |l.pending| == n && l.clock <= 1.0 && l.highest <= 1.0
    && forall id | id in l.pending :: id < c.limit - 1 + n
  }

  /** Then `k` checks at the same moment that all count before any of them adds. */
  lemma {:induction false} AllAtOnce(c: Config, k: nat, n: nat) returns (steps: seq<Step>)
    requires 1 <= c.limit && n <= k && 1 <= k && c.window > 0
    ensures AllOrderly(c, k, 0.0, Start, steps) && Crowd(c, Moves(c, Start, steps), n)
    decreases n
  {
    if n == 0 {
      hide AllOrderly, Moves, Ones, Move, Orderly;
      steps := OneByOne(c, k, c.limit - 1);
    } else {
      hide AllOrderly, Moves, Crowd, Move, Orderly;
      var before := AllAtOnce(c, k, n - 1);
      var count := Step(1.0, Count(c.limit - 1 + n - 1, 1.0));
      steps := before + [count];
      CountBeside(c, k, Moves(c, Start, before), n - 1);
      MovesSnoc(c, k, 0.0, Start, before, count);
    }
  }

  lemma CountBeside(c: Config, k: nat, l: Limiter, n: nat)
    requires Crowd(c, l, n) && n < k && c.window > 0
    ensures var s := Step(1.0, Count(c.limit - 1 + n, 1.0));
            Orderly(c, k, 0.0, l, s) && Crowd(c, Move(c, l, s), n + 1)
  {
    var id := c.limit - 1 + n;
    CrowdPruned(c, l, n);
    CountAdmits(c, l, id);
    CrowdGrows(c, l, Move(c, l, Step(1.0, Count(id, 1.0))), n, id);
    CrowdOrderly(c, k, l, n, id);
    hide Crowd, Orderly, Move, Prune;
  }

  lemma CrowdPruned(c: Config, l: Limiter, n: nat)
    requires Crowd(c, l, n) && c.window > 0
    ensures Prune(c, l.key, 1.0).entries == l.key.entries && |l.key.entries| < c.limit
  {
    PruneOnes(c, l.key, c.limit - 1);
    hide Ones, Prune;
  }

  lemma CrowdOrderly(c: Config, k: nat, l: Limiter, n: nat, id: nat)
    requires Crowd(c, l, n) && n < k && id == c.limit - 1 + n
    ensures Orderly(c, k, 0.0, l, Step(1.0, Count(id, 1.0)))
  {
    FreshOne(id);
    hide Ones, Prune;
  }

  lemma CrowdGrows(c: Config, l: Limiter, m: Limiter, n: nat, id: nat)
    requires Crowd(c, l, n) && id == c.limit - 1 + n
    requires m.key.entries == l.key.entries && m.pending == l.pending + {id} && m.admitted == l.admitted[id := 1.0]
    requires m.clock == 1.0 && m.highest == Later(l.highest, 1.0)
    ensures Crowd(c, m, n + 1)
  {
    OnesStep(id);
    AddedOne(l.pending, id);
    hide Ones;
    assert c.limit - 1 + (n + 1) == id + 1;
  }

  lemma CountAdmits(c: Config, l: Limiter, id: nat)
    requires |Prune(c, l.key, 1.0).entries| < c.limit
    ensures var m := Move(c, l, Step(1.0, Count(id, 1.0)));
            m.key == Prune(c, l.key, 1.0) && m.pending == l.pending + {id} && m.admitted == l.admitted[id := 1.0]
            && m.clock == 1.0 && m.highest == Later(l.highest, 1.0)
  {
  }

  lemma FreshOne(n: nat)
    ensures n !in Ones(n)
  {
    OnesNext(n);
  }

  lemma AddedOne(pending: set<nat>, id: nat)
    requires forall other | other in pending :: other < id
    ensures |pending + {id}| == |pending| + 1 && forall other | other in pending + {id} :: other < id + 1
  {
  }

  lemma OnesStep(n: nat)
    ensures Ones(n + 1) == Ones(n)[n := 1.0]
  {
  }

  /** For every limit and every `k` the bound is reached: checks between count and add do slip through. */
  lemma BoundReached(c: Config, k: nat)
    requires c.limit >= 1 && k >= 1 && c.window > 0
    ensures exists steps :: AllOrderly(c, k, 0.0, Start, steps)
              && |Within(Moves(c, Start, steps).admitted, 1.0, c.window as real)| == c.limit + k - 1
  {
    hide AllOrderly, Moves, Within, Ones;
    var steps := AllAtOnce(c, k, k);
    OnesWithin(c.limit - 1 + k, c.window as real);
    var m := Moves(c, Start, steps).admitted;
    assert |Within(m, 1.0, c.window as real)| == c.limit + k - 1;
  }

  lemma OnesWithin(n: nat, width: real)
    requires width > 0.0
    ensures |Within(Ones(n), 1.0, width)| == n
  {
    OnesNext(n);
    assert Within(Ones(n), 1.0, width) == Ones(n).Keys;
    assert |Ones(n).Keys| == n;
  }

  /** A quota query that drops at a later clock than a check already under way lets one too many through. */
  lemma ClockOrderNeeded()
    ensures var c := Config(1, 10);
            exists steps :: AllOrderly(c, 1, 1.0, Start, steps)
              && |Within(Moves(c, Start, steps).admitted, 9.0, c.window as real)| > c.limit
  {
    var c := Config(1, 10);
    hide AllOrderly, Moves, Within;
    var steps := LateRun(c);
    BothWithin(c, Moves(c, Start, steps).admitted);
  }

  lemma LateRun(c: Config) returns (steps: seq<Step>)
    requires c == Config(1, 10)
    ensures AllOrderly(c, 1, 1.0, Start, steps) && Moves(c, Start, steps).admitted == map[0 := 0.0, 1 := 9.0]
  {
    var s0, s1 := Step(0.0, Count(0, 0.0)), Step(0.0, Add(0));
    var s2, s3 := Step(10.0, Quota(10.0)), Step(10.0, Count(1, 9.0));
    assert Moves(c, Start, []) == Start && AllOrderly(c, 1, 1.0, Start, []);
    hide Moves, AllOrderly;
    assert [] + [s0] == [s0];
    var l1 := MoveOn(c, 1.0, Start, [], s0);
    var l2 := MoveOn(c, 1.0, l1, [s0], s1);
    assert l2.key.entries == map[0 := 0.0];
    EntryAged(c, l2.key);
    var l3 := MoveOn(c, 1.0, l2, [s0] + [s1], s2);
    var l4 := MoveOn(c, 1.0, l3, [s0] + [s1] + [s2], s3);
    steps := [s0] + [s1] + [s2] + [s3];
  }

  lemma BothWithin(c: Config, m: map<nat, real>)
    requires c.window == 10 && m == map[0 := 0.0, 1 := 9.0]
    ensures |Within(m, 9.0, c.window as real)| == 2
  {
    assert Within(m, 9.0, c.window as real) == {0, 1};
  }

  lemma EntryAged(c: Config, k: Key)
    requires c.window == 10 && k.entries == map[0 := 0.0]
    ensures Prune(c, k, 10.0) == Key(map[], None) && forall now :: Prune(c, Key(map[], None), now) == Key(map[], None)
  {
    assert forall now :: Prune(c, Key(map[], None), now).entries == map[];
  }

  lemma MoveOn(c: Config, skew: real, l: Limiter, steps: seq<Step>, s: Step) returns (m: Limiter)
    requires AllOrderly(c, 1, skew, Start, steps) && Moves(c, Start, steps) == l && Orderly(c, 1, skew, l, s)
    ensures m == Move(c, l, s) == Moves(c, Start, steps + [s]) && AllOrderly(c, 1, skew, Start, steps + [s])
  {
    MovesSnoc(c, 1, skew, Start, steps, s);
    m := Move(c, l, s);
  }

  /**
   At a due expiry of the key a live entry is dropped if and only if one that was added and not yet refreshed
   is still in the window.
   */
  lemma LapseDropsLiveIff(c: Config, k: nat, skew: real, steps: seq<Step>, at: real)
    requires skew >= 0.0 && AllOrderly(c, k, skew, Start, steps)
    requires var l := Moves(c, Start, steps); l.key.expireAt.Some? && at >= l.key.expireAt.value
    ensures var l := Moves(c, Start, steps);
            var live := Prune(c, l.key, at).entries.Keys;
            Move(c, l, Step(at, Lapse)).key.entries == map[]
            && (live != {} <==> live * l.unrefreshed != {})
  {
    hide AllOrderly, Moves;
    var l := Moves(c, Start, steps);
    var live := Prune(c, l.key, at).entries.Keys;
    if live != {} {
      var id :| id in live;
      if id !in l.unrefreshed {
        LapseDropsOnlyDead(c, k, skew, steps, at, id);
      }
      assert id in live * l.unrefreshed;
    }
  }

  /** In a run from the start, a key that expires between an add and its refresh takes a live entry with it. */
  lemma LapseBeforeRefresh()
    ensures var c := Config(2, 10);
            exists steps, id ::
              var l := Moves(c, Start, steps);
              AllOrderly(c, 1, 0.0, Start, steps)
              && l.clock <= 10.0 && l.key.expireAt == Some(10.0) && id in Prune(c, l.key, 10.0).entries
              && id !in Move(c, l, Step(10.0, Lapse)).key.entries
  {
    var c := Config(2, 10);
    hide AllOrderly, Moves;
    var steps := TwoAdded(c);
    var l := Moves(c, Start, steps);
    assert 1 in Prune(c, l.key, 10.0).entries;
    assert 1 !in Move(c, l, Step(10.0, Lapse)).key.entries;
  }

  lemma TwoAdded(c: Config) returns (steps: seq<Step>)
    requires c == Config(2, 10)
    ensures AllOrderly(c, 1, 0.0, Start, steps)
    ensures Moves(c, Start, steps).key == Key(map[0 := 0.0, 1 := 9.0], Some(10.0))
    ensures Moves(c, Start, steps).clock == 9.0
  {
    var s0, s1, s2 := Step(0.0, Count(0, 0.0)), Step(0.0, Add(0)), Step(0.0, Refresh(0));
    var s3, s4 := Step(9.0, Count(1, 9.0)), Step(9.0, Add(1));
    assert Moves(c, Start, []) == Start && AllOrderly(c, 1, 0.0, Start, []);
    hide Moves, AllOrderly;
    var l1 := MoveOn(c, 0.0, Start, [], s0);
    var l2 := MoveOn(c, 0.0, l1, [] + [s0], s1);
    var l3 := MoveOn(c, 0.0, l2, [] + [s0] + [s1], s2);
    assert l3.key == Key(map[0 := 0.0], Some(10.0)) && l3.admitted == map[0 := 0.0];
    assert l3.pending == {} && l3.clock == 0.0 && l3.highest == 0.0;
    hide Move;
    steps := SecondAdded(c, l3, [] + [s0] + [s1] + [s2], s3, s4);
  }

  lemma SecondAdded(c: Config, l: Limiter, before: seq<Step>, count: Step, add: Step) returns (steps: seq<Step>)
    requires c == Config(2, 10) && AllOrderly(c, 1, 0.0, Start, before) && Moves(c, Start, before) == l
    requires l.key == Key(map[0 := 0.0], Some(10.0)) && l.admitted == map[0 := 0.0]
    requires l.pending == {} && l.clock == 0.0 && l.highest == 0.0
    requires count == Step(9.0, Count(1, 9.0)) && add == Step(9.0, Add(1))
    ensures AllOrderly(c, 1, 0.0, Start, steps)
    ensures Moves(c, Start, steps).key == Key(map[0 := 0.0, 1 := 9.0], Some(10.0))
    ensures Moves(c, Start, steps).clock == 9.0
  {
    assert Prune(c, l.key, 9.0) == l.key;
    assert |map[0 := 0.0]| == 1;
    hide Moves, AllOrderly, Prune;
    var l1 := MoveOn(c, 0.0, l, before, count);
    assert l1.pending == {1} && l1.admitted == map[0 := 0.0, 1 := 9.0] && l1.key == l.key;
    var l2 := MoveOn(c, 0.0, l1, before + [count], add);
    assert l2.key.entries == map[0 := 0.0, 1 := 9.0];
    steps := before + [count] + [add];
  }
}
