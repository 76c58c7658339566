/**
 The event bus of src/agents/events.py and the replay-then-stream loop of src/api/documents.py: every
 subscriber has its own queue, and a stream first replays the stored list while it may still grow.
 */
module EventBus {

  datatype Event = Event(kind: string, data: string)

  predicate Last(e: Event) {
    e.kind == "processing:complete" || e.kind == "processing:error"
  }

  /** `Replaying` and `Handing` are suspended at a yield, `Live` at the queue, `Polling` at the keepalive. */
  datatype Place = Replaying | Live | Handing | Polling | Ended

  /**
   One stream. `since` is the length of the event list when it subscribed, `pos` the replay's index, which
   stays where the replay ended; `taken` is what it took from its queue and `out` what it sent.
   */
  datatype Stream = Stream(
    since: nat,
    pos: nat,
    place: Place,
    subscribed: bool,
    queue: seq<Event>,
    taken: seq<Event>,
    out: seq<Event>)

  // ---------------------------------------------------------------------------
  // The steps of a stream
  // ---------------------------------------------------------------------------

  /** The `for` loop over the stored events: a list that grows is followed to its end. */
  function Replay(events: seq<Event>, s: Stream): Stream {
    if s.pos < |events|
    then s.(place := Replaying, pos := s.pos + 1, out := s.out + [events[s.pos]])
    else s.(place := Live)
  }

  function Subscribed(events: seq<Event>): Stream {
    Replay(events, Stream(|events|, 0, Replaying, true, [], [], []))
  }

  function Ending(s: Stream): Stream {
    s.(place := Ended, subscribed := false)
  }

  function Take(s: Stream): Stream
    requires s.queue != []
  {
    s.(queue := s.queue[1..], taken := s.taken + [s.queue[0]], out := s.out + [s.queue[0]], place := Handing)
  }

  /** What happens when the stream runs on; `finished` is the job status it reads after a keepalive. */
  function Resumed(events: seq<Event>, s: Stream, finished: bool): Stream {
    match s.place
    case Replaying => Replay(events, s)
    case Live => if s.queue != [] then Take(s) else s.(place := Polling)
    case Handing => if s.taken != [] && Last(s.taken[|s.taken| - 1]) then Ending(s) else s.(place := Live)
    case Polling => if finished then Ending(s) else s.(place := Live)
    case Ended => s
  }

  // ---------------------------------------------------------------------------
  // The objects
  // ---------------------------------------------------------------------------

  class Queue {
    var items: seq<Event>

    constructor ()
      ensures items == []
    {
      items := [];
    }
  }

  predicate Distinct(qs: seq<Queue>) {
    forall i, j | 0 <= i < j < |qs| :: qs[i] != qs[j]
  }

  function RemoveFirst(qs: seq<Queue>, q: Queue): seq<Queue> {
    if qs == [] then [] else if qs[0] == q then qs[1..] else [qs[0]] + RemoveFirst(qs[1..], q)
  }

  lemma {:induction false} RemovedOnce(qs: seq<Queue>, q: Queue)
    requires Distinct(qs)
    ensures Distinct(RemoveFirst(qs, q))
    ensures forall p :: p in RemoveFirst(qs, q) <==> p in qs && p != q
  {
    if qs != [] {
      RemovedOnce(qs[1..], q);
      assert forall p :: p in qs <==> p == qs[0] || p in qs[1..];
      if qs[0] != q {
        var rest := RemoveFirst(qs[1..], q);
        assert forall p :: p in [qs[0]] + rest <==> p == qs[0] || p in rest;
        assert qs[0] !in rest;
      }
    }
  }

  class EventBus {
    var events: seq<Event>
    var subscribers: seq<Queue>

    predicate Valid()
      reads this
    {
      Distinct(subscribers)
    }

    constructor ()
      ensures Valid() && events == [] && subscribers == []
    {
      events, subscribers := [], [];
    }

    method Publish(event: Event)
      requires Valid()
      modifies this`events, set q | q in subscribers
      ensures Valid() && events == old(events) + [event]
      ensures forall q | q in subscribers :: q.items == old(q.items) + [event]
    {
      events := events + [event];
      for i := 0 to |subscribers|
        invariant events == old(events) + [event] && subscribers == old(subscribers)
        invariant forall k | 0 <= k < i :: subscribers[k].items == old(subscribers[k].items) + [event]
        invariant forall k | i <= k < |subscribers| :: subscribers[k].items == old(subscribers[k].items)
      {
        var queue := subscribers[i];
        queue.items := queue.items + [event];
      }
    }

    method Subscribe() returns (queue: Queue)
      requires Valid()
      modifies this`subscribers
      ensures Valid() && fresh(queue) && queue.items == [] && subscribers == old(subscribers) + [queue]
    {
      queue := new Queue();
      subscribers := subscribers + [queue];
    }

    method Unsubscribe(queue: Queue)
      requires Valid()
      modifies this`subscribers
      ensures Valid() && subscribers == RemoveFirst(old(subscribers), queue)
      ensures forall p :: p in subscribers <==> p in old(subscribers) && p != queue
    {
      RemovedOnce(subscribers, queue);
      subscribers := RemoveFirst(subscribers, queue);
    }
  }

  /** The generator of one stream, from its subscription on. */
  class EventStream {
    const bus: EventBus
    const queue: Queue
    var index: nat
    var place: Place
    var last: bool
    ghost var since: nat
    ghost var taken: seq<Event>
    ghost var out: seq<Event>

    ghost function View(): Stream
      reads this, bus, queue
    {
      Stream(since, index, place, queue in bus.subscribers, queue.items, taken, out)
    }

    ghost predicate Valid()
      reads this, bus, queue
    {
      bus.Valid()
      && (place == Replaying ==> index >= 1 || out == [])
      && (place == Handing ==> taken != [] && last == Last(taken[|taken| - 1]))
      && (place != Ended ==> queue in bus.subscribers)
    }

    constructor (b: EventBus, q: Queue)
      requires b.Valid() && q in b.subscribers && q.items == []
      ensures bus == b && queue == q && Valid()
      ensures View() == Stream(|b.events|, 0, Replaying, true, [], [], [])
    {
      bus, queue, index, place, last := b, q, 0, Replaying, false;
      since, taken, out := |b.events|, [], [];
    }

    /** Runs to the next suspension; `sent` holds the event yielded there, if any. */
    method Resume(finished: bool) returns (sent: seq<Event>)
      requires Valid() && place != Ended
      modifies this, queue, bus`subscribers
      ensures Valid()
      ensures View() == Resumed(bus.events, old(View()), finished)
      ensures out == old(out) + sent
    {
      sent := [];
      match place {
        case Replaying =>
          if index < |bus.events| {
            sent := [bus.events[index]];
            index := index + 1;
          } else {
            place := Live;
          }
        case Live =>
          if queue.items != [] {
            var event := queue.items[0];
            queue.items := queue.items[1..];
            sent := [event];
            last := Last(event);
            taken := taken + [event];
            place := Handing;
          } else {
            place := Polling;
          }
        case Handing =>
          if last {
            bus.Unsubscribe(queue);
            place := Ended;
          } else {
            place := Live;
          }
        case Polling =>
          if finished {
            bus.Unsubscribe(queue);
            place := Ended;
          } else {
            place := Live;
          }
      }
      out := out + sent;
    }
  }

  // ---------------------------------------------------------------------------
  // One publisher, any number of streams
  // ---------------------------------------------------------------------------

  datatype World = World(events: seq<Event>, streams: seq<Stream>)

  datatype Step =
    | Publish(event: Event)
    | Connect
    | Resume(stream: nat, finished: bool)
    | Disconnect(stream: nat)

  function Delivered(s: Stream, e: Event): Stream {
    if s.subscribed then s.(queue := s.queue + [e]) else s
  }

  function Move(w: World, step: Step): World {
    match step
    case Publish(e) =>
      World(w.events + [e], seq(|w.streams|, i requires 0 <= i < |w.streams| => Delivered(w.streams[i], e)))
    case Connect => w.(streams := w.streams + [Subscribed(w.events)])
    case Resume(i, finished) =>
      if i < |w.streams| then w.(streams := w.streams[i := Resumed(w.events, w.streams[i], finished)]) else w
    case Disconnect(i) => if i < |w.streams| then w.(streams := w.streams[i := Ending(w.streams[i])]) else w
  }

  function Moves(w: World, steps: seq<Step>): World
    decreases |steps|
  {
    if steps == [] then w else Moves(Move(w, steps[0]), steps[1..])
  }

  const Start := World([], [])

  // ---------------------------------------------------------------------------
  // What every run keeps
  // ---------------------------------------------------------------------------

  predicate IsPrefix(a: seq<Event>, b: seq<Event>) {
    |a| <= |b| && a == b[..|a|]
  }

  ghost predicate StreamOk(events: seq<Event>, s: Stream) {
    s.since <= |events| && s.pos <= |events|
    && IsPrefix(s.taken + s.queue, events[s.since..])
    && (s.subscribed ==> s.taken + s.queue == events[s.since..])
    && s.out == events[..s.pos] + s.taken
    && (s.place == Replaying ==> s.taken == [])
    && (s.place != Ended ==> s.subscribed)
    && (s.place in {Live, Handing, Polling} ==> s.since <= s.pos)
    && (s.taken != [] ==> s.since <= s.pos)
    && (s.place == Handing ==> s.taken != [])
    && (forall i | 0 <= i < |s.taken| - 1 :: !Last(s.taken[i]))
    && (s.place in {Live, Polling} && s.taken != [] ==> !Last(s.taken[|s.taken| - 1]))
  }

  lemma ResumeKeeps(events: seq<Event>, s: Stream, finished: bool)
    requires StreamOk(events, s)
    ensures StreamOk(events, Resumed(events, s, finished))
  {
    if s.place == Live && s.queue != [] {
      assert s.taken + [s.queue[0]] + s.queue[1..] == s.taken + s.queue;
      assert s.out + [s.queue[0]] == events[..s.pos] + (s.taken + [s.queue[0]]);
    }
    if s.place == Replaying && s.pos < |events| {
      assert events[..s.pos] + [events[s.pos]] + [] == events[..s.pos + 1];
    }
  }

  lemma PublishKeeps(events: seq<Event>, s: Stream, e: Event)
    requires StreamOk(events, s)
    ensures StreamOk(events + [e], Delivered(s, e))
  {
    assert (events + [e])[..s.pos] == events[..s.pos];
    assert (events + [e])[s.since..] == events[s.since..] + [e];
    assert s.taken + (s.queue + [e]) == s.taken + s.queue + [e];
  }

  lemma ConnectOk(events: seq<Event>)
    ensures StreamOk(events, Subscribed(events))
  {
    assert events[..0] == [] && events[|events|..] == [];
  }

  ghost predicate Valid(w: World) {
    forall i | 0 <= i < |w.streams| :: StreamOk(w.events, w.streams[i])
  }

  lemma MoveKeeps(w: World, step: Step)
    requires Valid(w)
    ensures Valid(Move(w, step))
  {
    hide StreamOk, Resumed, Delivered, Subscribed;
    var x := Move(w, step);
    forall i | 0 <= i < |x.streams|
      ensures StreamOk(x.events, x.streams[i])
    {
      match step {
        case Publish(e) => PublishKeeps(w.events, w.streams[i], e);
        case Connect => ConnectOk(w.events);
        case Resume(k, finished) =>
          if k < |w.streams| {
            ResumeKeeps(w.events, w.streams[k], finished);
          }
        case Disconnect(k) =>
          if k < |w.streams| {
            EndingKeeps(w.events, w.streams[k]);
          }
      }
    }
  }

  lemma EndingKeeps(events: seq<Event>, s: Stream)
    requires StreamOk(events, s)
    ensures StreamOk(events, Ending(s))
  {
  }

  lemma {:induction false} RunsValid(w: World, steps: seq<Step>)
    requires Valid(w)
    ensures Valid(Moves(w, steps))
    decreases |steps|
  {
    hide Valid, Move;
    if steps != [] {
      MoveKeeps(w, steps[0]);
      RunsValid(Move(w, steps[0]), steps[1..]);
    }
  }

  /** In every run each subscriber's consumed and queued events are exactly those published since it subscribed. */
  lemma NothingLostInQueues(steps: seq<Step>, i: nat)
    requires i < |Moves(Start, steps).streams| && Moves(Start, steps).streams[i].subscribed
    ensures var w := Moves(Start, steps);
            w.streams[i].since <= |w.events|
            && w.streams[i].taken + w.streams[i].queue == w.events[w.streams[i].since..]
  {
    RunsValid(Start, steps);
    assert StreamOk(Moves(Start, steps).events, Moves(Start, steps).streams[i]);
  }

  /**
   In every run a stream that has begun to read its queue, its replay having ended at index `m`, has sent the
   first `m` events and then a prefix of those since `s`, where `s <= m`. So the events it has sent are the
   first so many, each in its place, and exactly the slice from `s` to `m` is sent again.
   */
  lemma GaplessWithOneOverlap(steps: seq<Step>, i: nat)
    requires i < |Moves(Start, steps).streams| && Moves(Start, steps).streams[i].place in {Live, Handing, Polling}
    ensures var w := Moves(Start, steps);
            var st := w.streams[i];
            var s, m, n := st.since, st.pos, |st.taken|;
            s <= m <= |w.events| && s + n <= |w.events|
            && st.out == w.events[..m] + w.events[s..s + n]
            && (s + n <= m ==> st.out == w.events[..m] + w.events[s..m][..n])
            && (m <= s + n ==> st.out == w.events[..m] + w.events[s..m] + w.events[m..s + n])
  {
    RunsValid(Start, steps);
    var w := Moves(Start, steps);
    var st := w.streams[i];
    assert StreamOk(w.events, st);
    var s, m, n := st.since, st.pos, |st.taken|;
    assert st.taken == (st.taken + st.queue)[..n] == w.events[s..][..n] == w.events[s..s + n];
    if m <= s + n {
      assert w.events[s..m] + w.events[m..s + n] == w.events[s..s + n];
    } else {
      assert w.events[s..m][..n] == w.events[s..s + n];
    }
  }

  /**
   In every run, a stream that hands over a last event, and so ends next, hands over the first such event
   published since it subscribed.
   */
  lemma EndsAtFirstLast(steps: seq<Step>, i: nat)
    requires var w := Moves(Start, steps);
             i < |w.streams| && w.streams[i].place == Handing
    ensures var w := Moves(Start, steps);
            var st := w.streams[i];
            var s, n := st.since, |st.taken|;
            n > 0 && s + n <= |w.events| && st.out != [] && w.events[s + n - 1] == st.out[|st.out| - 1]
            && (Resumed(w.events, st, false).place == Ended <==> Last(w.events[s + n - 1]))
            && forall j | s <= j < s + n - 1 :: !Last(w.events[j])
  {
    RunsValid(Start, steps);
    var w := Moves(Start, steps);
    var st := w.streams[i];
    assert StreamOk(w.events, st);
    forall k | 0 <= k < |st.taken|
      ensures st.since + k < |w.events| && st.taken[k] == w.events[st.since + k]
    {
      assert (st.taken + st.queue)[k] == st.taken[k];
      assert w.events[st.since..][k] == w.events[st.since + k];
    }
    forall j | st.since <= j < st.since + |st.taken| - 1
      ensures !Last(w.events[j])
    {
      assert !Last(st.taken[j - st.since]);
    }
  }

  // ---------------------------------------------------------------------------
  // When a stream goes on, and when it ends
  // ---------------------------------------------------------------------------

  /** A stream that runs on ends for one of two reasons only; until then it stays subscribed. */
  lemma EndsExactly(events: seq<Event>, s: Stream, finished: bool)
    requires StreamOk(events, s) && s.place != Ended
    ensures var r := Resumed(events, s, finished);
            (r.place == Ended <==> (s.place == Polling && finished)
                                   || (s.place == Handing && s.taken[|s.taken| - 1].kind
                                         in {"processing:complete", "processing:error"}))
            && (r.place != Ended ==> r.subscribed)
            && (s.place == Polling && !finished ==> r == s.(place := Live))
            && (s.place == Live && s.queue == [] ==> r == s.(place := Polling))
  {
  }

  /** The step makes stream `i` end: a disconnect, a last event handed over, or a job that is finished. */
  predicate Ends(w: World, step: Step, i: nat) {
    i < |w.streams| && w.streams[i].place != Ended
    && match step
       case Disconnect(k) => k == i
       case Resume(k, finished) =>
         k == i
         && var s := w.streams[i];
            (s.place == Polling && finished)
            || (s.place == Handing && s.taken != [] && Last(s.taken[|s.taken| - 1]))
       case _ => false
  }

  lemma EndsNow(w: World, step: Step, i: nat)
    requires Valid(w) && i < |Move(w, step).streams| && Move(w, step).streams[i].place == Ended
    ensures i < |w.streams| && (w.streams[i].place == Ended || Ends(w, step, i))
  {
    hide StreamOk;
    match step {
      case Connect => assert Subscribed(w.events).place != Ended;
      case Resume(k, finished) =>
        if k == i && w.streams[i].place != Ended {
          assert StreamOk(w.events, w.streams[i]);
          EndsExactly(w.events, w.streams[i], finished);
          HandingTaken(w.events, w.streams[i]);
        }
      case _ =>
    }
  }

  lemma HandingTaken(events: seq<Event>, s: Stream)
    requires StreamOk(events, s)
    ensures s.place == Handing ==> s.taken != []
  {
  }

  /** In every run, a stream that has ended was disconnected, handed over a last event, or saw the job finished. */
  lemma {:induction false} EndedForAReason(steps: seq<Step>, i: nat)
    requires i < |Moves(Start, steps).streams| && Moves(Start, steps).streams[i].place == Ended
    ensures exists k: nat :: k < |steps| && Ends(Moves(Start, steps[..k]), steps[k], i)
    decreases |steps|
  {
    if steps != [] {
      var n := |steps| - 1;
      var before := steps[..n];
      assert before + [steps[n]] == steps;
      MovesSnoc(Start, before, steps[n]);
      RunsValid(Start, before);
      hide Moves, Valid;
      EndsNow(Moves(Start, before), steps[n], i);
      if !Ends(Moves(Start, before), steps[n], i) {
        EndedForAReason(before, i);
        var k: nat :| k < |before| && Ends(Moves(Start, before[..k]), before[k], i);
        assert before[..k] == steps[..k] && before[k] == steps[k];
      }
    }
  }

  function ResumeTimes(events: seq<Event>, s: Stream, n: nat): Stream
    decreases n
  {
    if n == 0 then s else ResumeTimes(events, Resumed(events, s, false), n - 1)
  }

  predicate NoLast(es: seq<Event>) {
    forall k | 0 <= k < |es| :: !Last(es[k])
  }

  /** A live stream hands over all that is queued, in order, one event in two steps, and stays live. */
  lemma {:induction false} DrainsQueue(events: seq<Event>, s: Stream)
    requires s.place == Live && NoLast(s.queue)
    ensures ResumeTimes(events, s, 2 * |s.queue|)
            == s.(queue := [], taken := s.taken + s.queue, out := s.out + s.queue)
    decreases |s.queue|
  {
    if s.queue == [] {
      assert s.taken + [] == s.taken && s.out + [] == s.out;
    } else {
      var a := Resumed(events, s, false);
      var b := Resumed(events, a, false);
      var n := 2 * |b.queue|;
      DrainsQueue(events, b);
      assert ResumeTimes(events, a, n + 1) == ResumeTimes(events, b, n);
      assert s.taken + [s.queue[0]] + s.queue[1..] == s.taken + s.queue;
      assert s.out + [s.queue[0]] + s.queue[1..] == s.out + s.queue;
    }
  }

  /** The replay hands over the rest of the stored events, one a step, and then the stream is live. */
  lemma {:induction false} ReplaysRest(events: seq<Event>, s: Stream)
    requires s.place == Replaying && s.pos <= |events|
    ensures ResumeTimes(events, s, |events| - s.pos + 1)
            == s.(place := Live, pos := |events|, out := s.out + events[s.pos..])
    decreases |events| - s.pos
  {
    var a := Resumed(events, s, false);
    if s.pos < |events| {
      ReplaysRest(events, a);
      assert s.out + [events[s.pos]] + events[s.pos + 1..] == s.out + events[s.pos..];
    } else {
      assert ResumeTimes(events, a, 0) == a;
      assert s.out + [] == s.out;
    }
  }

  // ---------------------------------------------------------------------------
  // Events sent twice, events left behind
  // ---------------------------------------------------------------------------

  lemma {:induction false} MovesSnoc(w: World, steps: seq<Step>, s: Step)
    ensures Moves(w, steps + [s]) == Move(Moves(w, steps), s)
    decreases |steps|
  {
    hide Move;
    if steps == [] {
      assert (steps + [s])[1..] == [];
    } else {
      assert (steps + [s])[1..] == steps[1..] + [s];
      MovesSnoc(Move(w, steps[0]), steps[1..], s);
    }
  }

  lemma PublishOne(events: seq<Event>, s: Stream, e: Event)
    ensures Move(World(events, [s]), Publish(e)) == World(events + [e], [Delivered(s, e)])
  {
  }

  /** An event published while the replay is under way comes from the list and from the queue. */
  lemma SentTwice(a: Event, b: Event)
    ensures exists steps ::
              var w := Moves(Start, steps); |w.streams| == 1 && w.events == [a, b] && w.streams[0].out == [a, b, b]
  {
    var s1 := [Publish(a)];
    var s2 := s1 + [Connect];
    var s3 := s2 + [Publish(b)];
    var s4 := s3 + [Resume(0, false)];
    var s5 := s4 + [Resume(0, false)];
    var s6 := s5 + [Resume(0, false)];
    assert [] + s1 == s1;
    MovesSnoc(Start, [], Publish(a));
    MovesSnoc(Start, s1, Connect);
    MovesSnoc(Start, s2, Publish(b));
    MovesSnoc(Start, s3, Resume(0, false));
    MovesSnoc(Start, s4, Resume(0, false));
    MovesSnoc(Start, s5, Resume(0, false));
    assert Moves(Start, []) == Start;
    hide Moves;
    PublishOne([a], Stream(1, 1, Replaying, true, [], [], [a]), b);
    assert Moves(Start, s1) == World([a], []);
    assert Moves(Start, s2) == World([a], [Stream(1, 1, Replaying, true, [], [], [a])]);
    assert Moves(Start, s2).streams == [Stream(1, 1, Replaying, true, [], [], [a])];
    assert [a] + [b] == [a, b] && Delivered(Stream(1, 1, Replaying, true, [], [], [a]), b).queue == [b];
    assert Moves(Start, s3) == World([a, b], [Stream(1, 1, Replaying, true, [b], [], [a])]);
    assert Moves(Start, s5) == World([a, b], [Stream(1, 2, Live, true, [b], [], [a, b])]);
    assert Moves(Start, s6).streams[0].out == [a, b, b];
  }

  /**
   In every run, a stream whose replay ended at `m` and that ends because the job's status says so has sent all
   that was published, the slice from `s` to `m` twice, if and only if its queue was empty when it ended.
   */
  lemma StatusEndCompleteIff(steps: seq<Step>, i: nat)
    requires i < |Moves(Start, steps).streams| && Moves(Start, steps).streams[i].place == Polling
    ensures var w := Moves(Start, steps);
            var st := w.streams[i];
            var ended := Resumed(w.events, st, true);
            ended.place == Ended && st.since <= st.pos <= |w.events|
            && (ended.out == w.events[..st.pos] + w.events[st.since..] <==> st.queue == [])
            && ended.out + st.queue == w.events[..st.pos] + w.events[st.since..]
  {
    RunsValid(Start, steps);
    var w := Moves(Start, steps);
    var st := w.streams[i];
    assert StreamOk(w.events, st);
    var ended := Resumed(w.events, st, true);
    assert ended.out + st.queue == w.events[..st.pos] + (st.taken + st.queue);
    if st.queue != [] {
      assert |ended.out| < |w.events[..st.pos] + w.events[st.since..]|;
    }
  }

  /**
   A stream that learns from the job's status that the job is over stops at once, even when the last event
   was published while it asked.
   */
  lemma LeftBehind(last: Event)
    ensures exists steps ::
              var w := Moves(Start, steps);
              |w.streams| == 1 && w.events == [last]
              && w.streams[0].place == Ended && w.streams[0].queue == [last] && w.streams[0].out == []
  {
    var s1 := [Connect];
    var s2 := s1 + [Resume(0, false)];
    var s3 := s2 + [Publish(last)];
    var s4 := s3 + [Resume(0, true)];
    assert [] + s1 == s1;
    MovesSnoc(Start, [], Connect);
    MovesSnoc(Start, s1, Resume(0, false));
    MovesSnoc(Start, s2, Publish(last));
    MovesSnoc(Start, s3, Resume(0, true));
    assert Moves(Start, []) == Start;
    hide Moves;
    assert Moves(Start, s2) == World([], [Stream(0, 0, Polling, true, [], [], [])]);
    PublishOne([], Stream(0, 0, Polling, true, [], [], []), last);
    assert [] + [last] == [last] && Delivered(Stream(0, 0, Polling, true, [], [], []), last).queue == [last];
    assert Moves(Start, s3) == World([last], [Stream(0, 0, Polling, true, [last], [], [])]);
    assert Moves(Start, s4) == World([last], [Stream(0, 0, Ended, false, [last], [], [])]);
  }
}
