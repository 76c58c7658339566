/**
 Server-sent events with reconnect (src/api/pipeline_viewer.py, src/services/session_store.py): one pipeline
 appends to the session's buffer while any number of readers, each suspended at its yields and waits, read it.
 A step is the code between two suspensions.
 */
module SseStream {

  datatype Event = Event(id: nat, data: string)

  datatype Status = Processing | Completed | Failed

  datatype Session = Session(buffer: seq<Event>, counter: nat, status: Status, newEvent: bool)

  function Started(data: string): Session {
    Session([Event(0, data)], 1, Processing, true)
  }

  function Emitted(s: Session, data: string): Session {
    Session(s.buffer + [Event(s.counter, data)], s.counter + 1, s.status, true)
  }

  /** Where a reader is suspended; `limit` is the buffer length it last read. */
  datatype Place = Top | Yielded | Waiting | Heartbeat | Done

  datatype Reader = Reader(start: nat, cursor: nat, limit: nat, place: Place, out: seq<Event>)

  function Opened(cursor: nat): Reader {
    Reader(cursor, cursor, 0, Top, [])
  }

  /**
   The drain loop from its test on, up to the next suspension. The `mended` reader looks at the buffer again
   before it believes a terminal status; the one in the source does not.
   */
  function Drain(s: Session, r: Reader, mended: bool): Reader {
    if r.cursor < r.limit <= |s.buffer| then r.(place := Yielded, out := r.out + [s.buffer[r.cursor]])
    else if mended && r.cursor < |s.buffer| then
      r.(limit := |s.buffer|, place := Yielded, out := r.out + [s.buffer[r.cursor]])
    else if s.status != Processing then r.(place := Done)
    else r.(place := Waiting)
  }

  function Resumed(s: Session, r: Reader, mended: bool): Reader {
    match r.place
    case Done => r
    case Yielded => Drain(s, r.(cursor := r.cursor + 1), mended)
    case _ => Drain(s, r.(limit := |s.buffer|), mended)
  }

  class PipelineSession {
    var eventBuffer: seq<Event>
    var eventCounter: nat
    var status: Status
    var newEvent: bool

    function View(): Session
      reads this
    {
      Session(eventBuffer, eventCounter, status, newEvent)
    }

    /** The session and its first event, written before the pipeline task is spawned. */
    constructor (data: string)
      ensures View() == Started(data)
    {
      eventBuffer, status := [Event(0, data)], Processing;
      eventCounter := 1;
      newEvent := true;
    }

    method Emit(data: string)
      modifies this
      ensures View() == Emitted(old(View()), data)
    {
      var eid := eventCounter;
      eventCounter := eventCounter + 1;
      eventBuffer := eventBuffer + [Event(eid, data)];
      newEvent := true;
    }

    /** Every ending sets the status and emits `done` without a suspension between. */
    method Finish(s: Status, done: string)
      modifies this
      ensures View() == Emitted(old(View()).(status := s), done)
    {
      status := s;
      Emit(done);
    }

    /** A cancelled pipeline says nothing. */
    method Cancel()
      modifies this
      ensures View() == old(View()).(status := Failed, newEvent := true)
    {
      status := Failed;
      newEvent := true;
    }
  }

  class BufferReader {
    const start: nat
    var cursor: nat
    var limit: nat
    var place: Place
    ghost var out: seq<Event>

    ghost function View(): Reader
      reads this
    {
      Reader(start, cursor, limit, place, out)
    }

    constructor (from: nat)
      ensures View() == Opened(from)
    {
      start, cursor, limit, place, out := from, from, 0, Top, [];
    }

    /** Runs to the next suspension; `sent` holds what is yielded there. */
    method Resume(session: PipelineSession) returns (sent: seq<Event>)
      requires place != Done && limit <= |session.eventBuffer|
      modifies this, session`newEvent
      ensures View() == Resumed(old(session.View()), old(View()), false)
      ensures out == old(out) + sent && |sent| <= 1
      ensures session.newEvent == (old(session.newEvent) && place != Waiting)
    {
      sent := [];
      if place == Yielded {
        cursor := cursor + 1;
      } else {
        limit := |session.eventBuffer|;
      }
      if cursor < limit {
        sent := [session.eventBuffer[cursor]];
        out := out + sent;
        place := Yielded;
      } else if session.status in {Completed, Failed} {
        place := Done;
      } else {
        session.newEvent := false;
        place := Waiting;
      }
    }

    method TimeOut()
      requires place == Waiting
      modifies this
      ensures View() == old(View()).(place := Heartbeat)
    {
      place := Heartbeat;
    }
  }

  // ---------------------------------------------------------------------------
  // One pipeline, any number of clients
  // ---------------------------------------------------------------------------

  /**
   A client: the cursor it first asked for, its open connection, how much of that connection's output
   reached it, and all it received over all its connections.
   */
  datatype Client = Client(base: nat, reader: Reader, arrived: nat, received: seq<Event>)

  datatype World = World(session: Session, clients: seq<Client>)

  datatype Step =
    | Emit(data: string)
    | Finish(status: Status, data: string)
    | Cancel
    | Join(cursor: nat)
    | Resume(client: nat)
    | TimeOut(client: nat)
    | Arrive(client: nat)
    | Reconnect(client: nat)

  function LastId(c: Client): int {
    if c.received == [] then c.base - 1 else c.received[|c.received| - 1].id
  }

  function Cursor(lastEventId: int): nat {
    if lastEventId < 0 then 0 else lastEventId + 1
  }

  predicate Going(s: Session) {
    s.status == Processing
  }

  function Act(s: Session, c: Client, step: Step, mended: bool): Client {
    match step
    case Resume(_) => c.(reader := Resumed(s, c.reader, mended))
    case TimeOut(_) => if c.reader.place == Waiting then c.(reader := c.reader.(place := Heartbeat)) else c
    case Arrive(_) =>
      if c.arrived < |c.reader.out|
      then c.(arrived := c.arrived + 1, received := c.received + [c.reader.out[c.arrived]]) else c
    case _ => Client(c.base, Opened(Cursor(LastId(c))), 0, c.received)
  }

  function Move(w: World, step: Step, mended: bool): World {
    match step
    case Emit(data) => if Going(w.session) then w.(session := Emitted(w.session, data)) else w
    case Finish(status, data) =>
      if Going(w.session) && status != Processing
      then w.(session := Emitted(w.session.(status := status), data)) else w
    case Cancel => if Going(w.session) then w.(session := w.session.(status := Failed, newEvent := true)) else w
    case Join(cursor) => w.(clients := w.clients + [Client(cursor, Opened(cursor), 0, [])])
    case _ =>
      var i := step.client;
      if i < |w.clients| then
        var c := Act(w.session, w.clients[i], step, mended);
        var woken := w.session.newEvent && !(step.Resume? && c.reader.place == Waiting);
        World(w.session.(newEvent := woken), w.clients[i := c])
      else w
  }

  function Moves(w: World, steps: seq<Step>, mended: bool): World
    decreases |steps|
  {
    if steps == [] then w else Moves(Move(w, steps[0], mended), steps[1..], mended)
  }

  function Start(data: string): World {
    World(Started(data), [])
  }

  // ---------------------------------------------------------------------------
  // What every run keeps
  // ---------------------------------------------------------------------------

  ghost predicate Numbered(s: Session) {
    s.counter == |s.buffer| && s.buffer != [] && forall i | 0 <= i < |s.buffer| :: s.buffer[i].id == i
  }

  predicate IsSlice(buffer: seq<Event>, start: nat, out: seq<Event>) {
    forall i | 0 <= i < |out| :: start + i < |buffer| && out[i] == buffer[start + i]
  }

  ghost predicate ReaderOk(s: Session, r: Reader, mended: bool) {
    r.start <= r.cursor && r.limit <= |s.buffer|
    && IsSlice(s.buffer, r.start, r.out)
    && r.start + |r.out| == r.cursor + (if r.place == Yielded then 1 else 0)
    && (r.place == Yielded ==> r.cursor < r.limit)
    && (r.place == Top ==> r.out == [])
    && (r.place in {Waiting, Heartbeat, Done} ==> r.limit <= r.cursor && (r.cursor == r.limit || r.out == []))
    && (r.place == Done ==> s.status != Processing && (mended ==> |s.buffer| <= r.cursor))
  }

  ghost predicate ClientOk(s: Session, c: Client, mended: bool) {
    ReaderOk(s, c.reader, mended)
    && c.arrived <= |c.reader.out| && c.reader.start + c.arrived == c.base + |c.received|
    && IsSlice(s.buffer, c.base, c.received)
  }

  ghost predicate Valid(w: World, mended: bool) {
    Numbered(w.session) && forall i | 0 <= i < |w.clients| :: ClientOk(w.session, w.clients[i], mended)
  }

  lemma ResumeKeeps(s: Session, r: Reader, mended: bool)
    requires ReaderOk(s, r, mended)
    ensures ReaderOk(s, Resumed(s, r, mended), mended)
  {
  }

  lemma ActKeeps(s: Session, c: Client, step: Step, mended: bool)
    requires Numbered(s) && ClientOk(s, c, mended)
    ensures ClientOk(s, Act(s, c, step, mended), mended)
  {
    hide Resumed;
    if step.Resume? {
      ResumeKeeps(s, c.reader, mended);
      ResumeGrows(s, c.reader, mended);
    } else if !step.TimeOut? && !step.Arrive? && c.received != [] {
      var last := |c.received| - 1;
      SliceAt(s.buffer, c.base, c.received, last);
    }
  }

  lemma ResumeGrows(s: Session, r: Reader, mended: bool)
    ensures |r.out| <= |Resumed(s, r, mended).out| && Resumed(s, r, mended).start == r.start
  {
  }

  /** A longer buffer, or a terminal status, disturbs no reader. */
  lemma GrowKeeps(s: Session, t: Session, c: Client, mended: bool)
    requires ClientOk(s, c, mended) && Going(s)
    requires |s.buffer| <= |t.buffer| && forall i | 0 <= i < |s.buffer| :: t.buffer[i] == s.buffer[i]
    ensures ClientOk(t, c, mended)
  {
  }

  lemma FlagKeeps(s: Session, c: Client, mended: bool, flag: bool)
    requires ClientOk(s, c, mended)
    ensures ClientOk(s.(newEvent := flag), c, mended)
  {
  }

  lemma MoveKeeps(w: World, step: Step, mended: bool)
    requires Valid(w, mended)
    ensures Valid(Move(w, step, mended), mended)
  {
    hide ClientOk, Act;
    var x := Move(w, step, mended);
    forall i | 0 <= i < |x.clients|
      ensures ClientOk(x.session, x.clients[i], mended)
    {
      if step.Join? {
        assert ClientOk(w.session, Client(step.cursor, Opened(step.cursor), 0, []), mended) by {
          JoinOk(w.session, step.cursor, mended);
        }
      } else if step.Emit? || step.Finish? || step.Cancel? {
        if Going(w.session) {
          GrowKeeps(w.session, x.session, w.clients[i], mended);
        }
      } else if step.client < |w.clients| {
        ActKeeps(w.session, w.clients[step.client], step, mended);
        FlagKeeps(w.session, x.clients[i], mended, x.session.newEvent);
      }
    }
  }

  lemma JoinOk(s: Session, cursor: nat, mended: bool)
    ensures ClientOk(s, Client(cursor, Opened(cursor), 0, []), mended)
  {
  }

  lemma {:induction false} RunsValid(w: World, steps: seq<Step>, mended: bool)
    requires Valid(w, mended)
    ensures Valid(Moves(w, steps, mended), mended)
    decreases |steps|
  {
    hide Valid, Move;
    if steps != [] {
      MoveKeeps(w, steps[0], mended);
      RunsValid(Move(w, steps[0], mended), steps[1..], mended);
    }
  }

  /** In every run the event at index `i` carries id `i`, and the counter is the buffer's length. */
  lemma IdsAreIndices(data: string, steps: seq<Step>)
    ensures Numbered(Moves(Start(data), steps, false).session)
  {
    RunsValid(Start(data), steps, false);
  }

  /**
   In every run each client has received, over all its connections, the events from its first cursor on:
   every one once, in order, none skipped.
   */
  lemma ReceivedOnceInOrder(data: string, steps: seq<Step>, i: nat)
    requires i < |Moves(Start(data), steps, false).clients|
    ensures var w := Moves(Start(data), steps, false);
            var c := w.clients[i];
            c.received == [] || (c.base + |c.received| <= |w.session.buffer|
                                 && c.received == w.session.buffer[c.base..c.base + |c.received|])
  {
    RunsValid(Start(data), steps, false);
    var w := Moves(Start(data), steps, false);
    assert ClientOk(w.session, w.clients[i], false);
    if w.clients[i].received != [] {
      SliceIs(w.session.buffer, w.clients[i].base, w.clients[i].received);
    }
  }

  lemma SliceAt(buffer: seq<Event>, start: nat, out: seq<Event>, i: nat)
    requires IsSlice(buffer, start, out) && i < |out|
    ensures start + i < |buffer| && out[i] == buffer[start + i]
  {
    var e := out[i];
  }

  lemma SliceIs(buffer: seq<Event>, start: nat, out: seq<Event>)
    requires IsSlice(buffer, start, out) && out != []
    ensures start + |out| <= |buffer| && out == buffer[start..start + |out|]
  {
    var last := |out| - 1;
    SliceAt(buffer, start, out, last);
    assert forall i | 0 <= i < |out| :: out[i] == buffer[start..start + |out|][i];
  }

  // ---------------------------------------------------------------------------
  // What one connection delivers before it stops
  // ---------------------------------------------------------------------------

  lemma EndedSlice(s: Session, r: Reader)
    requires ReaderOk(s, r, false) && r.place == Done && r.start <= r.limit
    ensures r.out == s.buffer[r.start..r.limit]
  {
    if r.out != [] {
      SliceIs(s.buffer, r.start, r.out);
    }
  }

  /**
   In every run, a connection that ended did so after the pipeline did, having sent exactly the events from
   its start up to the buffer length it last read. It left nothing unsent if and only if nothing was appended
   after that reading, or it was opened at or beyond the end of the buffer.
   */
  lemma EndedExactly(data: string, steps: seq<Step>, i: nat)
    requires var w := Moves(Start(data), steps, false);
             i < |w.clients| && w.clients[i].reader.place == Done
    ensures var w := Moves(Start(data), steps, false);
            var r := w.clients[i].reader;
            !Going(w.session) && r.limit <= |w.session.buffer|
            && r.out == (if r.start <= r.limit then w.session.buffer[r.start..r.limit] else [])
            && (|w.session.buffer| <= r.start + |r.out|
                <==> r.limit == |w.session.buffer| || |w.session.buffer| <= r.start)
  {
    RunsValid(Start(data), steps, false);
    var w := Moves(Start(data), steps, false);
    var r := w.clients[i].reader;
    assert ClientOk(w.session, w.clients[i], false);
    if r.start <= r.limit {
      EndedSlice(w.session, r);
    }
  }

  /** The mended reader never stops early, in any run. */
  lemma MendedDeliversAll(data: string, steps: seq<Step>, i: nat)
    requires var w := Moves(Start(data), steps, true);
             i < |w.clients| && w.clients[i].reader.place == Done
    ensures var w := Moves(Start(data), steps, true);
            var r := w.clients[i].reader;
            w.session.status != Processing
            && r.out == if r.start < |w.session.buffer| then w.session.buffer[r.start..] else []
  {
    RunsValid(Start(data), steps, true);
    var w := Moves(Start(data), steps, true);
    var r := w.clients[i].reader;
    assert ClientOk(w.session, w.clients[i], true);
    if r.out != [] {
      SliceIs(w.session.buffer, r.start, r.out);
    }
  }

  function ResumeTimes(s: Session, r: Reader, n: nat): Reader
    decreases n
  {
    if n == 0 then r else ResumeTimes(s, Resumed(s, r, false), n - 1)
  }

  lemma {:induction false} Finishes(s: Session, r: Reader)
    requires s.status != Processing && ReaderOk(s, r, false) && r.place == Yielded && r.limit == |s.buffer|
    ensures var e := ResumeTimes(s, r, r.limit - r.cursor);
            e.place == Done && e.limit == |s.buffer| && ReaderOk(s, e, false) && e.start == r.start
    decreases r.limit - r.cursor
  {
    ResumeKeeps(s, r, false);
    var next := Resumed(s, r, false);
    if r.cursor + 1 < r.limit {
      Finishes(s, next);
    } else {
      assert ResumeTimes(s, next, 0) == next;
    }
  }

  /**
   A connection opened after the status became terminal sends everything from its cursor on and stops, in
   one step more than there are events to send.
   */
  lemma OpenedAfterEnd(s: Session, cursor: nat)
    requires s.status != Processing && cursor <= |s.buffer|
    ensures var e := ResumeTimes(s, Opened(cursor), |s.buffer| - cursor + 1);
            e.place == Done && e.out == s.buffer[cursor..]
  {
    var r := Opened(cursor);
    ResumeKeeps(s, r, false);
    var next := Resumed(s, r, false);
    if cursor < |s.buffer| {
      Finishes(s, next);
      EndedSlice(s, ResumeTimes(s, next, |s.buffer| - cursor));
    } else {
      assert ResumeTimes(s, next, 0) == next;
    }
  }

  /** Once terminal the session is frozen, so the readings above stay true for the rest of the run. */
  lemma {:induction false} FrozenAfterEnd(w: World, steps: seq<Step>, mended: bool)
    requires !Going(w.session)
    ensures var x := Moves(w, steps, mended).session;
            x.buffer == w.session.buffer && x.status == w.session.status && x.counter == w.session.counter
    decreases |steps|
  {
    hide Act;
    if steps != [] {
      FrozenAfterEnd(Move(w, steps[0], mended), steps[1..], mended);
    }
  }

  /**
   After the end, one more connection is enough: whatever a client still lacks, reconnecting with its last
   id and reading to the stop sends exactly that.
   */
  lemma OneMoreConnection(data: string, steps: seq<Step>, i: nat)
    requires var w := Moves(Start(data), steps, false);
             i < |w.clients| && !Going(w.session) && w.clients[i].base <= |w.session.buffer|
    ensures var w := Moves(Start(data), steps, false);
            var c := w.clients[i];
            var r := Act(w.session, c, Reconnect(i), false).reader;
            exists n :: var e := ResumeTimes(w.session, r, n);
              e.place == Done && c.received + e.out == w.session.buffer[c.base..]
  {
    RunsValid(Start(data), steps, false);
    var w := Moves(Start(data), steps, false);
    hide Moves, ResumeTimes;
    assert ClientOk(w.session, w.clients[i], false);
    var n := ReconnectCompletes(w.session, w.clients[i], i);
  }

  lemma ReconnectCompletes(s: Session, c: Client, i: nat) returns (n: nat)
    requires Numbered(s) && ClientOk(s, c, false) && !Going(s) && c.base <= |s.buffer|
    ensures var e := ResumeTimes(s, Act(s, c, Reconnect(i), false).reader, n);
            e.place == Done && c.received + e.out == s.buffer[c.base..]
  {
    hide ResumeTimes;
    if c.received != [] {
      SliceIs(s.buffer, c.base, c.received);
      assert LastId(c) == s.buffer[c.base + |c.received| - 1].id;
    }
    var from := c.base + |c.received|;
    assert Act(s, c, Reconnect(i), false).reader == Opened(from);
    OpenedAfterEnd(s, from);
    n := |s.buffer| - from + 1;
    assert c.received + s.buffer[from..] == s.buffer[c.base..];
  }

  // ---------------------------------------------------------------------------
  // A connection can end early, or sleep on news
  // ---------------------------------------------------------------------------

  lemma MovesFour(w: World, a: Step, b: Step, c: Step, d: Step)
    ensures Moves(w, [a, b, c, d], false)
            == Move(Move(Move(Move(w, a, false), b, false), c, false), d, false)
  {
    hide Move;
    var v := Move(w, a, false);
    var x := Move(v, b, false);
    var y := Move(x, c, false);
    assert [a, b, c, d][1..] == [b, c, d] && [b, c, d][1..] == [c, d] && [c, d][1..] == [d] && [d][1..] == [];
    assert Moves(y, [d], false) == Moves(Move(y, d, false), [], false);
    assert Moves(x, [c, d], false) == Moves(y, [d], false);
    assert Moves(v, [b, c, d], false) == Moves(x, [c, d], false);
  }

  /** The pipeline ends while the reader hands over an event: the connection stops without the last one. */
  lemma EndsEarly(data: string, done: string)
    ensures exists steps ::
              var w := Moves(Start(data), steps, false);
              |w.clients| == 1 && w.clients[0].reader.place == Done
              && w.session.buffer == [Event(0, data), Event(1, done)]
              && w.clients[0].reader.out == [Event(0, data)]
  {
    var steps := [Join(0), Resume(0), Finish(Completed, done), Resume(0)];
    MovesFour(Start(data), Join(0), Resume(0), Finish(Completed, done), Resume(0));
    var w := Moves(Start(data), steps, false);
    assert w.session.buffer == [Event(0, data), Event(1, done)];
  }

  /** An event appended while the reader hands one over can have its wake-up cleared before it is read. */
  lemma LostWakeUp(data: string, more: string)
    ensures exists steps ::
              var w := Moves(Start(data), steps, false);
              |w.clients| == 1 && w.clients[0].reader.place == Waiting && !w.session.newEvent
              && w.clients[0].reader.cursor < |w.session.buffer|
  {
    var steps := [Join(0), Resume(0), Emit(more), Resume(0)];
    MovesFour(Start(data), Join(0), Resume(0), Emit(more), Resume(0));
    assert Moves(Start(data), steps, false).clients[0].reader.cursor == 1;
  }

  /**
   In every run, a reader that goes to wait clears the wake-up of an event it has not read if and only if an
   event was appended after it last read the buffer's length.
   */
  lemma SleepsOnNewsIff(data: string, steps: seq<Step>, i: nat)
    requires var w := Moves(Start(data), steps, false);
             i < |w.clients| && Resumed(w.session, w.clients[i].reader, false).place == Waiting
    ensures var w := Moves(Start(data), steps, false);
            var x := Move(w, Resume(i), false);
            var r := x.clients[i].reader;
            r.place == Waiting && !x.session.newEvent
            && (r.cursor < |x.session.buffer| <==> r.limit < |x.session.buffer|)
  {
    RunsValid(Start(data), steps, false);
    var w := Moves(Start(data), steps, false);
    assert ClientOk(w.session, w.clients[i], false);
    ResumeKeeps(w.session, w.clients[i].reader, false);
  }

  /**
   As long as no reader goes to wait, whatever is appended leaves the wake-up flag up; so does the end of the
   pipeline. A lone reader that waits is woken by anything that happens after it went to wait.
   */
  lemma {:induction false} NewsRaisesFlag(w: World, steps: seq<Step>, mended: bool)
    requires forall i | 0 <= i < |steps| :: !steps[i].Resume?
    ensures var x := Moves(w, steps, mended);
            |w.session.buffer| <= |x.session.buffer|
            && (w.session.newEvent ==> x.session.newEvent)
            && (|w.session.buffer| < |x.session.buffer| ==> x.session.newEvent)
            && (Going(w.session) && !Going(x.session) ==> x.session.newEvent)
    decreases |steps|
  {
    hide Act;
    if steps != [] {
      NewsRaisesFlag(Move(w, steps[0], mended), steps[1..], mended);
    }
  }

  /** The heartbeat bounds that: after it the reader sends the next event if there is one. */
  lemma HeartbeatCatchesUp(s: Session, c: Client, i: nat)
    requires ClientOk(s, c, false) && c.reader.place == Waiting && c.reader.cursor < |s.buffer|
    ensures var r := Act(s, Act(s, c, TimeOut(i), false), Resume(i), false).reader;
            r.place == Yielded && r.out == c.reader.out + [s.buffer[c.reader.cursor]] && r.limit == |s.buffer|
  {
  }
}
