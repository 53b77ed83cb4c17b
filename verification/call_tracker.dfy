/**
 * The call-status tracker: one polling session per call id in the process-wide map
 * `activeCalls`. Each timer tick asks the provider for the call's status and, only when it
 * differs from the session's last status, records it, writes it to the call store, sends
 * `{callId, status}` to the session's window, raises a notification for `ringing`,
 * `answered` and `ended`, and on `ended` clears the timer and forgets the session.
 * Ticks are serialized steps; the provider's answer and the failures of the later steps
 * are parameters.
 */
module CallTracker {
  import opened Common
  import opened EqivoService
  import CallDb

  /** A browser window that status events are sent to. */
  type WindowId = nat

  /** The entry `activeCalls` holds for a call: taken when tracking starts and never updated. */
  datatype Session = Session(id: string, lastStatus: string, interval: nat)

  /** What a session's timer callback closes over: its window and the live last status. */
  datatype Poller = Poller(win: WindowId, lastStatus: string)

  /** A `call:status` message `{callId, status}` sent to a window. */
  datatype StatusEvent = StatusEvent(win: WindowId, callId: string, status: string)

  /** A status written to the call store. */
  datatype Write = Write(callId: string, status: string)

  /** Which step of a changing tick throws, if any: the store write or the send to the window. */
  datatype Fault = NoFault | WriteFault | SendFault

  /** The notification a status change raises. */
  function NoticeFor(status: string): (n: Option<Notice>)
    ensures n.Some? <==> status in {Ringing, Answered, Ended}
  {
    if status == Ringing then Some(Notice("Call Ringing", "The call is ringing..."))
    else if status == Answered then Some(Notice("Call Answered", "The call has been answered"))
    else if status == Ended then Some(Notice("Call Ended", "The call has ended"))
    else None
  }

  /**
   * The statuses a session starting from `last` reports for successive successful queries
   * `qs`: a query equal to the last status is skipped, and reporting stops after `ended`.
   */
  function Emitted(last: string, qs: seq<string>): (e: seq<string>)
    ensures |e| <= |qs|
    ensures forall i :: 0 <= i < |e| ==> e[i] in qs
    decreases |qs|
  {
    if qs == [] then []
    else if qs[0] == last then Emitted(last, qs[1..])
    else if qs[0] == Ended then [Ended]
    else [qs[0]] + Emitted(qs[0], qs[1..])
  }

  /** `qs` with every element equal to its predecessor (or, for the first, to `last`) dropped. */
  function Compress(last: string, qs: seq<string>): seq<string>
    decreases |qs|
  {
    if qs == [] then []
    else if qs[0] == last then Compress(last, qs[1..])
    else [qs[0]] + Compress(qs[0], qs[1..])
  }

  /** The prefix of `s` up to and including its first `ended`; all of `s` when it has none. */
  function ThroughEnded(s: seq<string>): seq<string> {
    if s == [] then []
    else if s[0] == Ended then [Ended]
    else [s[0]] + ThroughEnded(s[1..])
  }

  /** `a` is obtained from `b` by deleting elements. */
  predicate SubsequenceOf(a: seq<string>, b: seq<string>)
    decreases |b|
  {
    if a == [] then true
    else if b == [] then false
    else (a[0] == b[0] && SubsequenceOf(a[1..], b[1..])) || SubsequenceOf(a, b[1..])
  }

  /** The reported statuses are the queried ones, consecutive duplicates dropped, cut after the first `ended`. */
  lemma {:induction false} EmittedIsCompressedThroughEnded(last: string, qs: seq<string>)
    ensures Emitted(last, qs) == ThroughEnded(Compress(last, qs))
    decreases |qs|
  {
    if qs != [] {
      if qs[0] == last {
        EmittedIsCompressedThroughEnded(last, qs[1..]);
      } else if qs[0] != Ended {
        EmittedIsCompressedThroughEnded(qs[0], qs[1..]);
        var c := Compress(qs[0], qs[1..]);
        assert ([qs[0]] + c)[1..] == c;
      }
    }
  }

  /** No reported status repeats its predecessor, and the first differs from the starting status. */
  lemma {:induction false} EmittedHasNoRepeats(last: string, qs: seq<string>)
    ensures var e := Emitted(last, qs);
            (e != [] ==> e[0] != last) && forall i :: 0 <= i < |e| - 1 ==> e[i] != e[i + 1]
    decreases |qs|
  {
    if qs != [] {
      if qs[0] == last {
        EmittedHasNoRepeats(last, qs[1..]);
      } else if qs[0] != Ended {
        EmittedHasNoRepeats(qs[0], qs[1..]);
        var rest := Emitted(qs[0], qs[1..]);
        var e := [qs[0]] + rest;
        forall i | 0 <= i < |e| - 1 ensures e[i] != e[i + 1] {
          if i > 0 { assert e[i] == rest[i - 1] && e[i + 1] == rest[i]; }
        }
      }
    }
  }

  /** The reported statuses are taken, in order, from the queried ones. */
  lemma {:induction false} EmittedIsSubsequence(last: string, qs: seq<string>)
    ensures SubsequenceOf(Emitted(last, qs), qs)
    decreases |qs|
  {
    if qs != [] {
      if qs[0] == last {
        EmittedIsSubsequence(last, qs[1..]);
        SubsequenceOfDropFront(Emitted(last, qs[1..]), qs);
      } else if qs[0] == Ended {
        assert SubsequenceOf([], qs[1..]);
      } else {
        EmittedIsSubsequence(qs[0], qs[1..]);
        var e := [qs[0]] + Emitted(qs[0], qs[1..]);
        assert e[1..] == Emitted(qs[0], qs[1..]);
      }
    }
  }

  lemma SubsequenceOfDropFront(a: seq<string>, b: seq<string>)
    requires b != [] && SubsequenceOf(a, b[1..])
    ensures SubsequenceOf(a, b)
  {
  }

  /** `ended`, once reported, is the last status reported, and is reported once. */
  lemma {:induction false} EmittedStopsAtEnded(last: string, qs: seq<string>)
    ensures var e := Emitted(last, qs);
            Ended in e ==> e[|e| - 1] == Ended && Ended !in e[..|e| - 1]
    decreases |qs|
  {
    if qs != [] {
      if qs[0] == last {
        EmittedStopsAtEnded(last, qs[1..]);
      } else if qs[0] != Ended {
        EmittedStopsAtEnded(qs[0], qs[1..]);
        var rest := Emitted(qs[0], qs[1..]);
        var e := [qs[0]] + rest;
        if Ended in e {
          assert Ended in rest;
          assert e[..|e| - 1] == [qs[0]] + rest[..|rest| - 1];
        }
      }
    }
  }

  /**
   * Polling a simulated call: the first tick fires 4000 ms after tracking starts, when the
   * call is at least that old, so the session reports `ended` at once and nothing before it.
   */
  lemma MockPollingReportsOnlyEnded(createdAt: nat, rand: string, tickTimes: seq<int>)
    requires createdAt > 0 && '-' !in rand
    requires |tickTimes| > 0 && forall i :: 0 <= i < |tickTimes| ==> tickTimes[i] >= createdAt + 4000
    ensures Emitted(Initiated, seq(|tickTimes|, i requires 0 <= i < |tickTimes| =>
                                     GetCallStatusMock(MockId(createdAt, rand), tickTimes[i]))) == [Ended]
  {
    MockIdRoundTrip(createdAt, rand, tickTimes[0]);
  }

  /** The events a session sends for the reported statuses `ss`. */
  function EventsFor(win: WindowId, id: string, ss: seq<string>): (r: seq<StatusEvent>)
    ensures |r| == |ss| && forall i :: 0 <= i < |ss| ==> r[i] == StatusEvent(win, id, ss[i])
  {
    if ss == [] then [] else EventsFor(win, id, ss[..|ss| - 1]) + [StatusEvent(win, id, ss[|ss| - 1])]
  }

  /** The store writes a session makes for the reported statuses `ss`. */
  function WritesFor(id: string, ss: seq<string>): (r: seq<Write>)
    ensures |r| == |ss| && forall i :: 0 <= i < |ss| ==> r[i] == Write(id, ss[i])
  {
    if ss == [] then [] else WritesFor(id, ss[..|ss| - 1]) + [Write(id, ss[|ss| - 1])]
  }

  /** The notifications raised for the reported statuses `ss`. */
  function NoticesFor(ss: seq<string>): seq<Notice> {
    if ss == [] then []
    else
      var n := NoticeFor(ss[|ss| - 1]);
      NoticesFor(ss[..|ss| - 1]) + (if n.Some? then [n.value] else [])
  }

  /** Removing a key forgets any value it was just given. */
  lemma RemoveAfterUpdate(m: map<string, Poller>, k: string, v: Poller)
    ensures m[k := v] - {k} == m - {k}
  {
  }

  /** Removing a key twice is removing it once. */
  lemma RemoveTwice<V>(m: map<string, V>, k: string)
    ensures (m - {k}) - {k} == m - {k}
  {
  }

  /** The timer handles of the sessions in `sessions`. */
  ghost function Timers(sessions: map<string, Session>): set<nat> {
    set id | id in sessions :: sessions[id].interval
  }

  lemma TimersAdd(sessions: map<string, Session>, id: string, s: Session)
    requires id !in sessions
    ensures Timers(sessions[id := s]) == Timers(sessions) + {s.interval}
  {
    var m := sessions[id := s];
    forall t | t in Timers(m) ensures t in Timers(sessions) + {s.interval} {
      var k :| k in m && m[k].interval == t;
      if k != id { assert t in Timers(sessions); }
    }
    forall t | t in Timers(sessions) ensures t in Timers(m) {
      var k :| k in sessions && sessions[k].interval == t;
      assert m[k].interval == t;
    }
    assert m[id].interval == s.interval;
  }

  lemma TimersRemove(sessions: map<string, Session>, id: string)
    requires id in sessions
    requires forall a, b :: a in sessions && b in sessions && a != b ==> sessions[a].interval != sessions[b].interval
    ensures Timers(sessions - {id}) == Timers(sessions) - {sessions[id].interval}
  {
    var m := sessions - {id};
    forall t | t in Timers(sessions) - {sessions[id].interval} ensures t in Timers(m) {
      var k :| k in sessions && sessions[k].interval == t;
      assert k != id;
      assert m[k].interval == t;
    }
  }

  /** The process-wide tracker: `activeCalls` and the state of the live timers. */
  class Tracker {
    /** The call store the sessions write to. */
    const store: CallDb.CallStore
    /** `activeCalls`: call id to the snapshot taken when tracking started. */
    var activeCalls: map<string, Session>
    /** The closure state of each session's timer callback. */
    var pollers: map<string, Poller>
    /** The interval timers that have not been cleared. */
    var running: set<nat>
    /** The handle the next timer gets. */
    var nextTimer: nat
    ghost var writes: seq<Write>
    ghost var events: seq<StatusEvent>
    ghost var notices: seq<Notice>

    ghost predicate Valid()
      reads this
    {
      && pollers.Keys == activeCalls.Keys
      && (forall id :: id in activeCalls ==>
            activeCalls[id].id == id && activeCalls[id].lastStatus == Initiated && activeCalls[id].interval < nextTimer)
      && (forall a, b :: a in activeCalls && b in activeCalls && a != b ==>
            activeCalls[a].interval != activeCalls[b].interval)
      && running == Timers(activeCalls)
    }

    constructor (store: CallDb.CallStore)
      ensures Valid() && this.store == store
      ensures activeCalls == map[] && running == {} && writes == [] && events == [] && notices == []
    {
      this.store := store;
      activeCalls, pollers, running, nextTimer := map[], map[], {}, 0;
      writes, events, notices := [], [], [];
    }

    /** True when a tick with this answer reports a change for this call. */
    predicate Changes(id: string, queried: Result<string>)
      reads this
    {
      id in pollers && queried.Ok? && queried.value != pollers[id].lastStatus
    }

    /** `trackCall`: a new session with last status `initiated` and a new timer; no-op when already tracked. */
    method Start(id: string, win: WindowId)
      requires Valid()
      modifies this
      ensures Valid()
      ensures old(id in activeCalls) ==> unchanged(this)
      ensures old(id !in activeCalls) ==>
                && activeCalls == old(activeCalls)[id := Session(id, Initiated, old(nextTimer))]
                && pollers == old(pollers)[id := Poller(win, Initiated)]
                && old(nextTimer) !in old(running) && running == old(running) + {old(nextTimer)}
                && nextTimer == old(nextTimer) + 1
                && writes == old(writes) && events == old(events) && notices == old(notices)
    {
      if id in activeCalls {
        return;
      }
      var interval := nextTimer;
      var session := Session(id, Initiated, interval);
      assert interval !in running by {
        assert forall k :: k in activeCalls ==> activeCalls[k].interval != interval;
      }
      TimersAdd(activeCalls, id, session);
      nextTimer := nextTimer + 1;
      activeCalls := activeCalls[id := session];
      pollers := pollers[id := Poller(win, Initiated)];
      running := running + {interval};
    }

    /** `stopTracking`: clears the session's timer and forgets it; an untracked id changes nothing. */
    method Stop(id: string)
      requires Valid()
      modifies this
      ensures Valid()
      ensures id !in activeCalls
      ensures activeCalls == old(activeCalls) - {id} && pollers == old(pollers) - {id}
      ensures running == if id in old(activeCalls) then old(running) - {old(activeCalls[id].interval)} else old(running)
      ensures nextTimer == old(nextTimer)
      ensures writes == old(writes) && events == old(events) && notices == old(notices)
    {
      if id in activeCalls {
        TimersRemove(activeCalls, id);
        running := running - {activeCalls[id].interval};
        activeCalls := activeCalls - {id};
        pollers := pollers - {id};
      }
    }

    /**
     * One timer tick of the session for `id`, given the provider's answer and which later
     * step throws. The catch swallows every error; the live last status is set before the
     * write, so a tick that fails after it is not repeated.
     */
    method Tick(id: string, queried: Result<string>, fault: Fault)
      requires Valid()
      modifies this, store
      ensures Valid()
      ensures !old(Changes(id, queried)) ==> unchanged(this) && unchanged(store)
      ensures old(Changes(id, queried)) ==>
                var s := queried.value;
                var ends := fault == NoFault && s == Ended;
                && writes == old(writes) + (if fault == WriteFault then [] else [Write(id, s)])
                && store.rows == (if fault == WriteFault then old(store.rows)
                                  else CallDb.WithStatus(old(store.rows), id, s))
                && events == old(events) + (if fault == NoFault then [StatusEvent(old(pollers[id].win), id, s)] else [])
                && notices == old(notices) + (if fault == NoFault && NoticeFor(s).Some? then [NoticeFor(s).value] else [])
                && activeCalls == (if ends then old(activeCalls) - {id} else old(activeCalls))
                && pollers == (if ends then old(pollers) - {id} else old(pollers)[id := Poller(old(pollers[id].win), s)])
                && running == (if ends then old(running) - {old(activeCalls[id].interval)} else old(running))
                && nextTimer == old(nextTimer)
      ensures id in old(activeCalls) && id !in activeCalls ==> queried == Ok(Ended) && fault == NoFault
    {
      // a cleared timer never fires; a failed query is swallowed; an unchanged status does nothing
      if Changes(id, queried) {
        Report(id, queried.value, fault);
      }
    }

    /** The body of a tick whose status differs from the live last status. */
    method Report(id: string, status: string, fault: Fault)
      requires Valid() && id in pollers && status != pollers[id].lastStatus
      modifies this, store
      ensures Valid()
      ensures nextTimer == old(nextTimer)
      ensures writes == old(writes) + (if fault == WriteFault then [] else [Write(id, status)])
      ensures store.rows == if fault == WriteFault then old(store.rows) else CallDb.WithStatus(old(store.rows), id, status)
      ensures fault != NoFault ==>
                && events == old(events) && notices == old(notices)
                && activeCalls == old(activeCalls) && running == old(running)
                && pollers == old(pollers)[id := Poller(old(pollers[id].win), status)]
      ensures fault == NoFault ==>
                && events == old(events) + [StatusEvent(old(pollers[id].win), id, status)]
                && notices == old(notices) + (if NoticeFor(status).Some? then [NoticeFor(status).value] else [])
                && activeCalls == (if status == Ended then old(activeCalls) - {id} else old(activeCalls))
                && pollers == (if status == Ended then old(pollers) - {id}
                               else old(pollers)[id := Poller(old(pollers[id].win), status)])
                && running == (if status == Ended then old(running) - {old(activeCalls[id].interval)} else old(running))
    {
      var poller := pollers[id];
      pollers := pollers[id := poller.(lastStatus := status)];
      if fault != WriteFault {
        store.UpdateCallStatus(id, status);
        writes := writes + [Write(id, status)];
        if fault == NoFault {
          RemoveAfterUpdate(old(pollers), id, poller.(lastStatus := status));
          Announce(id, status, poller.win);
        }
      }
    }

    /** Sends the change to the window, raises its notification, and on `ended` stops the session. */
    method Announce(id: string, status: string, win: WindowId)
      requires Valid() && id in activeCalls
      modifies this
      ensures Valid()
      ensures writes == old(writes) && nextTimer == old(nextTimer)
      ensures events == old(events) + [StatusEvent(win, id, status)]
      ensures notices == old(notices) + (if NoticeFor(status).Some? then [NoticeFor(status).value] else [])
      ensures status == Ended ==>
                && activeCalls == old(activeCalls) - {id} && pollers == old(pollers) - {id}
                && running == old(running) - {old(activeCalls[id].interval)}
      ensures status != Ended ==> activeCalls == old(activeCalls) && pollers == old(pollers) && running == old(running)
    {
      events := events + [StatusEvent(win, id, status)];
      var notice := NoticeFor(status);
      if notice.Some? {
        notices := notices + [notice.value];
      }
      if status == Ended {
        // clearInterval and delete, as `stopTracking` does
        Stop(id);
      }
    }

    /** One tick that asks the provider selected by the mode flag at the time of the tick. */
    method Poll(id: string, mode: ServiceMode, http: HttpOutcome<StatusResponse>, now: int, fault: Fault)
      requires Valid()
      modifies this, store
      ensures Valid()
      ensures var q := StatusWithMode(old(mode.mockModeEnabled), id, http, now);
              !old(Changes(id, q)) ==> unchanged(this) && unchanged(store)
      ensures var q := StatusWithMode(old(mode.mockModeEnabled), id, http, now);
              old(Changes(id, q)) ==>
                var s := q.value;
                var ends := fault == NoFault && s == Ended;
                && writes == old(writes) + (if fault == WriteFault then [] else [Write(id, s)])
                && store.rows == (if fault == WriteFault then old(store.rows)
                                  else CallDb.WithStatus(old(store.rows), id, s))
                && events == old(events) + (if fault == NoFault then [StatusEvent(old(pollers[id].win), id, s)] else [])
                && notices == old(notices) + (if fault == NoFault && NoticeFor(s).Some? then [NoticeFor(s).value] else [])
                && activeCalls == (if ends then old(activeCalls) - {id} else old(activeCalls))
                && pollers == (if ends then old(pollers) - {id} else old(pollers)[id := Poller(old(pollers[id].win), s)])
                && running == (if ends then old(running) - {old(activeCalls[id].interval)} else old(running))
                && nextTimer == old(nextTimer)
      ensures id in old(activeCalls) && id !in activeCalls ==>
                StatusWithMode(old(mode.mockModeEnabled), id, http, now) == Ok(Ended) && fault == NoFault
    {
      var queried := mode.GetCallStatusWithMode(id, http, now);
      Tick(id, queried, fault);
    }

    /**
     * Successive ticks of a tracked session whose queries all succeed with the statuses
     * `qs`: what is written, sent and notified is exactly `Emitted` of them.
     */
    method RunTicks(id: string, qs: seq<string>)
      requires Valid() && id in activeCalls
      modifies this, store
      ensures Valid()
      ensures var e := Emitted(old(pollers[id].lastStatus), qs);
              && writes == old(writes) + WritesFor(id, e)
              && events == old(events) + EventsFor(old(pollers[id].win), id, e)
              && notices == old(notices) + NoticesFor(e)
              && store.rows == (if e == [] then old(store.rows) else CallDb.WithStatus(old(store.rows), id, e[|e| - 1]))
              && (id in activeCalls <==> Ended !in e)
    ensures activeCalls - {id} == old(activeCalls) - {id} && pollers - {id} == old(pollers) - {id}
    ensures nextTimer == old(nextTimer)
    {
      ghost var win := pollers[id].win;
      ghost var others, otherPollers := activeCalls - {id}, pollers - {id};
      ghost var all := Emitted(pollers[id].lastStatus, qs);
      ghost var writes0, events0, notices0, rows0 := writes, events, notices, store.rows;
      ghost var done: seq<string> := [];
      assert writes == writes0 + WritesFor(id, done) && events == events0 + EventsFor(win, id, done);
      assert notices == notices0 + NoticesFor(done);
      assert qs[0..] == qs;
      var i := 0;
      while i < |qs|
        invariant 0 <= i <= |qs|
        invariant Progress(id, win, all, done, qs[i..], writes0, events0, notices0, rows0)
        invariant activeCalls - {id} == others && pollers - {id} == otherPollers && nextTimer == old(nextTimer)
      {
        assert qs[i..][1..] == qs[i + 1..];
        done := SuccessfulTick(id, qs[i..], win, all, done, writes0, events0, notices0, rows0);
        i := i + 1;
      }
      assert qs[i..] == [];
      assert done == all;
    }

    /**
     * The state of a run of successful ticks for `id` after the statuses `done` were
     * reported, with the queries `rest` still to come and `all` to be reported in total.
     */
    ghost predicate Progress(id: string, win: WindowId, all: seq<string>, done: seq<string>, rest: seq<string>,
                             writes0: seq<Write>, events0: seq<StatusEvent>, notices0: seq<Notice>,
                             rows0: map<string, CallDb.Row>)
      reads this, store
    {
      && Valid()
      && (id in activeCalls ==> pollers[id].win == win && all == done + Emitted(pollers[id].lastStatus, rest))
      && (id !in activeCalls ==> all == done)
      && (id in activeCalls <==> Ended !in done)
      && writes == writes0 + WritesFor(id, done)
      && events == events0 + EventsFor(win, id, done)
      && notices == notices0 + NoticesFor(done)
      && store.rows == (if done == [] then rows0 else CallDb.WithStatus(rows0, id, done[|done| - 1]))
    }

    /** A tick whose query succeeds with `q` keeps a run of ticks in step with `Emitted`. */
    method SuccessfulTick(id: string, pending: seq<string>, ghost win: WindowId, ghost all: seq<string>,
                          ghost done: seq<string>, ghost writes0: seq<Write>, ghost events0: seq<StatusEvent>,
                          ghost notices0: seq<Notice>, ghost rows0: map<string, CallDb.Row>)
      returns (ghost done': seq<string>)
      requires pending != [] && Progress(id, win, all, done, pending, writes0, events0, notices0, rows0)
      modifies this, store
      ensures Progress(id, win, all, done', pending[1..], writes0, events0, notices0, rows0)
      ensures activeCalls - {id} == old(activeCalls) - {id} && pollers - {id} == old(pollers) - {id}
      ensures nextTimer == old(nextTimer)
    {
      var q := pending[0];
      assert pending == [q] + pending[1..];
      if id in activeCalls && q != pollers[id].lastStatus {
        done' := ReportedTick(id, q, pending[1..], win, all, done, writes0, events0, notices0, rows0);
      } else {
        done' := done;
        Tick(id, Ok(q), NoFault);
      }
    }

    /** The case of `SuccessfulTick` where `q` is a change and is reported. */
    method ReportedTick(id: string, q: string, rest: seq<string>, ghost win: WindowId, ghost all: seq<string>,
                        ghost done: seq<string>, ghost writes0: seq<Write>, ghost events0: seq<StatusEvent>,
                        ghost notices0: seq<Notice>, ghost rows0: map<string, CallDb.Row>)
      returns (ghost done': seq<string>)
      requires Progress(id, win, all, done, [q] + rest, writes0, events0, notices0, rows0)
      requires id in activeCalls && q != pollers[id].lastStatus
      modifies this, store
      ensures Progress(id, win, all, done', rest, writes0, events0, notices0, rows0)
      ensures activeCalls - {id} == old(activeCalls) - {id} && pollers - {id} == old(pollers) - {id}
      ensures nextTimer == old(nextTimer)
    {
      done' := done + [q];
      EmittedStep(done, pollers[id].lastStatus, q, rest);
      ReportedLogs(win, id, done, q, writes0, events0, notices0);
      ReportedRows(rows0, id, done, q);
      assert Ended in done' <==> q == Ended;
      ghost var sessions0, pollers0 := activeCalls, pollers;
      // the tick's query differs from the last status, so the tick is `Report`
      Report(id, q, NoFault);
      assert activeCalls - {id} == sessions0 - {id} && pollers - {id} == pollers0 - {id} by {
        if q == Ended {
          RemoveTwice(pollers0, id);
          RemoveTwice(sessions0, id);
        } else {
          RemoveAfterUpdate(pollers0, id, Poller(win, q));
        }
      }
      // the conjuncts of `Progress`, one at a time
      assert Valid();
      if q == Ended {
        assert id !in activeCalls && all == done';
      } else {
        assert id in activeCalls && pollers[id] == Poller(win, q);
        assert all == done' + Emitted(q, rest);
      }
      assert writes == writes0 + WritesFor(id, done');
      assert events == events0 + EventsFor(win, id, done');
      assert notices == notices0 + NoticesFor(done');
      assert store.rows == (if done' == [] then rows0 else CallDb.WithStatus(rows0, id, done'[|done'| - 1]));
    }
  }

  /** The row after one more reported status carries that status. */
  lemma ReportedRows(rows0: map<string, CallDb.Row>, id: string, done: seq<string>, q: string)
    ensures var done' := done + [q];
            done' != [] && done'[|done'| - 1] == q &&
            CallDb.WithStatus(if done == [] then rows0 else CallDb.WithStatus(rows0, id, done[|done| - 1]), id, q)
            == CallDb.WithStatus(rows0, id, done'[|done'| - 1])
  {
    if done != [] {
      CallDb.WithStatusTwice(rows0, id, done[|done| - 1], q);
    }
  }

  /** A query that differs from the last status is reported, and after `ended` nothing is. */
  lemma EmittedStep(done: seq<string>, last: string, q: string, rest: seq<string>)
    requires q != last
    ensures q == Ended ==> done + Emitted(last, [q] + rest) == done + [q]
    ensures q != Ended ==> done + Emitted(last, [q] + rest) == (done + [q]) + Emitted(q, rest)
  {
    assert ([q] + rest)[0] == q && ([q] + rest)[1..] == rest;
    if q != Ended {
      assert Emitted(last, [q] + rest) == [q] + Emitted(q, rest);
      assert done + ([q] + Emitted(q, rest)) == (done + [q]) + Emitted(q, rest);
    }
  }

  /** The logs after one more reported status are the logs so far and that status's entries. */
  lemma ReportedLogs(win: WindowId, id: string, done: seq<string>, q: string,
                     writes0: seq<Write>, events0: seq<StatusEvent>, notices0: seq<Notice>)
    ensures writes0 + WritesFor(id, done + [q]) == (writes0 + WritesFor(id, done)) + [Write(id, q)]
    ensures events0 + EventsFor(win, id, done + [q]) == (events0 + EventsFor(win, id, done)) + [StatusEvent(win, id, q)]
    ensures notices0 + NoticesFor(done + [q]) ==
            (notices0 + NoticesFor(done)) + (if NoticeFor(q).Some? then [NoticeFor(q).value] else [])
  {
    assert (done + [q])[..|done|] == done;
    assert WritesFor(id, done + [q]) == WritesFor(id, done) + [Write(id, q)];
    assert EventsFor(win, id, done + [q]) == EventsFor(win, id, done) + [StatusEvent(win, id, q)];
  }

  /**
   * A tick that reaches `ended` but fails to write it: the live last status is already
   * `ended`, so a later `ended` is no change and the session is never torn down.
   */
  method LostEndedIsNotRetried(t: Tracker, id: string)
    requires t.Valid() && id in t.activeCalls && t.pollers[id].lastStatus != Ended
    modifies t, t.store
    ensures t.Valid() && id in t.activeCalls && t.pollers[id].lastStatus == Ended
    ensures t.writes == old(t.writes) && t.events == old(t.events) && t.notices == old(t.notices)
    ensures t.store.rows == old(t.store.rows)
  {
    t.Tick(id, Ok(Ended), WriteFault);
    t.Tick(id, Ok(Ended), NoFault);
  }
}
