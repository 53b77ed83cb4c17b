/**
 * The main-process IPC handlers: `call:start` validates the number, resolves the caller id,
 * starts the call through the provider the mode flag selects, saves it, announces it,
 * starts tracking it and replies to the renderer; any thrown error skips the remaining
 * steps and becomes one `call:error` reply. The mock-mode and history handlers delegate.
 */
module CallIpc {
  import opened Common
  import opened JsText
  import opened EqivoService
  import CallDb
  import CallTracker

  /** What the handler sends back to the renderer: `call:status` `{status, call}` or `call:error` `{message}`. */
  datatype Reply = StatusReply(status: string, call: Call) | ErrorReply(message: string)

  /** A thrown error as the catch sees it: `err.message` and `err.response.data.message`. */
  datatype Thrown = Thrown(message: string, responseMessage: Option<string>)

  /** The environment variables the handler reads. */
  datatype Env = Env(EQIVO_FROM: Option<string>, CALLER_ID: Option<string>)

  const NumberRequired: string := "Phone number is required"
  const MockCallerId: string := "MOCK-CALLER-123"
  const MissingCallerId: string :=
    "EQIVO_FROM or CALLER_ID environment variable is not set. Please add it to your .env file in apps/desktop/.env"

  /** The message of the `call:error` reply: `err.message || err.response?.data?.message || "Failed to start call"`. */
  function ReportedMessage(e: Thrown): (m: string)
    ensures m != []
    ensures e.message != [] ==> m == e.message
    ensures e.message == [] && Truthy(e.responseMessage) ==> m == e.responseMessage.value
    ensures e.message == [] && !Truthy(e.responseMessage) ==> m == "Failed to start call"
  {
    if e.message != [] then e.message
    else if Truthy(e.responseMessage) then e.responseMessage.value
    else "Failed to start call"
  }

  /** The caller id: `EQIVO_FROM`, else `CALLER_ID`, else the mock default in mock mode, else an error. */
  function ResolveFrom(env: Env, mock: bool): (r: Result<string>)
    ensures r.Ok? ==> r.value != []
    ensures Truthy(env.EQIVO_FROM) ==> r == Ok(env.EQIVO_FROM.value)
    ensures !Truthy(env.EQIVO_FROM) && Truthy(env.CALLER_ID) ==> r == Ok(env.CALLER_ID.value)
    ensures !Truthy(env.EQIVO_FROM) && !Truthy(env.CALLER_ID) ==> r == if mock then Ok(MockCallerId) else Err(MissingCallerId)
  {
    var fields := [env.EQIVO_FROM, env.CALLER_ID];
    assert fields[0] == env.EQIVO_FROM && fields[1] == env.CALLER_ID;
    var from := FirstTruthy(fields);
    if from.Some? then Ok(from.value)
    else if mock then assert MockCallerId[0] == 'M'; Ok(MockCallerId)
    else Err(MissingCallerId)
  }

  /** `!number || !number.trim()` on what the renderer sent. */
  predicate MissingNumber(number: Option<string>) {
    number.None? || Blank(number.value)
  }

  /** The steps of `call:start` before anything is saved: the call the provider started, or the error thrown. */
  function PrepareCall(number: Option<string>, env: Env, mock: bool, http: HttpOutcome<CallResponse>,
                       clock: MockClock, now: int): (r: Result<Call>)
    ensures MissingNumber(number) ==> r == Err(NumberRequired)
    ensures !MissingNumber(number) && ResolveFrom(env, mock).Err? ==> r == Err(MissingCallerId)
    ensures !MissingNumber(number) && ResolveFrom(env, mock).Ok? ==>
              r == StartWithMode(mock, Trim(number.value), ResolveFrom(env, mock).value, http, clock, now)
  {
    if MissingNumber(number) then Err(NumberRequired)
    else match ResolveFrom(env, mock)
      case Err(m) => Err(m)
      case Ok(from) => StartWithMode(mock, Trim(number.value), from, http, clock, now)
  }

  /** A call the handler starts is a new `initiated` call for the trimmed number, never one for a blank number. */
  lemma PreparedCallIsInitiated(number: Option<string>, env: Env, mock: bool, http: HttpOutcome<CallResponse>,
                                clock: MockClock, now: int)
    ensures var r := PrepareCall(number, env, mock, http, clock, now);
            r.Ok? ==> number.Some? && !Blank(number.value) && r.value.status == Initiated
                      && r.value.to == Trim(number.value) && r.value.timestamp == now
  {
    var r := PrepareCall(number, env, mock, http, clock, now);
    if r.Ok? {
      assert number.Some? && r.value.to == Trim(Trim(number.value));
      TrimIdempotent(number.value);
    }
  }

  /**
   * The first part of `call:start`: the number check, the caller id and the provider call,
   * reading the mode flag once.
   */
  method StartCall(number: Option<string>, env: Env, mode: ServiceMode, http: HttpOutcome<CallResponse>,
                   clock: MockClock, now: int) returns (r: Result<Call>)
    ensures r == PrepareCall(number, env, mode.mockModeEnabled, http, clock, now)
  {
    if number.None? || Blank(number.value) {
      return Err(NumberRequired);
    }
    var isMockMode := mode.GetMockMode();
    var from := ResolveFrom(env, isMockMode);
    if from.Err? {
      return Err(from.error);
    }
    r := mode.StartOutboundCallWithMode(Trim(number.value), from.value, http, clock, now);
  }

  /** Every error the first part throws carries a message, so `call:error` reports it verbatim. */
  lemma StartErrorsAreReportedVerbatim(number: Option<string>, env: Env, mock: bool, http: HttpOutcome<CallResponse>,
                                       clock: MockClock, now: int)
    ensures var r := PrepareCall(number, env, mock, http, clock, now);
            r.Err? ==> r.error != [] && ReportedMessage(Thrown(r.error, None)) == r.error
  {
  }

  /** `call:start` */
  method HandleCallStart(number: Option<string>, env: Env, mode: ServiceMode, store: CallDb.CallStore,
                         tracker: CallTracker.Tracker, win: CallTracker.WindowId,
                         http: HttpOutcome<CallResponse>, clock: MockClock, now: int, saveError: Option<Thrown>)
    returns (reply: Reply, started: Option<Notice>)
    requires tracker.Valid() && store == tracker.store
    modifies store, tracker
    ensures tracker.Valid()
    ensures var prep := PrepareCall(number, env, old(mode.mockModeEnabled), http, clock, now);
            && (prep.Err? || saveError.Some? ==>
                  && reply == ErrorReply(if prep.Err? then prep.error else ReportedMessage(saveError.value))
                  && started == None && unchanged(store) && unchanged(tracker))
            && (prep.Ok? && saveError.None? ==>
              var c := prep.value;
              && store.rows == old(store.rows)[c.id := CallDb.RowOf(c)]
              && started == Some(Notice("Call Started", "Calling " + c.to))
              && c.id in tracker.activeCalls
              && (c.id !in old(tracker.activeCalls) ==>
                    tracker.activeCalls == old(tracker.activeCalls)[c.id := CallTracker.Session(c.id, Initiated, old(tracker.nextTimer))]
                    && tracker.pollers == old(tracker.pollers)[c.id := CallTracker.Poller(win, Initiated)]
                    && tracker.running == old(tracker.running) + {old(tracker.nextTimer)}
                    && tracker.nextTimer == old(tracker.nextTimer) + 1)
              && tracker.writes == old(tracker.writes) && tracker.events == old(tracker.events)
              && tracker.notices == old(tracker.notices)
              && (c.id in old(tracker.activeCalls) ==> unchanged(tracker))
              && reply == StatusReply(c.status, c))
  {
    var call := StartCall(number, env, mode, http, clock, now);
    StartErrorsAreReportedVerbatim(number, env, mode.mockModeEnabled, http, clock, now);
    reply, started := RecordCall(call, store, tracker, win, saveError);
  }

  /**
   * The rest of `call:start`: save the started call, announce it, track it and reply with it,
   * or send one `call:error` for whatever was thrown first.
   */
  method RecordCall(call: Result<Call>, store: CallDb.CallStore, tracker: CallTracker.Tracker,
                    win: CallTracker.WindowId, saveError: Option<Thrown>)
    returns (reply: Reply, started: Option<Notice>)
    requires tracker.Valid() && store == tracker.store
    modifies store, tracker
    ensures tracker.Valid()
    ensures call.Err? || saveError.Some? ==>
              && reply == ErrorReply(ReportedMessage(if call.Err? then Thrown(call.error, None) else saveError.value))
              && started == None && unchanged(store) && unchanged(tracker)
    ensures call.Ok? && saveError.None? ==>
              var c := call.value;
              && store.rows == old(store.rows)[c.id := CallDb.RowOf(c)]
              && started == Some(Notice("Call Started", "Calling " + c.to))
              && c.id in tracker.activeCalls
              && (c.id !in old(tracker.activeCalls) ==>
                    tracker.activeCalls == old(tracker.activeCalls)[c.id := CallTracker.Session(c.id, Initiated, old(tracker.nextTimer))]
                    && tracker.pollers == old(tracker.pollers)[c.id := CallTracker.Poller(win, Initiated)]
                    && tracker.running == old(tracker.running) + {old(tracker.nextTimer)}
                    && tracker.nextTimer == old(tracker.nextTimer) + 1)
              && tracker.writes == old(tracker.writes) && tracker.events == old(tracker.events)
              && tracker.notices == old(tracker.notices)
              && (c.id in old(tracker.activeCalls) ==> unchanged(tracker))
              && reply == StatusReply(c.status, c)
  {
    if call.Err? {
      reply := ErrorReply(ReportedMessage(Thrown(call.error, None)));
      started := None;
      return;
    }
    if saveError.Some? {
      reply := ErrorReply(ReportedMessage(saveError.value));
      started := None;
      return;
    }
    var c := call.value;
    store.SaveCall(c);
    started := Some(Notice("Call Started", "Calling " + c.to));
    tracker.Start(c.id, win);
    reply := StatusReply(c.status, c);
  }

  /** `mock:mode:set` */
  method HandleMockModeSet(mode: ServiceMode, enabled: bool)
    modifies mode
    ensures mode.mockModeEnabled == enabled
  {
    mode.SetMockMode(enabled);
  }

  /** `mock:mode:get`: the value last set. */
  method HandleMockModeGet(mode: ServiceMode) returns (enabled: bool)
    ensures enabled == mode.mockModeEnabled
  {
    enabled := mode.GetMockMode();
  }

  /** `call:history`: the store's listing. */
  method HandleCallHistory(store: CallDb.CallStore) returns (calls: seq<Call>)
    ensures CallDb.IsListing(store.rows, calls)
  {
    calls := store.GetCalls();
  }
}
