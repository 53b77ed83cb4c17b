/**
 * The renderer's Home page: its React state (the number being typed, the listed calls,
 * the loading flag, the error banner and the mock-mode switch) and the handlers that
 * update it from user actions and from main-process messages.
 */
module HomePage {
  import opened Common
  import opened JsText
  import opened EqivoService

  /** A `call:status` payload: the tracker sends `{callId, status}`, the start handler `{status, call}`. */
  datatype StatusData = StatusData(callId: Option<string>, status: string, call: Option<Call>)

  /** A message the page sends to the main process. */
  datatype Outgoing = StartCall(number: string) | SetMockMode(enabled: bool)

  const EnterNumber: string := "Please enter a phone number"
  const NoElectron: string := "Electron API not available. Please run the desktop app."

  /** The ids of the listed calls, in order. */
  function Ids(calls: seq<Call>): (ids: seq<string>)
    ensures |ids| == |calls| && forall i :: 0 <= i < |calls| ==> ids[i] == calls[i].id
  {
    seq(|calls|, i requires 0 <= i < |calls| => calls[i].id)
  }

  /** No id is listed twice. */
  predicate DistinctIds(calls: seq<Call>) {
    forall i, j :: 0 <= i < j < |calls| ==> calls[i].id != calls[j].id
  }

  /** `findIndex(c => c.id === id)`: the first position listing `id`, or -1. */
  function FindIndex(calls: seq<Call>, id: string): (k: int)
    ensures -1 <= k < |calls|
    ensures k >= 0 ==> calls[k].id == id && forall j :: 0 <= j < k ==> calls[j].id != id
    ensures k < 0 <==> id !in Ids(calls)
  {
    if calls == [] then -1
    else if calls[0].id == id then 0
    else
      var k := FindIndex(calls[1..], id);
      assert Ids(calls) == [calls[0].id] + Ids(calls[1..]);
      if k < 0 then -1 else k + 1
  }

  /** The list after a payload carrying a call: the listed entry takes the new status, an unlisted call goes first. */
  function WithCall(calls: seq<Call>, c: Call, status: string): (r: seq<Call>)
    ensures c.id !in Ids(calls) ==> r == [c] + calls
    ensures c.id in Ids(calls) ==>
              var k := FindIndex(calls, c.id);
              && |r| == |calls| && r[k] == calls[k].(status := status)
              && forall j :: 0 <= j < |calls| && j != k ==> r[j] == calls[j]
  {
    var k := FindIndex(calls, c.id);
    if k >= 0 then calls[k := calls[k].(status := status)] else [c] + calls
  }

  /** The list after a payload without a call: every entry with that id takes the new status. */
  function SetStatusWhere(calls: seq<Call>, callId: Option<string>, status: string): (r: seq<Call>)
    ensures |r| == |calls|
    ensures forall i :: 0 <= i < |calls| ==>
              r[i] == if callId == Some(calls[i].id) then calls[i].(status := status) else calls[i]
  {
    seq(|calls|, i requires 0 <= i < |calls| =>
          if callId == Some(calls[i].id) then calls[i].(status := status) else calls[i])
  }

  /** Both updates keep the listed ids, except that a new call is added in front. */
  lemma UpdatesKeepIds(calls: seq<Call>, c: Call, callId: Option<string>, status: string)
    ensures Ids(SetStatusWhere(calls, callId, status)) == Ids(calls)
    ensures Ids(WithCall(calls, c, status)) == if c.id in Ids(calls) then Ids(calls) else [c.id] + Ids(calls)
  {
    var a := Ids(SetStatusWhere(calls, callId, status));
    assert forall i :: 0 <= i < |a| ==> a[i] == Ids(calls)[i];
    var b := Ids(WithCall(calls, c, status));
    if c.id in Ids(calls) {
      assert forall i :: 0 <= i < |b| ==> b[i] == Ids(calls)[i];
    } else {
      assert forall i :: 0 <= i < |b| ==> b[i] == ([c.id] + Ids(calls))[i];
    }
  }

  /** A status message for an id the page does not list leaves the list as it is. */
  lemma UnknownIdIsIgnored(calls: seq<Call>, id: string, status: string)
    requires id !in Ids(calls)
    ensures SetStatusWhere(calls, Some(id), status) == calls
  {
    var r := SetStatusWhere(calls, Some(id), status);
    forall i | 0 <= i < |calls|
      ensures r[i] == calls[i]
    {
      assert Ids(calls)[i] == calls[i].id;
    }
  }

  /** Delivering the start reply twice lists the call once. */
  lemma WithCallIdempotent(calls: seq<Call>, c: Call)
    ensures WithCall(WithCall(calls, c, c.status), c, c.status) == WithCall(calls, c, c.status)
  {
    var once := WithCall(calls, c, c.status);
    if c.id !in Ids(calls) {
      assert Ids(once)[0] == c.id;
      assert FindIndex(once, c.id) == 0;
    } else {
      var k := FindIndex(calls, c.id);
      UpdatesKeepIds(calls, c, None, c.status);
      assert FindIndex(once, c.id) == k by {
        assert forall j :: 0 <= j < k ==> once[j].id == calls[j].id;
      }
    }
  }

  /** Where ids are distinct and the call is listed, the two updates agree. */
  lemma UpdatesAgreeOnListedCall(calls: seq<Call>, c: Call, status: string)
    requires DistinctIds(calls) && c.id in Ids(calls)
    ensures WithCall(calls, c, status) == SetStatusWhere(calls, Some(c.id), status)
  {
    var k := FindIndex(calls, c.id);
    var a := WithCall(calls, c, status);
    var b := SetStatusWhere(calls, Some(c.id), status);
    forall i | 0 <= i < |calls|
      ensures a[i] == b[i]
    {
      if i != k {
        assert calls[i].id != calls[k].id;
      }
    }
  }

  /** Every status the page can receive is shown in a colour; only the live states and failure stand out from grey. */
  function GetStatusColor(status: string): (color: string)
    ensures color in {"text-blue-600", "text-yellow-600", "text-green-600", "text-gray-600", "text-red-600"}
    ensures color == "text-gray-600" <==> status !in {Initiated, Ringing, Answered, Failed}
    ensures color == "text-red-600" <==> status == Failed
  {
    match status
    case "initiated" => "text-blue-600"
    case "ringing" => "text-yellow-600"
    case "answered" => "text-green-600"
    case "ended" => "text-gray-600"
    case "failed" => "text-red-600"
    case _ => "text-gray-600"
  }

  /** The colours of the four highlighted statuses differ from each other. */
  lemma HighlightedColorsDiffer(s: string, t: string)
    requires s in {Initiated, Ringing, Answered, Failed} && t in {Initiated, Ringing, Answered, Failed}
    requires s != t
    ensures GetStatusColor(s) != GetStatusColor(t)
  {
  }

  class HomeState {
    const electronAvailable: bool
    var number: string
    var calls: seq<Call>
    var loading: bool
    var error: Option<string>
    var mockMode: bool
    /** The messages sent to the main process, oldest first. */
    var sent: seq<Outgoing>

    /** The spinner only shows once a call has been requested. */
    predicate Valid()
      reads this
    {
      loading ==> exists i :: 0 <= i < |sent| && sent[i].StartCall?
    }

    constructor (electronAvailable: bool)
      ensures Valid()
      ensures this.electronAvailable == electronAvailable
      ensures number == [] && calls == [] && !loading && error == None && !mockMode && sent == []
    {
      this.electronAvailable := electronAvailable;
      number := [];
      calls := [];
      loading := false;
      error := None;
      mockMode := false;
      sent := [];
    }

    /** The number input's `onChange`. */
    method SetNumber(text: string)
      requires Valid()
      modifies this
      ensures Valid()
      ensures number == text
      ensures calls == old(calls) && loading == old(loading) && error == old(error)
      ensures mockMode == old(mockMode) && sent == old(sent)
    {
      number := text;
    }

    /** `handleCall`: a blank number or a missing bridge shows an error; otherwise the untrimmed number is sent. */
    method HandleCall()
      requires Valid()
      modifies this
      ensures Valid()
      ensures calls == old(calls) && mockMode == old(mockMode)
      ensures Blank(old(number)) ==>
                error == Some(EnterNumber) && number == old(number) && loading == old(loading) && sent == old(sent)
      ensures !Blank(old(number)) && !electronAvailable ==>
                error == Some(NoElectron) && number == old(number) && loading == old(loading) && sent == old(sent)
      ensures !Blank(old(number)) && electronAvailable ==>
                loading && error == None && number == [] && sent == old(sent) + [StartCall(old(number))]
    {
      var blank := Blank(number);
      if blank {
        error := Some(EnterNumber);
      } else if !electronAvailable {
        error := Some(NoElectron);
      } else {
        var requested := number;
        sent := sent + [StartCall(requested)];
        assert sent[|sent| - 1].StartCall?;
        loading := true;
        error := None;
        number := [];
      }
    }

    /** `handleStatus` for a `call:status` message. */
    method HandleStatus(data: StatusData)
      requires Valid()
      modifies this
      ensures Valid()
      ensures loading == if data.status == Initiated || data.status == Ended then false else old(loading)
      ensures data.call.Some? ==> calls == WithCall(old(calls), data.call.value, data.status)
      ensures data.call.None? ==> calls == SetStatusWhere(old(calls), data.callId, data.status)
      ensures number == old(number) && error == old(error) && mockMode == old(mockMode) && sent == old(sent)
    {
      if data.status == Initiated || data.status == Ended {
        loading := false;
      }
      if data.call.Some? {
        calls := WithCall(calls, data.call.value, data.status);
      } else {
        calls := SetStatusWhere(calls, data.callId, data.status);
      }
    }

    /** `handleError` for a `call:error` message. */
    method HandleError(message: string)
      requires Valid()
      modifies this
      ensures Valid()
      ensures error == Some(message) && !loading
      ensures number == old(number) && calls == old(calls) && mockMode == old(mockMode) && sent == old(sent)
    {
      error := Some(message);
      loading := false;
    }

    /** The timer `handleError` sets: five seconds later the banner is cleared, whatever it then shows. */
    method ExpireError()
      requires Valid()
      modifies this
      ensures Valid()
      ensures error == None
      ensures number == old(number) && calls == old(calls) && loading == old(loading)
      ensures mockMode == old(mockMode) && sent == old(sent)
    {
      error := None;
    }

    /** `handleToggleMockMode`: flips the switch and tells the main process. */
    method HandleToggleMockMode()
      requires Valid()
      modifies this
      ensures Valid()
      ensures mockMode == !old(mockMode) && sent == old(sent) + [SetMockMode(!old(mockMode))]
      ensures number == old(number) && calls == old(calls) && loading == old(loading) && error == old(error)
    {
      var newMode := !mockMode;
      mockMode := newMode;
      sent := sent + [SetMockMode(newMode)];
      assert forall i :: 0 <= i < |old(sent)| ==> sent[i] == old(sent)[i];
    }

    /** `handleMockModeChanged` for a `mock:mode:changed` message from the tray. */
    method HandleMockModeChanged(enabled: bool)
      requires Valid()
      modifies this
      ensures Valid()
      ensures mockMode == enabled
      ensures number == old(number) && calls == old(calls) && loading == old(loading)
      ensures error == old(error) && sent == old(sent)
    {
      mockMode := enabled;
    }

    /** `loadCallHistory`: the main process's listing replaces the list; a failed request keeps it. */
    method LoadCallHistory(history: Option<seq<Call>>)
      requires Valid()
      modifies this
      ensures Valid()
      ensures calls == if history.Some? then history.value else old(calls)
      ensures number == old(number) && loading == old(loading) && error == old(error)
      ensures mockMode == old(mockMode) && sent == old(sent)
    {
      if history.Some? {
        calls := history.value;
      }
    }

    /** `loadMockMode`: the main process's flag; a failed request keeps the switch. */
    method LoadMockMode(isMock: Option<bool>)
      requires Valid()
      modifies this
      ensures Valid()
      ensures mockMode == if isMock.Some? then isMock.value else old(mockMode)
      ensures number == old(number) && calls == old(calls) && loading == old(loading)
      ensures error == old(error) && sent == old(sent)
    {
      if isMock.Some? {
        mockMode := isMock.value;
      }
    }
  }
}
