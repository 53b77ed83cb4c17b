/**
 * The telephony provider service: normalising the provider's call status, the simulated
 * provider that derives a status from the age of a `mock-<ms>-<rand>` id, starting a call
 * (input checks, id extraction, error messages) and the process-wide mock/live switch.
 * An HTTP exchange is a parameter: the response body the provider returned, or the failure
 * axios reported.
 */
module EqivoService {
  import opened Common
  import opened JsText

  const Initiated: string := "initiated"
  const Ringing: string := "ringing"
  const Answered: string := "answered"
  const Ended: string := "ended"
  const Failed: string := "failed"
  const Unknown: string := "unknown"

  /** The statuses the application itself produces. */
  const CanonicalStatuses: set<string> := {Initiated, Ringing, Answered, Ended, Failed, Unknown}

  /** The HTTP response an axios request rejected with, when there was one. */
  datatype ErrorResponse = ErrorResponse(status: nat, message: Option<string>, Message: Option<string>)

  /**
   * What an axios request came back with: the parsed body of a successful response, or a
   * failure with the thrown error's message and the HTTP response if one arrived. A failure
   * before any request was sent (such as a missing API key) has no response.
   */
  datatype HttpOutcome<T> = Response(data: T) | Failure(response: Option<ErrorResponse>, errorMessage: string)

  /** The body of a call-status lookup; field names are the provider's. */
  datatype StatusResponse = StatusResponse(CallUUID: Option<string>, CallStatus: Option<string>,
                                           status: Option<string>, call_status: Option<string>)

  /** The body of a call-creation request; `json` is its `JSON.stringify` text. */
  datatype CallResponse = CallResponse(RequestUUID: Option<string>, CallUUID: Option<string>,
                                       call_uuid: Option<string>, id: Option<string>, json: string)

  /** The provider's status vocabulary, keyed by lower-case provider status. */
  const StatusTable: map<string, string> := map[
    "initiated" := Initiated, "ringing" := Ringing, "answered" := Answered,
    "in-progress" := Answered, "completed" := Ended, "ended" := Ended, "hangup" := Ended,
    "failed" := Failed, "busy" := Failed, "no-answer" := Failed, "cancelled" := Ended]

  /** A provider status mapped to the application's: lower-cased, looked up, passed through when unmapped. */
  function Normalize(apiStatus: string): (r: string)
    ensures ToLower(apiStatus) == "in-progress" ==> r == Answered
    ensures ToLower(apiStatus) in {"completed", "hangup", "cancelled", "ended"} ==> r == Ended
    ensures ToLower(apiStatus) in {"busy", "no-answer", "failed"} ==> r == Failed
    ensures ToLower(apiStatus) in {"initiated", "ringing", "answered"} ==> r == ToLower(apiStatus)
    ensures ToLower(apiStatus) !in StatusTable ==> r == ToLower(apiStatus)
  {
    var lower := ToLower(apiStatus);
    if lower in StatusTable then StatusTable[lower] else lower
  }

  /** Normalising is case-insensitive and always yields a lower-case string. */
  lemma NormalizeIsLowerCase(a: string, b: string)
    requires ToLower(a) == ToLower(b)
    ensures Normalize(a) == Normalize(b)
    ensures ToLower(Normalize(a)) == Normalize(a)
  {
    ToLowerIdempotent(a);
  }

  /** Normalising a normalised status changes nothing. */
  lemma NormalizeIdempotent(a: string)
    ensures Normalize(Normalize(a)) == Normalize(a)
  {
    var lower := ToLower(a);
    ToLowerIdempotent(a);
    if lower in StatusTable {
      var v := StatusTable[lower];
      assert v in {Initiated, Ringing, Answered, Ended, Failed};
      assert ToLower(v) == v;
      assert v in StatusTable && StatusTable[v] == v;
    }
  }

  /** The result is a status of the application, or an unmapped provider value in lower case. */
  lemma NormalizeCanonicalOrPassedThrough(a: string)
    ensures Normalize(a) in CanonicalStatuses || (Normalize(a) == ToLower(a) && ToLower(a) !in StatusTable)
  {
  }

  /**
   * What `statusMap[key]` evaluates to in JavaScript: an own property of the object
   * literal, a property every object inherits from `Object.prototype`, or `undefined`.
   */
  datatype JsLookup = OwnProperty(value: string) | InheritedProperty(name: string) | Undefined

  /** The lower-case names `Object.prototype` supplies to every object literal. */
  const InheritedLowerCaseKeys: set<string> := {"constructor", "__proto__"}

  /** A JavaScript value the status normalisation can return. */
  datatype JsValue = JsString(s: string) | JsObject(name: string)

  /** Property access on the status table as the code performs it. */
  function StatusTableLookupAsWritten(key: string): (r: JsLookup)
    ensures r.OwnProperty? <==> key in StatusTable
    ensures r.OwnProperty? ==> r.value == StatusTable[key] && r.value in CanonicalStatuses
    ensures r.InheritedProperty? <==> key in InheritedLowerCaseKeys
    ensures r.InheritedProperty? ==> r.name == key
  {
    if key in StatusTable then OwnProperty(StatusTable[key])
    else if key in InheritedLowerCaseKeys then InheritedProperty(key)
    else Undefined
  }

  /**
   * `statusMap[normalizedStatus] || normalizedStatus` as written: an inherited property is
   * a truthy object, so it is returned instead of the lower-cased status.
   */
  function NormalizeAsWritten(apiStatus: string): (r: JsValue)
    ensures r.JsObject? <==> ToLower(apiStatus) in InheritedLowerCaseKeys
    ensures r.JsString? ==> r.s == Normalize(apiStatus)
  {
    var lower := ToLower(apiStatus);
    match StatusTableLookupAsWritten(lower)
    case OwnProperty(v) => JsString(v)
    case InheritedProperty(name) => JsObject(name)
    case Undefined => JsString(lower)
  }

  /** The status `Constructor` normalises to the `Object` constructor rather than to a string. */
  lemma NormalizeAsWrittenReturnsInherited()
    ensures NormalizeAsWritten("Constructor") == JsObject("constructor")
    ensures Normalize("Constructor") == "constructor"
  {
    assert ToLower("Constructor") == "constructor";
  }

  /** Outside the two inherited names, the code as written and `Normalize` agree. */
  lemma NormalizeAsWrittenAgrees(apiStatus: string)
    requires ToLower(apiStatus) !in InheritedLowerCaseKeys
    ensures NormalizeAsWritten(apiStatus) == JsString(Normalize(apiStatus))
  {
  }

  /** The message thrown for a body with neither a status nor a call id. */
  const NoStatusMessage: string := "Call status not found in API response"

  /** The prefix every rethrown lookup failure carries. */
  const StatusFailurePrefix: string := "Failed to get call status: "

  /** The status field of a lookup's body: `CallStatus || status || call_status`. */
  function StatusField(d: StatusResponse): Option<string> {
    FirstTruthy([d.CallStatus, d.status, d.call_status])
  }

  /** The status a successful lookup's body yields; the error is thrown inside the `try`. */
  function StatusOfBody(d: StatusResponse): (r: Result<string>)
    ensures r.Err? <==> StatusField(d).None? && !Truthy(d.CallUUID)
    ensures r.Err? ==> r.error == NoStatusMessage
    ensures r.Ok? && r.value != Unknown ==> StatusField(d).Some? && r.value == Normalize(StatusField(d).value)
    ensures r.Ok? ==> ToLower(r.value) == r.value
  {
    var field := StatusField(d);
    if field.Some? then
      NormalizeIsLowerCase(field.value, field.value);
      Ok(Normalize(field.value))
    else if Truthy(d.CallUUID) then
      assert ToLower(Unknown) == Unknown;
      Ok(Unknown)
    else Err(NoStatusMessage)
  }

  /** `getCallStatus`: the status of a call, from the provider's answer to a lookup. */
  function GetCallStatus(callUuid: string, http: HttpOutcome<StatusResponse>): (r: Result<string>)
    ensures r.Ok? ==> !Blank(callUuid)
    ensures r.Err? ==> r.error == "Call UUID is required" || StatusFailurePrefix <= r.error
    ensures http.Failure? && !Blank(callUuid) ==>
              (r.Ok? <==> http.response.Some? && http.response.value.status == 404)
  {
    if Blank(callUuid) then Err("Call UUID is required")
    else
      var attempt: Result<string> := match http
        case Response(d) => StatusOfBody(d)
        case Failure(_, message) => Err(message);
      if attempt.Ok? then attempt
      // the `catch`: a 404 means the call is gone, anything else is rethrown with a prefix
      else if http.Failure? && http.response.Some? && http.response.value.status == 404 then Ok(Ended)
      else
        var detail := if http.Failure? && http.response.Some? && Truthy(http.response.value.message)
                      then http.response.value.message.value else attempt.error;
        Err(StatusFailurePrefix + detail)
  }

  /** What a status lookup yields, case by case. */
  lemma GetCallStatusCases(callUuid: string, http: HttpOutcome<StatusResponse>)
    ensures Blank(callUuid) ==> GetCallStatus(callUuid, http) == Err("Call UUID is required")
    ensures !Blank(callUuid) && http.Response? && StatusField(http.data).Some? ==>
              GetCallStatus(callUuid, http) == Ok(Normalize(StatusField(http.data).value))
    ensures !Blank(callUuid) && http.Response? && StatusField(http.data).None? ==>
              GetCallStatus(callUuid, http) ==
                if Truthy(http.data.CallUUID) then Ok(Unknown)
                else Err(StatusFailurePrefix + NoStatusMessage)
    ensures !Blank(callUuid) && http.Failure? && http.response.Some? && http.response.value.status == 404 ==>
              GetCallStatus(callUuid, http) == Ok(Ended)
    ensures !Blank(callUuid) && http.Failure? && (http.response.None? || http.response.value.status != 404) ==>
              GetCallStatus(callUuid, http).Err? && StatusFailurePrefix <= GetCallStatus(callUuid, http).error
  {
  }

  /** A successful status lookup yields a status of the application or an unmapped one in lower case. */
  lemma GetCallStatusOutcome(callUuid: string, http: HttpOutcome<StatusResponse>)
    ensures GetCallStatus(callUuid, http).Ok? ==>
              var s := GetCallStatus(callUuid, http).value;
              s in CanonicalStatuses || (ToLower(s) == s && s !in StatusTable)
  {
    if GetCallStatus(callUuid, http).Ok? && http.Response? {
      var field := StatusField(http.data);
      if field.Some? {
        NormalizeCanonicalOrPassedThrough(field.value);
        NormalizeIsLowerCase(field.value, field.value);
      }
    }
  }

  /** The position of a status in the simulated progression. */
  function Rank(status: string): nat {
    if status == Initiated then 0
    else if status == Ringing then 1
    else if status == Answered then 2
    else 3
  }

  /** The simulated status of a call `age` milliseconds old. */
  function MockStatus(age: int): (r: string)
    ensures r == Initiated <==> age < 1000
    ensures r == Ringing <==> 1000 <= age < 2000
    ensures r == Answered <==> 2000 <= age < 4000
    ensures r == Ended <==> 4000 <= age
  {
    if age < 1000 then Initiated
    else if age < 2000 then Ringing
    else if age < 4000 then Answered
    else Ended
  }

  /** The simulated progression never goes back as a call ages. */
  lemma MockStatusMonotone(a: int, b: int)
    requires a <= b
    ensures Rank(MockStatus(a)) <= Rank(MockStatus(b))
  {
  }

  /** The id the simulated provider gives a call: `mock-<ms>-<base-36 digits>`. */
  function MockId(createdAt: nat, rand: string): (id: string)
    ensures "mock-" <= id
    ensures '-' !in rand ==> Split(id, '-') == ["mock", NatToString(createdAt), rand]
  {
    var w := NatToString(createdAt);
    assert '-' !in w;
    var id := "mock-" + w + "-" + rand;
    assert id == "mock" + ['-'] + (w + ['-'] + rand);
    SplitAtFirst("mock", w + ['-'] + rand, '-');
    SplitAtFirst(w, rand, '-');
    id
  }

  /** The creation time read back from an id: `parseInt(id.split("-")[1]) || now`. */
  function MockCreatedAt(callUuid: string, now: int): (t: int)
    ensures t != 0 || now == 0
  {
    var fields := Split(callUuid, '-');
    var parsed := if |fields| >= 2 then ParseInt(fields[1]) else None;
    if parsed.None? || parsed.value == 0 then now else parsed.value
  }

  /** `getCallStatusMock`: the simulated status of a call at time `now`. */
  function GetCallStatusMock(callUuid: string, now: int): (r: string)
    ensures r in {Initiated, Ringing, Answered, Ended}
  {
    MockStatus(now - MockCreatedAt(callUuid, now))
  }

  /** The second `-`-separated field of `mock-<w>-<rand>` is `w`. */
  lemma SecondField(w: string, rand: string)
    requires '-' !in w
    ensures var fields := Split("mock-" + w + "-" + rand, '-');
            |fields| >= 2 && fields[1] == w
  {
    assert "mock-" + w + "-" + rand == "mock" + ['-'] + (w + ['-'] + rand);
    SplitAtFirst("mock", w + ['-'] + rand, '-');
    SplitAtFirst(w, rand, '-');
  }

  /** An id made by the simulated provider carries its creation time, so its status follows its age. */
  lemma MockIdRoundTrip(createdAt: nat, rand: string, now: int)
    requires createdAt > 0 && '-' !in rand
    ensures MockCreatedAt(MockId(createdAt, rand), now) == createdAt
    ensures GetCallStatusMock(MockId(createdAt, rand), now) == MockStatus(now - createdAt)
  {
    var id := MockId(createdAt, rand);
    assert MockCreatedAt(id, now) == createdAt by {
      assert '-' !in NatToString(createdAt);
      SecondField(NatToString(createdAt), rand);
      ParseIntOfNatToString(createdAt);
      CreatedAtOfSecondField(id, now, createdAt);
    }
  }

  /** An id whose second field parses to a non-zero time is read as created then. */
  lemma CreatedAtOfSecondField(callUuid: string, now: int, t: int)
    requires |Split(callUuid, '-')| >= 2 && ParseInt(Split(callUuid, '-')[1]) == Some(t) && t != 0
    ensures MockCreatedAt(callUuid, now) == t
  {
  }

  /**
   * An id with no second field, or one that does not parse or parses to zero, reads as
   * created now, hence `initiated`.
   */
  lemma MockFallbackIsInitiated(callUuid: string, now: int)
    requires |Split(callUuid, '-')| < 2 || ParseInt(Split(callUuid, '-')[1]) in {None, Some(0)}
    ensures MockCreatedAt(callUuid, now) == now
    ensures GetCallStatusMock(callUuid, now) == Initiated
  {
  }

  /** An id `mock-<w>-<rand>` whose second field `w` starts with a letter falls back to the clock reading. */
  lemma UnparsableIdIsInitiated(w: string, rand: string, now: int)
    requires w != [] && '-' !in w && ('a' <= w[0] <= 'z' || 'A' <= w[0] <= 'Z')
    ensures GetCallStatusMock("mock-" + w + "-" + rand, now) == Initiated
  {
    var id := "mock-" + w + "-" + rand;
    assert Split(id, '-')[1] == w by {
      SecondField(w, rand);
    }
    ParseIntOfWord(w);
    MockFallbackIsInitiated(id, now);
  }

  /** An id `mock-0-<rand>` falls back to the clock reading. */
  lemma ZeroIdIsInitiated(rand: string, now: int)
    ensures GetCallStatusMock("mock-0-" + rand, now) == Initiated
  {
    var zero := NatToString(0);
    assert zero == "0" && "mock-0-" + rand == "mock-" + zero + "-" + rand;
    SecondField(zero, rand);
    ParseIntOfNatToString(0);
    MockFallbackIsInitiated("mock-" + zero + "-" + rand, now);
  }

  /** The call record a started call is stored as. */
  function StartedCall(id: string, to: string, timestamp: int): (c: Call)
    ensures c.id == id && c.status == Initiated && c.timestamp == timestamp
    ensures c.to == Trim(to)
    ensures c.to == [] || (!IsSpace(c.to[0]) && !IsSpace(c.to[|c.to| - 1]))
  {
    Call(id, Trim(to), Initiated, timestamp)
  }

  /** The message `startOutboundCall` throws for a failed creation request. */
  function StartErrorMessage(resp: Option<ErrorResponse>, errorMessage: string): (m: string)
    ensures m != []
    ensures resp.None? ==> m == "Failed to start call: " + errorMessage
    ensures resp.Some? && resp.value.status == 401 ==> m == "Authentication failed. Check your RAPIDAPI_KEY."
    ensures resp.Some? && resp.value.status == 404 ==>
              m == "API endpoint not found. Please check the API version or endpoint path."
    ensures resp.Some? && resp.value.status == 405 ==> m == "Method not allowed (405)"
    ensures resp.Some? && resp.value.status == 400 ==> "Invalid request: " <= m
    ensures resp.Some? && resp.value.status !in {400, 401, 404, 405} ==>
              "API request failed (" + NatToString(resp.value.status) + "): " <= m
  {
    match resp
    case None => "Failed to start call: " + errorMessage
    case Some(r) =>
      var detail := FirstTruthy([r.message, r.Message]);
      if r.status == 400 then "Invalid request: " + (if detail.Some? then detail.value else "Bad request")
      else if r.status == 401 then "Authentication failed. Check your RAPIDAPI_KEY."
      else if r.status == 404 then "API endpoint not found. Please check the API version or endpoint path."
      else if r.status == 405 then "Method not allowed (405)"
      else "API request failed (" + NatToString(r.status) + "): "
           + (if detail.Some? then detail.value else errorMessage)
  }

  /**
   * `startOutboundCall`: checks both numbers, then reads the new call's id from the
   * provider's answer; `now` is the clock reading taken once the answer is in.
   */
  function StartOutboundCall(to: string, from: string, http: HttpOutcome<CallResponse>, now: int): (r: Result<Call>)
    ensures Blank(to) ==> r == Err("Destination phone number (to) is required")
    ensures !Blank(to) && Blank(from) ==> r == Err("Caller ID (from) is required")
    ensures r.Ok? <==> !Blank(to) && !Blank(from) && http.Response? &&
                       FirstTruthy([http.data.RequestUUID, http.data.CallUUID, http.data.call_uuid, http.data.id]).Some?
    ensures r.Ok? ==> r.value.status == Initiated && r.value.to == Trim(to) && r.value.timestamp == now &&
                      Some(r.value.id) == FirstTruthy([http.data.RequestUUID, http.data.CallUUID,
                                                       http.data.call_uuid, http.data.id])
    ensures !Blank(to) && !Blank(from) && http.Failure? ==>
              r == Err(StartErrorMessage(http.response, http.errorMessage))
  {
    if Blank(to) then Err("Destination phone number (to) is required")
    else if Blank(from) then Err("Caller ID (from) is required")
    else match http
      case Response(d) =>
        var uuid := FirstTruthy([d.RequestUUID, d.CallUUID, d.call_uuid, d.id]);
        if uuid.None? then
          // thrown inside the `try`: the catch sees an error without a response
          Err(StartErrorMessage(None, "API response did not contain a call UUID. Response: " + d.json))
        else Ok(StartedCall(uuid.value, to, now))
      case Failure(resp, message) => Err(StartErrorMessage(resp, message))
  }

  /**
   * `startOutboundCallMock`: no checks; the id embeds the first clock reading and the
   * random digits, the timestamp is a second clock reading.
   */
  function StartOutboundCallMock(to: string, idTime: nat, rand: string, now: int): (c: Call)
    ensures c.status == Initiated && c.to == Trim(to) && c.timestamp == now
    ensures idTime > 0 && '-' !in rand ==> MockCreatedAt(c.id, now) == idTime
  {
    var c := StartedCall(MockId(idTime, rand), to, now);
    if idTime > 0 && '-' !in rand then MockIdRoundTrip(idTime, rand, now); c else c
  }

  /** The clock readings and random digits a simulated call start consumes. */
  datatype MockClock = MockClock(idTime: nat, rand: string)

  /** `startOutboundCallWithMode` for a given value of the mode flag. */
  function StartWithMode(mock: bool, to: string, from: string, http: HttpOutcome<CallResponse>,
                         clock: MockClock, now: int): (r: Result<Call>)
    ensures mock ==> r == Ok(StartOutboundCallMock(to, clock.idTime, clock.rand, now))
    ensures !mock ==> r == StartOutboundCall(to, from, http, now)
  {
    if mock then Ok(StartOutboundCallMock(to, clock.idTime, clock.rand, now))
    else StartOutboundCall(to, from, http, now)
  }

  /** `getCallStatusWithMode` for a given value of the mode flag. */
  function StatusWithMode(mock: bool, callUuid: string, http: HttpOutcome<StatusResponse>, now: int): (r: Result<string>)
    ensures mock ==> r == Ok(GetCallStatusMock(callUuid, now))
    ensures !mock ==> r == GetCallStatus(callUuid, http)
  {
    if mock then Ok(GetCallStatusMock(callUuid, now)) else GetCallStatus(callUuid, http)
  }

  /** The module-level `mockModeEnabled` flag and the functions that read and write it. */
  class ServiceMode {
    var mockModeEnabled: bool

    constructor ()
      ensures !mockModeEnabled
    {
      mockModeEnabled := false;
    }

    method SetMockMode(enabled: bool)
      modifies this
      ensures mockModeEnabled == enabled
    {
      mockModeEnabled := enabled;
    }

    method GetMockMode() returns (enabled: bool)
      ensures enabled == mockModeEnabled
    {
      enabled := mockModeEnabled;
    }

    /** Starts a call through the simulated provider exactly when the flag is set. */
    method StartOutboundCallWithMode(to: string, from: string, http: HttpOutcome<CallResponse>,
                                     clock: MockClock, now: int) returns (r: Result<Call>)
      ensures mockModeEnabled ==> r == Ok(StartOutboundCallMock(to, clock.idTime, clock.rand, now))
      ensures !mockModeEnabled ==> r == StartOutboundCall(to, from, http, now)
    {
      r := StartWithMode(mockModeEnabled, to, from, http, clock, now);
    }

    /** Asks the simulated provider exactly when the flag is set. */
    method GetCallStatusWithMode(callUuid: string, http: HttpOutcome<StatusResponse>, now: int)
      returns (r: Result<string>)
      ensures mockModeEnabled ==> r == Ok(GetCallStatusMock(callUuid, now))
      ensures !mockModeEnabled ==> r == GetCallStatus(callUuid, http)
    {
      r := StatusWithMode(mockModeEnabled, callUuid, http, now);
    }
  }
}
