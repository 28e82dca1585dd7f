/** The client for the remote hospital directory (app/hospital_client.py).
    Each network exchange is replaced by its outcome, an HttpOutcome value;
    what remains is the decision from that outcome to the returned value. */
module HospitalClient {
  import opened Values
  import opened Text
  import opened Models

  /** The body of a response as resp.json() sees it. */
  datatype JsonBody = Decoded(value: Value) | Undecodable(message: string)

  /** How one HTTP exchange ended. */
  datatype HttpOutcome =
    | Response(status: int, text: string, body: JsonBody)
    | RequestError(message: string)   // httpx.RequestError: connection failure, timeout, ...
    | OtherError(message: string)     // any other Exception raised while calling

  /** What a proxy function does: return a value, or let an exception out. */
  datatype Reply<+T> = Returned(value: T) | Raises(message: string)

  const HttpPrefix := "HTTP "
  const RequestPrefix := "Request error: "
  const UnexpectedPrefix := "Unexpected error: "

  /** httpx Response.is_success; raise_for_status raises for every other code. */
  predicate IsSuccess(status: int) {
    200 <= status < 300
  }

  /** The exchange ended in a response whose status raise_for_status lets through. */
  predicate IsSuccess2xx(outcome: HttpOutcome) {
    outcome.Response? && IsSuccess(outcome.status)
  }

  predicate StartsWith(s: string, prefix: string) {
    |prefix| <= |s| && s[..|prefix|] == prefix
  }

  /** The error text of a failed create starts with exactly one of the three
      prefixes. */
  predicate TaggedOnce(error: string) {
    (StartsWith(error, HttpPrefix) && !StartsWith(error, RequestPrefix) && !StartsWith(error, UnexpectedPrefix))
    || (!StartsWith(error, HttpPrefix) && StartsWith(error, RequestPrefix) && !StartsWith(error, UnexpectedPrefix))
    || (!StartsWith(error, HttpPrefix) && !StartsWith(error, RequestPrefix) && StartsWith(error, UnexpectedPrefix))
  }

  /** The JSON body sent by create_hospital: the hospital dict with the batch
      id stored under "creation_batch_id", replacing any value already there. */
  function CreatePayload(hospital: map<string, Value>, batchId: string): (payload: map<string, Value>)
    ensures payload.Keys == hospital.Keys + {"creation_batch_id"}
    ensures payload["creation_batch_id"] == Str(batchId)
    ensures forall k :: k in hospital && k != "creation_batch_id" ==> payload[k] == hospital[k]
  {
    hospital["creation_batch_id" := Str(batchId)]
  }

  /** A failure dict whose error is detail tagged with one of the three prefixes. */
  function FailedRow(row: int, prefix: string, detail: string): (r: RowResult)
    requires prefix == HttpPrefix || prefix == RequestPrefix || prefix == UnexpectedPrefix
    ensures r == Failed(Some(row), prefix + detail)
    ensures TaggedOnce(r.error)
    ensures StartsWith(r.error, HttpPrefix) <==> prefix == HttpPrefix
    ensures StartsWith(r.error, RequestPrefix) <==> prefix == RequestPrefix
  {
    var e := prefix + detail;
    // the prefixes differ in their first character
    assert e[..|prefix|] == prefix && e[0] == prefix[0];
    assert forall p :: StartsWith(e, p) && p != [] ==> p[0] == e[0] by {
      forall p | StartsWith(e, p) && p != [] ensures p[0] == e[0] {
        assert e[..|p|][0] == e[0];
      }
    }
    Failed(Some(row), e)
  }

  /** The first line of str(ValidationError) when `count` fields are rejected. */
  function ValidationMessage(count: nat): string {
    IntToString(count) + (if count == 1 then " validation error" else " validation errors")
    + " for HospitalResult"
  }

  /** How many of hospital_id and name HospitalResult refuses for a dict
      body: the id (default -1) must be an int, the name (default the input's
      name) a string. */
  function RefusedFields(fields: map<string, Value>, defaultName: Value): nat {
    (if Get(fields, "id", Int(-1)).Int? then 0 else 1)
    + (if Get(fields, "name", defaultName).Str? then 0 else 1)
  }

  /** What the rest of create_hospital's try block makes of a response body
      once raise_for_status has let the response through: resp.json(), the
      three result.get calls and the HospitalResult validation, with anything
      raised there turned into an "Unexpected error: " failure. */
  predicate AnswersBody(hospital: map<string, Value>, rowNum: int, body: JsonBody, r: RowResult) {
    // resp.json() raises
    && (body.Undecodable? ==> r == Failed(Some(rowNum), UnexpectedPrefix + body.message))
    // result.get on a list, str, int, bool or None
    && (body.Decoded? && !body.value.Dict? ==>
          r == Failed(Some(rowNum), UnexpectedPrefix + "'" + TypeName(body.value) + "' object has no attribute 'get'"))
    // the default argument hospital["name"] raises KeyError('name')
    && (body.Decoded? && body.value.Dict? && "name" !in hospital ==> r == Failed(Some(rowNum), UnexpectedPrefix + "'name'"))
    // a dict body whose id and name HospitalResult accepts always gives a created row ...
    && (body.Decoded? && body.value.Dict? && "name" in hospital ==>
          (r.Created? <==>
             Get(body.value.entries, "id", Int(-1)).Int? && Get(body.value.entries, "name", hospital["name"]).Str?))
    // ... and one it refuses gives the first line of the validation error, counting the refused fields
    && (body.Decoded? && body.value.Dict? && "name" in hospital && r.Failed? ==>
          r == Failed(Some(rowNum),
                      UnexpectedPrefix + ValidationMessage(RefusedFields(body.value.entries, hospital["name"]))))
    // a created row holds the body's id and name, or their defaults
    && (r.Created? ==>
          && body.Decoded? && body.value.Dict? && "name" in hospital
          && var fields := body.value.entries;
          && r.result.row == rowNum
          && Int(r.result.hospitalId) == (if "id" in fields then fields["id"] else Int(-1))
          && Str(r.result.name) == (if "name" in fields then fields["name"] else hospital["name"])
          && (r.result.status == "created_and_activated" <==> "active" in fields && Truthy(fields["active"]))
          && (r.result.status == "created_and_activated" || r.result.status == "created"))
  }

  /** The rest of create_hospital's try block once raise_for_status has let
      the response through. */
  function FromBody(hospital: map<string, Value>, rowNum: int, body: JsonBody): (r: RowResult)
    ensures r.Row() == Some(rowNum)
    ensures r.Failed? ==> TaggedOnce(r.error) && StartsWith(r.error, UnexpectedPrefix)
    ensures r.Failed? ==> !StartsWith(r.error, HttpPrefix) && !StartsWith(r.error, RequestPrefix)
    ensures AnswersBody(hospital, rowNum, body, r)
  {
    match body
    case Undecodable(m) => FailedRow(rowNum, UnexpectedPrefix, m)
    case Decoded(v) =>
      if !v.Dict? then
        FailedRow(rowNum, UnexpectedPrefix, "'" + TypeName(v) + "' object has no attribute 'get'")
      else if "name" !in hospital then
        FailedRow(rowNum, UnexpectedPrefix, "'name'")
      else
        var id := Get(v.entries, "id", Int(-1));
        var name := Get(v.entries, "name", hospital["name"]);
        var status := if Truthy(Get(v.entries, "active", Null)) then "created_and_activated" else "created";
        if id.Int? && name.Str? then
          Created(HospitalResult(rowNum, id.i, name.s, status))
        else
          FailedRow(rowNum, UnexpectedPrefix, ValidationMessage(RefusedFields(v.entries, hospital["name"])))
  }

  /** create_hospital(hospital, batch_id, row_num) once the POST has ended in
      `outcome`. Every exception inside the try block becomes a failed
      result; the function itself never raises. */
  function CreateHospital(hospital: map<string, Value>, rowNum: int, outcome: HttpOutcome): (r: RowResult)
    // every result carries the row number it was given
    ensures r.Row() == Some(rowNum)
    ensures r.Failed? <==> r.Status() == "failed"
    // a failure is tagged with exactly one of the three prefixes, chosen by the kind of error
    ensures r.Failed? ==> TaggedOnce(r.error)
    ensures r.Failed? ==> (StartsWith(r.error, HttpPrefix) <==> outcome.Response? && !IsSuccess(outcome.status))
    ensures r.Failed? ==> (StartsWith(r.error, RequestPrefix) <==> outcome.RequestError?)
    ensures outcome.Response? && !IsSuccess(outcome.status) ==>
              r == Failed(Some(rowNum), HttpPrefix + IntToString(outcome.status) + ": " + outcome.text)
    ensures outcome.RequestError? ==> r == Failed(Some(rowNum), RequestPrefix + outcome.message)
    ensures outcome.OtherError? ==> r == Failed(Some(rowNum), UnexpectedPrefix + outcome.message)
    // a created row comes only from a 2xx response ...
    ensures r.Created? ==> IsSuccess2xx(outcome)
    // ... and a 2xx response comes to what its body decides
    ensures IsSuccess2xx(outcome) ==> AnswersBody(hospital, rowNum, outcome.body, r)
  {
    match outcome
    case RequestError(m) => FailedRow(rowNum, RequestPrefix, m)
    case OtherError(m) => FailedRow(rowNum, UnexpectedPrefix, m)
    case Response(status, text, body) =>
      if !IsSuccess(status) then FailedRow(rowNum, HttpPrefix, IntToString(status) + ": " + text)
      else FromBody(hospital, rowNum, body)
  }

  /** The headline of a ValidationError that refuses one field. */
  lemma OneRefusedFieldMessage()
    ensures ValidationMessage(1) == "1 validation error for HospitalResult"
  {
    assert IntToString(1) == [DigitChar(1)] == "1";
  }

  /** A 201 whose body carries a null id fails validation on hospital_id
      alone, so its message counts one refused field. */
  lemma NullIdRefusedOnce(hospital: map<string, Value>, rowNum: int)
    requires "name" in hospital && hospital["name"].Str?
    ensures CreateHospital(hospital, rowNum, Response(201, "", Decoded(Dict(map["id" := Null]))))
            == Failed(Some(rowNum), UnexpectedPrefix + ValidationMessage(1))
  {
    var fields := map["id" := Null];
    var outcome := Response(201, "", Decoded(Dict(fields)));
    assert IsSuccess2xx(outcome);
    assert Get(fields, "id", Int(-1)) == Null;
    assert Get(fields, "name", hospital["name"]) == hospital["name"];
    assert RefusedFields(fields, hospital["name"]) == 1;
  }

  /** activate_batch: true exactly when the PATCH got status 200; any other
      status, 2xx ones included, and any exception give false. */
  function ActivateBatch(outcome: HttpOutcome): (activated: bool)
    ensures activated <==> outcome.Response? && outcome.status == 200
  {
    match outcome
    case Response(status, _, _) => status == 200
    case RequestError(_) => false
    case OtherError(_) => false
  }

  /** The dict delete_hospital returns. */
  datatype DeleteReply = DeleteReply(status: int, message: string)

  /** delete_hospital: echoes the status code, with message "Deleted" on 200
      and the response text otherwise; transport errors propagate. */
  function DeleteHospital(outcome: HttpOutcome): (r: Reply<DeleteReply>)
    ensures r.Returned? <==> outcome.Response?
    ensures r.Returned? ==> r.value.status == outcome.status
    ensures r.Returned? && outcome.status == 200 ==> r.value.message == "Deleted"
    ensures r.Returned? && outcome.status != 200 ==> r.value.message == outcome.text
  {
    match outcome
    case Response(status, text, _) => Returned(DeleteReply(status, if status == 200 then "Deleted" else text))
    case RequestError(m) => Raises(m)
    case OtherError(m) => Raises(m)
  }

  /** The body on a 200 response; otherwise {"error": prefix + str(status)}.
      Transport errors and an undecodable 200 body propagate. */
  function ListReply(outcome: HttpOutcome, prefix: string): (r: Reply<Value>)
    ensures outcome.Response? && outcome.status == 200 && outcome.body.Decoded? ==>
              r == Returned(outcome.body.value)
    ensures outcome.Response? && outcome.status != 200 ==>
              r == Returned(Dict(map["error" := Str(prefix + IntToString(outcome.status))]))
    ensures r.Raises? <==> !outcome.Response? || (outcome.status == 200 && outcome.body.Undecodable?)
  {
    match outcome
    case Response(status, _, body) =>
      if status == 200 then
        match body
        case Decoded(v) => Returned(v)
        case Undecodable(m) => Raises(m)
      else
        Returned(Dict(map["error" := Str(prefix + IntToString(status))]))
    case RequestError(m) => Raises(m)
    case OtherError(m) => Raises(m)
  }

  /** v is the error dict {"error": prefix + str(status)}, and the status
      can be read back from its message. */
  predicate NamesStatus(v: Value, prefix: string, status: int) {
    && v.Dict? && v.entries.Keys == {"error"} && v.entries["error"].Str?
    && StartsWith(v.entries["error"].s, prefix)
    && StatusNamed(v.entries["error"].s, prefix) == Some(status)
  }

  /** The status code an error message names, read back from what follows
      the prefix. */
  function StatusNamed(message: string, prefix: string): Option<int> {
    if StartsWith(message, prefix) && |message| > |prefix| then
      var digits := message[|prefix|..];
      if digits[0] == '-' && AllDigits(digits[1..]) then Some(DecimalValue(digits))
      else if digits[0] != '-' && AllDigits(digits) then Some(DecimalValue(digits))
      else None
    else None
  }

  /** The error dict of a list function names the failing status exactly. */
  lemma ErrorDictNamesStatus(prefix: string, status: int)
    ensures NamesStatus(Dict(map["error" := Str(prefix + IntToString(status))]), prefix, status)
  {
    var m := prefix + IntToString(status);
    IntToStringRoundTrip(status);
    assert m[..|prefix|] == prefix;
    assert m[|prefix|..] == IntToString(status);
  }

  /** get_all_hospitals: the body exactly on status 200, otherwise an error
      dict naming the status; exceptions propagate. */
  function GetAllHospitals(outcome: HttpOutcome): (r: Reply<Value>)
    ensures outcome.Response? && outcome.status == 200 && outcome.body.Decoded? ==>
              r == Returned(outcome.body.value)
    ensures outcome.Response? && outcome.status != 200 ==>
              r.Returned? && NamesStatus(r.value, "Failed to fetch hospitals. Status code: ", outcome.status)
    ensures r.Raises? <==> !outcome.Response? || (outcome.status == 200 && outcome.body.Undecodable?)
  {
    var prefix := "Failed to fetch hospitals. Status code: ";
    if outcome.Response? then ErrorDictNamesStatus(prefix, outcome.status); ListReply(outcome, prefix)
    else ListReply(outcome, prefix)
  }

  /** get_hospitals_by_batch: as get_all_hospitals, with the batch id in the
      error message. */
  function GetHospitalsByBatch(batchId: string, outcome: HttpOutcome): (r: Reply<Value>)
    ensures outcome.Response? && outcome.status == 200 && outcome.body.Decoded? ==>
              r == Returned(outcome.body.value)
    ensures outcome.Response? && outcome.status != 200 ==>
              r.Returned?
              && NamesStatus(r.value, "Failed to fetch hospitals for batch " + batchId + ". Status: ", outcome.status)
    ensures r.Raises? <==> !outcome.Response? || (outcome.status == 200 && outcome.body.Undecodable?)
  {
    var prefix := "Failed to fetch hospitals for batch " + batchId + ". Status: ";
    if outcome.Response? then ErrorDictNamesStatus(prefix, outcome.status); ListReply(outcome, prefix)
    else ListReply(outcome, prefix)
  }
}
