/** The bulk endpoint POST /hospitals/bulk (bulk_create_hospitals in
    app/main.py). The uploaded file arrives as its name plus the header and
    data rows already split; the batch id, the fate of every create call and
    the outcome of the activation request are parameters. */
module Endpoints {
  import opened Values
  import opened Text
  import opened Models
  import opened CsvUtils
  import opened HospitalClient

  /** The most hospitals one upload may carry. */
  const MaxHospitals := 20

  /** One coroutine create_hospital(hospital, batch_id, row) handed to gather. */
  datatype CreateCall = CreateCall(hospital: map<string, Value>, batchId: string, row: int)

  /** What became of one create call: it ran to its end with the HTTP
      exchange ending in `outcome`, or it raised outside create_hospital's
      try block (while opening or closing the HTTP client). */
  datatype CallFate = Completes(outcome: HttpOutcome) | Throws(message: string)

  /** One element of asyncio.gather(*tasks, return_exceptions=True). */
  datatype TaskOutcome = Done(result: RowResult) | Raised(message: string)

  function Run(call: CreateCall, fate: CallFate): TaskOutcome {
    match fate
    case Completes(outcome) => Done(CreateHospital(call.hospital, call.row, outcome))
    case Throws(message) => Raised(message)
  }

  /** gather keeps the order of its arguments, whatever order the calls
      finish in: element i is what call i came to. */
  function Gather(tasks: seq<CreateCall>, fates: seq<CallFate>): (responses: seq<TaskOutcome>)
    requires |tasks| == |fates|
    ensures |responses| == |tasks|
    ensures forall i :: 0 <= i < |tasks| ==> responses[i] == Run(tasks[i], fates[i])
  {
    seq(|tasks|, i requires 0 <= i < |tasks| => Run(tasks[i], fates[i]))
  }

  /** The report entry for one gathered element: a raised exception becomes
      {"status": "failed", "error": str(e)}, with no "row" key. */
  function Entry(response: TaskOutcome): RowResult {
    match response
    case Done(result) => result
    case Raised(message) => Failed(None, message)
  }

  /** How many gathered elements are exceptions. */
  function CountRaised(responses: seq<TaskOutcome>): nat {
    if responses == [] then 0
    else CountRaised(responses[..|responses| - 1]) + (if responses[|responses| - 1].Raised? then 1 else 0)
  }

  /** How many gathered elements are returned dicts with status "failed". */
  function CountReturnedFailures(responses: seq<TaskOutcome>): nat {
    if responses == [] then 0
    else CountReturnedFailures(responses[..|responses| - 1])
         + (if responses[|responses| - 1].Done? && responses[|responses| - 1].result.Failed? then 1 else 0)
  }

  /** How many report entries have status "failed", whatever their origin. */
  function CountFailedEntries(responses: seq<TaskOutcome>): nat {
    if responses == [] then 0
    else CountFailedEntries(responses[..|responses| - 1])
         + (if Entry(responses[|responses| - 1]).Failed? then 1 else 0)
  }

  /** The loop that builds the create calls: call k (from 0) gets row number
      k + 1, and every call gets the same batch id. */
  method BuildTasks(hospitals: seq<HospitalRecord>, batchId: string) returns (tasks: seq<CreateCall>)
    ensures |tasks| == |hospitals|
    ensures forall k :: 0 <= k < |tasks| ==> tasks[k] == CreateCall(AsDict(hospitals[k]), batchId, k + 1)
  {
    tasks := [];
    var i := 0;
    while i < |hospitals|
      invariant 0 <= i <= |hospitals|
      invariant |tasks| == i
      invariant forall k :: 0 <= k < i ==> tasks[k] == CreateCall(AsDict(hospitals[k]), batchId, k + 1)
    {
      tasks := tasks + [CreateCall(AsDict(hospitals[i]), batchId, i + 1)];
      i := i + 1;
    }
  }

  /** The loop over the gathered elements: one entry per element, in order,
      and a failure counted for each exception only. */
  method CollectResults(responses: seq<TaskOutcome>) returns (results: seq<RowResult>, failed: nat)
    ensures |results| == |responses|
    ensures forall i :: 0 <= i < |responses| ==> results[i] == Entry(responses[i])
    ensures failed == CountRaised(responses)
  {
    results := [];
    failed := 0;
    var i := 0;
    while i < |responses|
      invariant 0 <= i <= |responses|
      invariant |results| == i
      invariant forall k :: 0 <= k < i ==> results[k] == Entry(responses[k])
      invariant failed == CountRaised(responses[..i])
    {
      assert responses[..i + 1][..i] == responses[..i];
      match responses[i] {
        case Raised(message) =>
          failed := failed + 1;
          results := results + [Failed(None, message)];
        case Done(result) =>
          results := results + [result];
      }
      i := i + 1;
    }
    assert responses[..i] == responses;
  }

  /** The JSON body of a successful bulk request; the elapsed time is not
      modelled. */
  datatype BatchReport = BatchReport(
    batchId: string,
    totalHospitals: int,
    processedHospitals: int,
    failedHospitals: int,
    batchActivated: bool,
    hospitals: seq<RowResult>)

  datatype Rejection =
    | NotCsv              // "Only CSV files are supported."
    | TooManyHospitals    // "CSV cannot contain more than 20 hospitals."
    | BadCsv(error: ParseError)

  /** The HTTP answer: the report, or an error status. HTTPException gives
      400; the KeyError of a header without name or address is not caught
      and gives 500. */
  datatype BulkResult = Accepted(report: BatchReport) | Rejected(status: int, reason: Rejection)

  function RejectionStatus(error: ParseError): int {
    if error.MissingKey? then 500 else 400
  }

  /** What the report of an accepted upload of `hospitals` says, given the
      create calls handed to gather, their fates, and the activation
      request: one entry per record in record order, entry i answering call
      i (row i + 1), only raised calls counted as failed, and activation sent
      iff some call did not raise. */
  predicate Reports(report: BatchReport, hospitals: seq<HospitalRecord>, batchId: string,
                    tasks: seq<CreateCall>, fates: seq<CallFate>, activation: HttpOutcome, activationSent: bool)
  {
    && |hospitals| == |tasks| == |fates|
    && (forall k :: 0 <= k < |tasks| ==> tasks[k] == CreateCall(AsDict(hospitals[k]), batchId, k + 1))
    && report.batchId == batchId
    && report.totalHospitals == |hospitals| == |report.hospitals|
    && report.failedHospitals == CountRaised(Gather(tasks, fates))
    && report.processedHospitals + report.failedHospitals == report.totalHospitals
    && (forall i :: 0 <= i < |tasks| ==> report.hospitals[i] == Entry(Run(tasks[i], fates[i])))
    // a returned entry carries its row number; an exception entry carries none
    && (forall i :: 0 <= i < |tasks| ==>
          report.hospitals[i].Row() == (if fates[i].Completes? then Some(i + 1) else None))
    && activationSent == (report.failedHospitals < report.totalHospitals)
    && report.batchActivated == (activationSent && ActivateBatch(activation))
  }

  /** The accepted path of bulk_create_hospitals: one create call per
      record, gathered in order, failures counted, activation gated on at
      least one call that did not raise. */
  method ProcessBatch(hospitals: seq<HospitalRecord>, batchId: string, fates: seq<CallFate>, activation: HttpOutcome)
    returns (report: BatchReport, tasks: seq<CreateCall>, activationSent: bool)
    requires |fates| == |hospitals|
    ensures Reports(report, hospitals, batchId, tasks, fates, activation, activationSent)
  {
    tasks := BuildTasks(hospitals, batchId);
    var responses := Gather(tasks, fates);
    var results, failed := CollectResults(responses);
    EntriesAttributed(tasks, fates, results);
    activationSent := false;
    var activated := false;
    if failed < |hospitals| {
      activationSent := true;
      activated := ActivateBatch(activation);
    }
    report := BatchReport(batchId, |hospitals|, |hospitals| - failed, failed, activated, results);
  }

  /** bulk_create_hospitals. Besides the answer it yields the create calls it
      handed to gather and whether it sent the activation request. */
  method BulkCreateHospitals(filename: string, header: seq<string>, rows: seq<map<string, string>>,
                             batchId: string, fates: seq<CallFate>, activation: HttpOutcome)
    returns (r: BulkResult, tasks: seq<CreateCall>, activationSent: bool)
    requires |fates| == |rows|
    // the extension is checked first, then the file is parsed, then the ceiling applies
    ensures !EndsWith(filename, ".csv") ==> r == Rejected(400, NotCsv)
    ensures EndsWith(filename, ".csv") && Parse(header, rows).Failure? ==>
              r == Rejected(RejectionStatus(Parse(header, rows).error), BadCsv(Parse(header, rows).error))
    ensures (EndsWith(filename, ".csv") && Parse(header, rows).Parsed?
             && |Parse(header, rows).hospitals| > MaxHospitals) ==> r == Rejected(400, TooManyHospitals)
    ensures r.Accepted? <==>
              EndsWith(filename, ".csv") && Parse(header, rows).Parsed?
              && |Parse(header, rows).hospitals| <= MaxHospitals
    // a rejected upload makes no remote call at all
    ensures r.Rejected? ==> tasks == [] && !activationSent
    // an accepted upload has one record per data row, and the report describes them
    ensures r.Accepted? ==>
              && |Parse(header, rows).hospitals| == |rows|
              && Reports(r.report, Parse(header, rows).hospitals, batchId, tasks, fates, activation, activationSent)
  {
    tasks := [];
    activationSent := false;
    if !EndsWith(filename, ".csv") {
      r := Rejected(400, NotCsv);
      return;
    }
    var parsed := ParseCsv(header, rows);
    if parsed.Failure? {
      r := Rejected(RejectionStatus(parsed.error), BadCsv(parsed.error));
      return;
    }
    var hospitals := parsed.hospitals;
    if |hospitals| > MaxHospitals {
      r := Rejected(400, TooManyHospitals);
      return;
    }
    ParseRowsSucceeds(rows);
    var report;
    report, tasks, activationSent := ProcessBatch(hospitals, batchId, fates, activation);
    r := Accepted(report);
  }

  // ---- Properties of the aggregation ----

  /** A returned entry carries the row number its call was given; an
      exception entry carries none. */
  lemma EntryRow(call: CreateCall, fate: CallFate)
    ensures Entry(Run(call, fate)).Row() == (if fate.Completes? then Some(call.row) else None)
  {
  }

  /** Entry i of a report built from calls numbered 1..n carries row i + 1
      when its call returned, and no row when it raised. */
  lemma EntriesAttributed(tasks: seq<CreateCall>, fates: seq<CallFate>, entries: seq<RowResult>)
    requires |tasks| == |fates| == |entries|
    requires forall i :: 0 <= i < |tasks| ==> tasks[i].row == i + 1
    requires forall i :: 0 <= i < |tasks| ==> entries[i] == Entry(Run(tasks[i], fates[i]))
    ensures forall i :: 0 <= i < |entries| ==>
              entries[i].Row() == (if fates[i].Completes? then Some(i + 1) else None)
  {
    forall i | 0 <= i < |entries|
      ensures entries[i].Row() == (if fates[i].Completes? then Some(i + 1) else None)
    {
      EntryRow(tasks[i], fates[i]);
    }
  }

  /** The failure counter is between 0 and the number of calls; it is 0
      exactly when no call raised and reaches the number of calls exactly
      when every call raised. */
  lemma {:induction false} CountRaisedBounds(responses: seq<TaskOutcome>)
    ensures CountRaised(responses) <= |responses|
    ensures CountRaised(responses) == 0 <==> forall i :: 0 <= i < |responses| ==> responses[i].Done?
    ensures CountRaised(responses) == |responses| <==> forall i :: 0 <= i < |responses| ==> responses[i].Raised?
  {
    if responses != [] {
      var front := responses[..|responses| - 1];
      CountRaisedBounds(front);
      assert forall i :: 0 <= i < |front| ==> front[i] == responses[i];
    }
  }

  /** Report entries with status "failed" are the raised calls plus the
      failed dicts create_hospital returned; only the first kind is counted
      in failed_hospitals. */
  lemma {:induction false} FailedEntriesSplit(responses: seq<TaskOutcome>)
    ensures CountFailedEntries(responses) == CountRaised(responses) + CountReturnedFailures(responses)
  {
    if responses != [] {
      FailedEntriesSplit(responses[..|responses| - 1]);
    }
  }

  /** Activation is attempted iff at least one call did not raise. With no
      rows, or every call raising, it is never attempted. */
  lemma ActivationGate(tasks: seq<CreateCall>, fates: seq<CallFate>)
    requires |tasks| == |fates|
    ensures CountRaised(Gather(tasks, fates)) < |tasks| <==> exists i :: 0 <= i < |fates| && fates[i].Completes?
  {
    var responses := Gather(tasks, fates);
    CountRaisedBounds(responses);
    if CountRaised(responses) < |tasks| {
      var i :| 0 <= i < |responses| && !responses[i].Raised?;
      assert fates[i].Completes?;
    }
  }

  /** A call that returns a failed dict is not counted: when no call raises,
      failed_hospitals is 0 even if every remote create was refused, and the
      batch is still sent for activation. */
  lemma ReturnedFailuresNotCounted(tasks: seq<CreateCall>, fates: seq<CallFate>)
    requires |tasks| == |fates|
    requires forall i :: 0 <= i < |fates| ==> fates[i].Completes?
    ensures CountRaised(Gather(tasks, fates)) == 0
    ensures CountFailedEntries(Gather(tasks, fates)) == CountReturnedFailures(Gather(tasks, fates))
  {
    CountRaisedBounds(Gather(tasks, fates));
    FailedEntriesSplit(Gather(tasks, fates));
  }
}
