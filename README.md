# Hospital bulk processor — a Dafny model of its decision logic

The service accepts a CSV upload that describes hospitals. It validates and
normalises the rows. Then it sends one create request per row to a remote
hospital directory, tags all of them with one batch id, and collects one result
per row in row order. If at least one row counts as processed, it asks the
directory to activate the batch. This project models the three pieces of
decision code behind that, with the network and the event loop turned into
parameters and the elapsed time left out:

- `csv_utils.dfy` (`CsvUtils`): `parse_csv`. The header must be a subset of
  {name, address, phone}. Rows are checked for an empty raw name or address,
  then trimmed, with an empty phone mapped to `None`. The first refused row
  aborts the whole file. `ParseCsv` is the loop; `Parse` is the function it is
  proved against, and the lemmas state what `Parse` guarantees.
- `hospital_client.dfy` (`HospitalClient`): the client functions as pure
  functions. Each takes an `HttpOutcome`: a response with its status, text and
  decoded body, an `httpx.RequestError`, or any other exception. Each maps that
  outcome to the dict or boolean the Python function returns.
- `endpoints.dfy` (`Endpoints`): `bulk_create_hospitals`. It checks the file
  extension, parses the file, and enforces the 20-row ceiling. It numbers the
  create calls 1..n, gathers their outcomes in order, counts the failures, gates
  activation, and builds the report. `BuildTasks` and `CollectResults` are the
  two loops of the handler.
- `models.dfy` (`Models`): `HospitalResult` and the per-row result entry.
- `values.dfy`, `text.dfy`: the Python values and string built-ins the code
  relies on. These are JSON values and their truthiness, `dict.get`,
  `str.isspace`, `str.strip`, `str.endswith` and `str(int)`.

Two behaviours of the code are modelled as written, although a reader might
expect otherwise:

- The emptiness test in `parse_csv` looks at the raw field, before `strip()`.
  A name made only of spaces passes and is emitted as `""`
  (`CsvUtils.WhitespaceOnlyFieldsPass`).
- `failed_hospitals` counts only the create calls that raised. `create_hospital`
  catches every `Exception` and returns a dict with status `"failed"`, and such a
  dict is not counted. A batch whose every create was refused by the directory
  therefore reports all rows as processed and is still sent for activation
  (`Endpoints.ReturnedFailuresNotCounted`, `Endpoints.FailedEntriesSplit`).

A header without a `name` or `address` column passes the header check. Without
`name`, the first data row raises `KeyError('name')`. Without `address`, the
first row whose name is non-empty raises `KeyError('address')`, but an earlier
row with an empty name is refused with 400 first, because `not row["name"]`
short-circuits the `or`. Nothing catches the `KeyError`, and the model gives it
the status 500 that the web framework answers with.

## Model

| member | source | states |
|---|---|---|
| `Values.Get` | app/hospital_client.py:15-17 | `dict.get(key, default)` gives the stored value when the key is present and the default otherwise |
| `Text.Strip` | app/csv_utils.py:19-21 | a stripped field has no whitespace at either end and is no longer than the raw field |
| `Text.StripSlice` | app/csv_utils.py:19-20 | `strip()` returns a contiguous slice of the field, and everything it drops before and after that slice is whitespace |
| `Text.StripUnique` | app/csv_utils.py:19-20 | any slice that has no whitespace at its ends and only whitespace around it is exactly `strip()`'s result (an independent characterisation) |
| `Text.StripIdempotent` | app/csv_utils.py:19-20 | stripping an emitted name or address again changes nothing |
| `Text.StripAllSpace` | app/csv_utils.py:19-20 | a field made only of whitespace strips to the empty string |
| `Text.EndsWithIffConcat` | app/main.py:25 | `filename.endswith(".csv")` holds exactly when the name is some string followed by ".csv" |
| `Text.NatToStringRoundTrip` | app/hospital_client.py:23 | the decimal digits of a non-negative code read back as that code |
| `Text.IntToStringRoundTrip` | app/hospital_client.py:23 | a status code rendered into an error text reads back as the same int, sign included |
| `Text.IntToStringInjective` | app/hospital_client.py:23 | distinct status codes render as distinct texts |
| `CsvUtils.ParseCsv` | app/csv_utils.py:5-24 | the loop returns exactly `Parse(header, rows)`: header check first, then the rows in order, stopping at the first refused row |
| `CsvUtils.Phone` | app/csv_utils.py:21 | phone is `None` iff the column is absent or strips to ""; otherwise it is the stripped, non-empty value |
| `CsvUtils.AsDict` | app/csv_utils.py:18-22 | an emitted record is a dict with exactly the keys name, address and phone, holding the stripped name and address, and the stripped phone or `None` |
| `CsvUtils.HeaderCheck` | app/csv_utils.py:10-12 | the parse fails with invalid headers iff some column name is outside {name, address, phone}; absent columns do not fail the check |
| `CsvUtils.RowsNeverBlameHeaders` | app/csv_utils.py:14-17 | no data row can produce the header error, so the header check alone decides it |
| `CsvUtils.ParseRowsSucceeds` | app/csv_utils.py:14-24 | rows parse iff every row has a non-empty raw name and address; then there is one record per row, and record i is row i normalised |
| `CsvUtils.FirstRefusedRow` | app/csv_utils.py:15-17 | a failed parse reports the error of the first refused row, and every row before it is well-formed |
| `CsvUtils.NormalizedFieldsTrimmed` | app/csv_utils.py:19-20 | emitted name and address have no leading or trailing whitespace |
| `CsvUtils.WhitespaceOnlyFieldsPass` | app/csv_utils.py:16-20 | a whitespace-only name and address pass the emptiness test, which sees the raw value, and are emitted as "" |
| `CsvUtils.NoPhoneColumn` | app/csv_utils.py:10-21 | a file with only name and address columns is accepted, and every record has no phone |
| `CsvUtils.NameColumnAbsent` | app/csv_utils.py:11-16 | a header without `name` passes the header check, but the first row then raises `KeyError('name')` |
| `CsvUtils.EmptyAddressExample` | app/csv_utils.py:15-17 | rows `A,123 St,555` and `B,,` fail on the second row for a missing field |
| `HospitalClient.CreatePayload` | app/hospital_client.py:8 | the POST body is the hospital dict with `creation_batch_id` set to the batch id; it overrides any earlier value, and every other key is unchanged |
| `HospitalClient.FailedRow` | app/hospital_client.py:19-36 | a failure dict carries the given row, and its error starts with exactly one of "HTTP ", "Request error: ", "Unexpected error: " |
| `HospitalClient.FromBody` | app/hospital_client.py:12-36 | once the status passed: an undecodable body, a non-dict body (`AttributeError` text) and an input without `name` (`KeyError('name')`) each give their "Unexpected error: " message; a dict body gives a created row iff the `id` (default -1) is an int and the `name` (default the input name) is a string, and otherwise the first line of the validation error, which counts exactly the refused fields; a created row holds those values, with status "created_and_activated" iff `active` is truthy |
| `HospitalClient.CreateHospital` | app/hospital_client.py:6-36 | total over every outcome (never raises); every result carries its row number; a non-2xx status gives "HTTP <code>: <text>", a transport error gives "Request error: <message>", and every other exception gives "Unexpected error: ..."; a created row comes only from a 2xx response, and for every 2xx response the result is what `FromBody` states: the body-specific "Unexpected error: " messages, created iff the id is an int and the name a string, the validation headline counting exactly the refused fields, and the created row's id, name and status |
| `HospitalClient.OneRefusedFieldMessage` | app/hospital_client.py:13-18 | the validation headline for one refused field reads "1 validation error for HospitalResult" |
| `HospitalClient.NullIdRefusedOnce` | app/hospital_client.py:10-18 | a 201 whose body is `{"id": null}` gives a failed row whose message counts exactly one refused field |
| `HospitalClient.ActivateBatch` | app/hospital_client.py:38-44 | true iff the PATCH got status exactly 200; any other code, other 2xx codes included, and any exception give false |
| `HospitalClient.DeleteHospital` | app/hospital_client.py:70-73 | a response is echoed with its status code, and the message is "Deleted" on 200 and the response text otherwise; exceptions propagate |
| `HospitalClient.ListReply` | app/hospital_client.py:47-52 | a 200 response gives its body, and any other status gives `{"error": prefix + str(status)}`; exceptions and an undecodable 200 body propagate |
| `HospitalClient.ErrorDictNamesStatus` | app/hospital_client.py:52 | the error dict's message names the status code so exactly that the code can be read back from it |
| `HospitalClient.GetAllHospitals` | app/hospital_client.py:47-52 | the body iff the status is 200; otherwise an error dict from which the status can be read back |
| `HospitalClient.GetHospitalsByBatch` | app/hospital_client.py:76-81 | the same as above, with the batch id in the error message |
| `Endpoints.Gather` | app/main.py:41 | gathered element i is the outcome of call i, whatever order the calls complete in |
| `Endpoints.BuildTasks` | app/main.py:37-39 | one create call per record, in order; call k (from 0) gets row number k + 1, and every call gets the same batch id |
| `Endpoints.CollectResults` | app/main.py:43-48 | one entry per gathered element, in order; an exception becomes a failed entry with no row; the counter equals the number of exceptions |
| `Endpoints.EntryRow` | app/main.py:43-48 | an entry returned by a create call carries that call's row number, and an exception entry carries no row |
| `Endpoints.EntriesAttributed` | app/main.py:37-48 | with calls numbered 1..n, report entry i carries row i + 1 when its call returned and no row when it raised |
| `Endpoints.ProcessBatch` | app/main.py:37-67 | the report lists one entry per record in record order, and entry i answers call i (row i + 1); processed + failed = total; failed counts only the calls that raised; activation is sent iff failed < total; `batch_activated` is true only if activation was sent and answered 200 |
| `Endpoints.BulkCreateHospitals` | app/main.py:21-67 | a name not ending in ".csv" is rejected with 400 before any parsing; parse errors give 400, or 500 for `KeyError`; more than 20 records gives 400, while exactly 20 is accepted; a rejection makes no remote call; an accepted upload yields one record per data row, and its report is as `ProcessBatch` states |
| `Endpoints.CountRaisedBounds` | app/main.py:43-46 | the failure counter is at most the number of calls; it is 0 iff no call raised and equals the number of calls iff every call raised |
| `Endpoints.FailedEntriesSplit` | app/main.py:43-48 | report entries with status "failed" are the raised calls plus the failed dicts that were returned, and only the first kind is counted |
| `Endpoints.ActivationGate` | app/main.py:51-53 | activation is attempted iff at least one call did not raise; with zero rows or all calls raising it is never attempted |
| `Endpoints.ReturnedFailuresNotCounted` | app/main.py:43-53 | when no call raises, `failed_hospitals` is 0 even if the directory refused every create, so activation is still attempted |

## Left out

- HTTP transport: `httpx` clients, connection handling, timeouts and the base URL. Each exchange is an `HttpOutcome` parameter, and the request actually sent is not tied to that outcome.
- asyncio scheduling: `gather` is modelled only as an order-preserving map over one `CallFate` per call, so the order in which calls complete is not modelled.
- FastAPI routing, `UploadFile.read`, `JSONResponse` and the key order of the JSON bodies. Results are Dafny datatypes standing for the dicts.
- The pass-through proxies `create_hospital_individual`, `get_hospital_by_id`, `update_hospital`, their route functions and `health_check`. They only return the remote body, so they hold no logic.
- UTF-8 decoding and the `csv` module: quoting, dialects and skipping blank lines. The header and the rows arrive already split.
- Rows whose field count differs from the header's, where `DictReader` fills in `None` and a `None` phone then raises. Row values are always strings in this model.
- An empty upload, where `fieldnames` is `None` and the header check raises `TypeError`. The header is always a list here.
- The `detail` texts of the header and missing-field `HTTPException`s: the header error prints a Python set, whose order is not fixed, and the model's rows are unordered maps, so the model carries the reason instead.
- `uuid4()`: the batch id is a parameter.
- The elapsed time and `round(..., 2)`: wall clock and floating point. JSON floats are not modelled at all.
- Exceptions that are not `Exception`s (for example task cancellation), and an upload without a file name.
- `HospitalClient.FromBody`, `HospitalClient.CreateHospital`: pydantic's lax coercions are not modelled. Numeric strings and booleans given as `id` are treated as validation failures, as is any `name` that is not a JSON string; floats cannot occur, since the model's JSON values have none. The validation error text is only its first line.
- `HospitalClient.IsSuccess`: treating every non-2xx status (1xx and 3xx included) as an error assumes httpx 0.23 or later, where `raise_for_status` raises for every status outside 2xx. Earlier versions raised only for 4xx and 5xx, and the repository pins no version.
