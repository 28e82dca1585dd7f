/** The per-row result shapes of the bulk endpoint (app/models.py). */
module Models {
  import opened Values

  /** HospitalResult: the record a successful create produces. */
  datatype HospitalResult = HospitalResult(row: int, hospitalId: int, name: string, status: string)

  /** One entry of the report's "hospitals" list. Created is
      HospitalResult(...).dict(); Failed is a dict with status "failed" and an
      "error" text, and with a "row" key only when row is Some. */
  datatype RowResult =
    | Created(result: HospitalResult)
    | Failed(row: Option<int>, error: string)
  {
    /** The value under the dict's "status" key. */
    function Status(): string {
      match this
      case Created(result) => result.status
      case Failed(_, _) => "failed"
    }

    /** The value under the dict's "row" key, if it has one. */
    function Row(): Option<int> {
      match this
      case Created(result) => Some(result.row)
      case Failed(row, _) => row
    }
  }
}
