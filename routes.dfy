/**
 * Shared records of the route handlers: the event row as the store holds it
 * (src/routes.rs), the error a handler can end in, and the redirect it answers
 * with on success.
 */
module Routes {

  datatype Option<T> = None | Some(value: T) {
    /** `Option::unwrap_or`; `unwrap_or_default` on a string is `UnwrapOr("")`. */
    function UnwrapOr(default: T): T {
      match this
      case Some(v) => v
      case None => default
    }
  }

  /** The failures the modelled handlers can surface through `?`. */
  datatype KnotError =
    | RowNotFound            // `fetch_one` saw no row
    | DateParse              // chrono rejected the date string
    | FileNotFound(path: string)  // `remove_file` found nothing at the path
    | RemoveFailed(path: string)  // `remove_file` could not remove what is there

  datatype Result<T> = Ok(value: T) | Err(error: KnotError)

  /** A chrono `NaiveDateTime`, field by field. */
  datatype NaiveDateTime = NaiveDateTime(year: int, month: nat, day: nat, hour: nat, minute: nat, second: nat)

  /**
   * The date parser `NaiveDateTime::parse_from_str(_, "%Y-%m-%dT%H:%M")`:
   * `None` where chrono reports a parse error.
   */
  type DateParser = string -> Option<NaiveDateTime>

  /** A row of the `events` table. */
  datatype DbEvent = DbEvent(
    id: int,
    event_name: string,
    date: NaiveDateTime,
    location: string,
    teacher: string,
    other_info: Option<string>)

  /** Where a successful handler redirects the browser. */
  datatype Redirect =
    | RedirectTo(location: string)
    | RedirectToUpdateEvent(event_id: int)  // "/update_event/{event_id}"
}
