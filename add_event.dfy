/**
 * The event form of src/routes/add_event.rs: its conversion into an event
 * row and the handler that stores a new event from it.
 */
module AddEvent {
  import opened Routes
  import opened Store

  /** Where the add-event page lives and where a successful post returns to. */
  const LOCATION: string := "/add_event"

  /** The submitted form, every field as the browser sent it. */
  datatype FormEvent = FormEvent(name: string, date: string, location: string, teacher: string, info: string)

  /**
   * `TryFrom<FormEvent> for DbEvent`. `parse` is chrono's parser for the
   * format "%Y-%m-%dT%H:%M". The row is provisional: its id is -1 until the
   * store assigns one.
   */
  function TryFromFormEvent(form: FormEvent, parse: DateParser): (r: Result<DbEvent>)
    ensures r.Ok? <==> parse(form.date).Some?
    ensures r.Err? ==> r.error == DateParse
    ensures r.Ok? ==> && r.value.id == -1
                      && r.value.date == parse(form.date).value
                      && r.value.event_name == form.name
                      && r.value.location == form.location
                      && r.value.teacher == form.teacher
                      && r.value.other_info == Some(form.info)
  {
    match parse(form.date)
    case None => Err(DateParse)
    case Some(date) => Ok(DbEvent(-1, form.name, date, form.location, form.teacher, Some(form.info)))
  }

  /**
   * `post_add_event_form`: convert, and only if that succeeds insert the row
   * under a fresh id and redirect back to the form.
   */
  method PostAddEventForm(db: Database, form: FormEvent, parse: DateParser) returns (r: Result<Redirect>)
    requires db.Valid()
    modifies db`events, db`nextEventId
    ensures db.Valid()
    ensures r.Err? <==> parse(form.date).None?
    ensures r.Err? ==> r.error == DateParse && db.events == old(db.events) && db.nextEventId == old(db.nextEventId)
    ensures r.Ok? ==>
              && r.value == RedirectTo(LOCATION)
              && var id := old(db.nextEventId);
                 && id !in old(db.events)
                 && db.events == old(db.events)[id := TryFromFormEvent(form, parse).value.(id := id)]
  {
    var converted := TryFromFormEvent(form, parse);
    if converted.Err? {
      return Err(converted.error);
    }
    var DbEvent(_, event_name, date, location, teacher, info) := converted.value;
    var _ := db.InsertEvent(event_name, date, location, teacher, info);
    r := Ok(RedirectTo(LOCATION));
  }
}
