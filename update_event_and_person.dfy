/**
 * The event-edit handlers of src/routes/update_event_and_person.rs: building
 * the edit page, saving the edited event, removing a prefect or participant
 * by relation id, and deleting a photo. Every handler that succeeds redirects
 * to the event's edit page.
 */
module UpdateEventAndPerson {
  import opened Routes
  import opened Roster
  import opened Store
  import opened AddEvent

  /** The `event` object of the edit page: the stored row, `other_info` defaulted to "". */
  datatype EventView = EventView(
    id: int, event_name: string, date: NaiveDateTime, location: string, teacher: string, other_info: string)

  /** A photo of the event as the edit page lists it. */
  datatype Image = Image(path: string, id: int)

  /** Everything `get_update_event` hands to the template. */
  datatype UpdateEventPage = UpdateEventPage(event: EventView, roster: RosterView, n_imgs: nat, imgs: seq<Image>)

  function ViewOf(e: DbEvent): EventView {
    EventView(e.id, e.event_name, e.date, e.location, e.teacher, e.other_info.UnwrapOr(""))
  }

  /**
   * `get_update_event` for the path's `event_id`, given what its queries
   * return: the event row with that id (`None` when there is none), the event's prefect and participant
   * rows, the `is_prefect` people, all people, and the event's photos.
   */
  method GetUpdateEvent(event_id: int, event: Option<DbEvent>, prefectRows: seq<Person>, participantRows: seq<Person>,
                        prefectUniverse: seq<Person>, everyone: seq<Person>, photos: seq<Image>)
    returns (r: Result<UpdateEventPage>)
    requires event.Some? ==> event.value.id == event_id
    ensures event.None? ==> r == Err(RowNotFound)
    ensures event.Some? ==>
              && r.Ok?
              && r.value.event.id == event_id
              && r.value.event.event_name == event.value.event_name
              && r.value.event.date == event.value.date
              && r.value.event.location == event.value.location
              && r.value.event.teacher == event.value.teacher
              && r.value.event.other_info == (if event.value.other_info.Some? then event.value.other_info.value else "")
              && r.value.n_imgs == |photos| && r.value.imgs == photos
    ensures r.Ok? ==>
              var view := r.value.roster;
              && IsGrouping(prefectRows, view.existing_prefects)
              && IsGrouping(participantRows, view.existing_participants)
              && IsGrouping(Unassigned(prefectUniverse, view.existing_prefects), view.prefects)
              && IsGrouping(Unassigned(everyone, view.existing_participants), view.participants)
  {
    if event.None? {
      return Err(RowNotFound);
    }
    var roster := BuildRoster(prefectRows, participantRows, prefectUniverse, everyone);
    r := Ok(UpdateEventPage(ViewOf(event.value), roster, |photos|, photos));
  }

  /**
   * `post_update_event`: convert the form, then overwrite the row whose id is
   * the one in the path (the converted row's own id, -1, is dropped), with
   * absent notes stored as "". An unknown id updates nothing and still
   * redirects.
   */
  method PostUpdateEvent(db: Database, event_id: int, form: FormEvent, parse: DateParser)
    returns (r: Result<Redirect>)
    requires db.Valid()
    modifies db`events
    ensures db.Valid()
    ensures r.Err? <==> parse(form.date).None?
    ensures r.Err? ==> r.error == DateParse && db.events == old(db.events)
    ensures r.Ok? ==>
              && r.value == RedirectToUpdateEvent(event_id)
              && db.events == if event_id in old(db.events)
                              then old(db.events)[event_id := DbEvent(event_id, form.name, parse(form.date).value,
                                                                      form.location, form.teacher, Some(form.info))]
                              else old(db.events)
  {
    var converted := TryFromFormEvent(form, parse);
    if converted.Err? {
      return Err(converted.error);
    }
    var DbEvent(_, event_name, date, location, teacher, other_info) := converted.value;
    db.UpdateEvent(event_id, event_name, date, location, teacher, other_info.UnwrapOr(""));
    r := Ok(RedirectToUpdateEvent(event_id));
  }

  /**
   * Saving the edit form unchanged keeps the event as it was (absent notes
   * become ""), provided the date shown in the form parses back to the
   * stored date.
   */
  lemma ResubmittedEventIsUnchanged(e: DbEvent, show: NaiveDateTime -> string, parse: DateParser)
    requires parse(show(e.date)) == Some(e.date)
    ensures var v := ViewOf(e);
            var form := FormEvent(v.event_name, show(v.date), v.location, v.teacher, v.other_info);
            && TryFromFormEvent(form, parse).Ok?
            && TryFromFormEvent(form, parse).value.(id := e.id) == e.(other_info := Some(e.other_info.UnwrapOr("")))
  {
  }

  /** `get_remove_prefect_from_event`: delete the prefect relation and return to its event. */
  method GetRemovePrefectFromEvent(db: Database, relation_id: int) returns (r: Result<Redirect>)
    requires db.Valid()
    modifies db`prefectEvents, db`participantEvents
    ensures db.Valid()
    ensures db.prefectEvents == old(db.prefectEvents) - {relation_id}
    ensures db.participantEvents == old(db.participantEvents)
    ensures r == if relation_id in old(db.prefectEvents)
                 then Ok(RedirectToUpdateEvent(old(db.prefectEvents)[relation_id].event_id))
                 else Err(RowNotFound)
  {
    var deleted := db.DeleteRelation(PrefectEvents, relation_id);
    assert db.Rows(ParticipantEvents) == old(db.Rows(ParticipantEvents));
    if deleted.Err? {
      return Err(deleted.error);
    }
    r := Ok(RedirectToUpdateEvent(deleted.value));
  }

  /** `get_remove_participant_from_event`: delete the participant relation and return to its event. */
  method GetRemoveParticipantFromEvent(db: Database, relation_id: int) returns (r: Result<Redirect>)
    requires db.Valid()
    modifies db`prefectEvents, db`participantEvents
    ensures db.Valid()
    ensures db.participantEvents == old(db.participantEvents) - {relation_id}
    ensures db.prefectEvents == old(db.prefectEvents)
    ensures r == if relation_id in old(db.participantEvents)
                 then Ok(RedirectToUpdateEvent(old(db.participantEvents)[relation_id].event_id))
                 else Err(RowNotFound)
  {
    var deleted := db.DeleteRelation(ParticipantEvents, relation_id);
    assert db.Rows(PrefectEvents) == old(db.Rows(PrefectEvents));
    if deleted.Err? {
      return Err(deleted.error);
    }
    r := Ok(RedirectToUpdateEvent(deleted.value));
  }

  /**
   * `delete_image`: delete the photo row first, then its file. A missing row
   * fails before the file is touched; a file that cannot be removed fails
   * after the row is already gone, and the row stays gone.
   */
  method DeleteImage(db: Database, fs: FileSystem, img_id: int) returns (r: Result<Redirect>)
    requires db.Valid()
    modifies db`photos, fs`files
    ensures db.Valid()
    ensures db.photos == old(db.photos) - {img_id}
    ensures img_id !in old(db.photos) ==> r == Err(RowNotFound) && fs.files == old(fs.files)
    ensures img_id in old(db.photos) ==>
              var photo := old(db.photos)[img_id];
              && (r.Ok? <==> photo.path in old(fs.files) && photo.path !in fs.unremovable)
              && (r.Ok? ==> r.value == RedirectToUpdateEvent(photo.event_id) && fs.files == old(fs.files) - {photo.path})
              && (photo.path !in old(fs.files) ==> r == Err(FileNotFound(photo.path)))
              && (photo.path in old(fs.files) && photo.path in fs.unremovable ==> r == Err(RemoveFailed(photo.path)))
              && (r.Err? ==> fs.files == old(fs.files))
  {
    var deleted := db.DeletePhoto(img_id);
    if deleted.Err? {
      return Err(deleted.error);
    }
    var photo := deleted.value;
    var removed := fs.RemoveFile(photo.path);
    if removed.Err? {
      return Err(removed.error);
    }
    r := Ok(RedirectToUpdateEvent(photo.event_id));
  }
}
