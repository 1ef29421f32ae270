/**
 * The tables the modelled handlers write, as the handlers see them through
 * their queries, and the directory the photo files live in. Query text and
 * connection handling are not modelled: each write query the handlers issue
 * is one method here; the read queries' results are inputs elsewhere.
 */
module Store {
  import opened Routes

  /** A row of `prefect_events` or `participant_events`, keyed by its `relation_id`. */
  datatype Relation = Relation(person_id: int, event_id: int)

  /** A row of `photos`, keyed by its `id`. */
  datatype Photo = Photo(path: string, event_id: int)

  datatype JoinTable = PrefectEvents | ParticipantEvents

  /**
   * The store's uniqueness constraint: at most one relation per (person,
   * event) pair. It only records the constraint; the modelled handlers never
   * add a relation, and removal keeps it.
   */
  predicate UniquePairs(rows: map<int, Relation>) {
    forall r1, r2 :: r1 in rows && r2 in rows && rows[r1] == rows[r2] ==> r1 == r2
  }

  class Database {
    var events: map<int, DbEvent>
    /** The next value of the `events.id` sequence. */
    var nextEventId: int
    var prefectEvents: map<int, Relation>
    var participantEvents: map<int, Relation>
    var photos: map<int, Photo>

    ghost predicate Valid()
      reads this
    {
      && (forall id :: id in events ==> id < nextEventId && events[id].id == id)
      && UniquePairs(prefectEvents)
      && UniquePairs(participantEvents)
    }

    constructor ()
      ensures Valid()
      ensures events == map[] && prefectEvents == map[] && participantEvents == map[] && photos == map[]
    {
      events, nextEventId := map[], 1;
      prefectEvents, participantEvents, photos := map[], map[], map[];
    }

    /** The rows of one join table, by `relation_id`. */
    function Rows(table: JoinTable): map<int, Relation>
      reads this
    {
      match table
      case PrefectEvents => prefectEvents
      case ParticipantEvents => participantEvents
    }

    /** `INSERT INTO events … RETURNING id`: the store assigns the next id. */
    method InsertEvent(event_name: string, date: NaiveDateTime, location: string, teacher: string,
                       other_info: Option<string>)
      returns (id: int)
      requires Valid()
      modifies this`events, this`nextEventId
      ensures Valid()
      ensures id == old(nextEventId) && id !in old(events)
      ensures events == old(events)[id := DbEvent(id, event_name, date, location, teacher, other_info)]
    {
      id := nextEventId;
      events := events[id := DbEvent(id, event_name, date, location, teacher, other_info)];
      nextEventId := nextEventId + 1;
    }

    /** `UPDATE events SET … WHERE id = $1`: touches the row with that id, if there is one. */
    method UpdateEvent(id: int, event_name: string, date: NaiveDateTime, location: string, teacher: string,
                       other_info: string)
      requires Valid()
      modifies this`events
      ensures Valid()
      ensures events == if id in old(events)
                        then old(events)[id := DbEvent(id, event_name, date, location, teacher, Some(other_info))]
                        else old(events)
    {
      if id in events {
        events := events[id := DbEvent(id, event_name, date, location, teacher, Some(other_info))];
      }
    }

    /**
     * `DELETE FROM <table> WHERE relation_id = $1 RETURNING event_id` read with
     * `fetch_one`: the row goes and its event id comes back; with no such row
     * nothing changes and the read fails.
     */
    method DeleteRelation(table: JoinTable, relation_id: int) returns (r: Result<int>)
      requires Valid()
      modifies this`prefectEvents, this`participantEvents
      ensures Valid()
      ensures Rows(table) == old(Rows(table)) - {relation_id}
      ensures forall t :: t != table ==> Rows(t) == old(Rows(t))
      ensures r == if relation_id in old(Rows(table))
                   then Ok(old(Rows(table))[relation_id].event_id)
                   else Err(RowNotFound)
    {
      var rows := Rows(table);
      if relation_id !in rows {
        return Err(RowNotFound);
      }
      r := Ok(rows[relation_id].event_id);
      match table
      case PrefectEvents => prefectEvents := prefectEvents - {relation_id};
      case ParticipantEvents => participantEvents := participantEvents - {relation_id};
    }

    /**
     * `DELETE FROM photos WHERE id = $1 RETURNING path, event_id` read with
     * `fetch_one`.
     */
    method DeletePhoto(id: int) returns (r: Result<Photo>)
      requires Valid()
      modifies this`photos
      ensures Valid()
      ensures photos == old(photos) - {id}
      ensures r == if id in old(photos) then Ok(old(photos)[id]) else Err(RowNotFound)
    {
      if id !in photos {
        return Err(RowNotFound);
      }
      r := Ok(photos[id]);
      photos := photos - {id};
    }
  }

  /**
   * The directory the uploaded photos are stored in: the paths that exist,
   * and among them those the server cannot remove (permission denied, a
   * directory at the path, ...).
   */
  class FileSystem {
    var files: set<string>
    var unremovable: set<string>

    constructor (files: set<string>, unremovable: set<string>)
      ensures this.files == files && this.unremovable == unremovable
    {
      this.files, this.unremovable := files, unremovable;
    }

    /**
     * `tokio::fs::remove_file`: fails when nothing is at the path, or when
     * what is there cannot be removed; only a successful call changes the
     * directory.
     */
    method RemoveFile(path: string) returns (r: Result<()>)
      modifies this`files
      ensures r.Ok? <==> path in old(files) && path !in unremovable
      ensures path !in old(files) ==> r == Err(FileNotFound(path))
      ensures path in old(files) && path in unremovable ==> r == Err(RemoveFailed(path))
      ensures files == if r.Ok? then old(files) - {path} else old(files)
    {
      if path !in files {
        return Err(FileNotFound(path));
      }
      if path in unremovable {
        return Err(RemoveFailed(path));
      }
      files := files - {path};
      r := Ok(());
    }
  }
}
