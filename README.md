# vent event roster, modelled in Dafny

This project models the event-editing core of the vent school-club web
application: how the edit page of an event builds its four rosters
(existing prefects, existing participants, prefects who could still be added,
people who could still be added as participants), how an event form becomes
an event row, and how the handlers that save an event, remove a prefect or a
participant by relation id, and delete a photo change the store.

Modules, one per source file or concern:

- `Routes` (`routes.dfy`): the event row `DbEvent`, `Option`, `Result`, the
  errors the handlers surface, and the redirect a handler answers with.
- `Roster` (`roster.dfy`): the person rows, form groups, the fold of rows
  into a map keyed by form (`FoldByForm`), `into_values` (`IntoValues`, which
  picks the values in an unspecified order), the identity filter
  (`Unassigned`), and the four folds together (`BuildRoster`). Each fold is
  specified by `IsGrouping`: one group per form present among the rows, every
  group holding exactly the rows of its form in fetch order, and no promise
  about the order of the groups.
- `RosterProperties` (`roster_properties.dfy`): what `IsGrouping` and the
  filter imply. Every row sits in the group of its form, no group is empty,
  nothing is lost or duplicated, and two outcomes differ only in group order.
  The possible lists are exactly the universe minus the existing people, by
  id. It also contains a worked roster with three prefects.
- `Store` (`store.dfy`): the `events`, `prefect_events`, `participant_events`
  and `photos` tables as maps held by a `Database` object, one method per
  write query the handlers issue, and the photo directory as a set of paths held by
  a `FileSystem` object.
- `AddEvent` (`add_event.dfy`): `TryFrom<FormEvent> for DbEvent` and
  `post_add_event_form`.
- `UpdateEventAndPerson` (`update_event_and_person.dfy`): `get_update_event`,
  `post_update_event`, the two remove handlers and `delete_image`.

Query results are inputs. The prefect and participant rows of the event, the
`is_prefect` people and all people reach `BuildRoster` as sequences in the
order the store returned them. The event row reaches `GetUpdateEvent` as an
`Option`, with `None` when no row has the id. chrono's
`NaiveDateTime::parse_from_str(_, "%Y-%m-%dT%H:%M")` is a parameter
`parse: string -> Option<NaiveDateTime>` of every member that converts a form.

Two behaviours of the code worth knowing:

- A failed `remove_file` (`src/routes/update_event_and_person.rs:264`) is
  propagated by `?` after the photo row is deleted. `DeleteImage` then returns
  `Err(FileNotFound(path))` or `Err(RemoveFailed(path))`, and the row stays
  gone.
- Group order comes from `HashMap::into_values` (lines 80, 100, 121, 141) and
  is unspecified; the model promises none.

## Model

| member | source | states |
|---|---|---|
| `Roster.PeopleOfForm` | src/routes/update_event_and_person.rs:75-78 | the people pushed into the group of form `f` are rows of the input with that form, every such row is among them, and there are no more of them than rows |
| `Roster.PeopleOfAbsentForm` | src/routes/update_event_and_person.rs:75-77 | a form no row has gets no people, so a freshly inserted group starts empty |
| `Roster.FoldByForm` | src/routes/update_event_and_person.rs:62-79 | after the loop the map's keys are exactly the forms among the rows, and each key maps to the group of that form holding its rows in fetch order |
| `Roster.IntoValues` | src/routes/update_event_and_person.rs:80 | collecting the values yields each group once: forms pairwise distinct, forms equal to the map's keys, each element the map's value for its form |
| `Roster.GroupByForm` | src/routes/update_event_and_person.rs:62-80 | one fold yields a grouping of the rows (`IsGrouping`): one group per distinct form, forms equal to the rows' forms, each group's people the rows of its form in fetch order |
| `Roster.Unassigned` | src/routes/update_event_and_person.rs:115 | a universe row survives the filter iff no person of the existing groups has its id (the same closure as line 135); survivors keep fetch order |
| `Roster.GroupUnassigned` | src/routes/update_event_and_person.rs:102-121 | the possible fold is a grouping of the universe rows that survive the identity filter |
| `Roster.BuildRoster` | src/routes/update_event_and_person.rs:62-141 | the four lists are groupings of the prefect rows, the participant rows, the unassigned `is_prefect` people and the unassigned people, the filters using the existing groups just built |
| `RosterProperties.GroupingPlacesEveryRow` | src/routes/update_event_and_person.rs:75-78 | every fetched person is in a group whose form is that person's form |
| `RosterProperties.GroupsNonEmpty` | src/routes/update_event_and_person.rs:75-78 | no group is empty |
| `RosterProperties.FlattenIsRowsOfForms` | src/routes/update_event_and_person.rs:62-80 | groups with distinct forms, each holding the rows of its form, together hold exactly the rows of their forms |
| `RosterProperties.GroupingKeepsEveryRowOnce` | src/routes/update_event_and_person.rs:63-80 | the people of all groups are the fetched rows as a multiset, so their total count equals the number of rows: nothing dropped or duplicated |
| `RosterProperties.DistinctGroupsOccurOnce` | src/routes/update_event_and_person.rs:80 | a group list with distinct forms holds each group at most once |
| `RosterProperties.GroupingsAgreeUpToOrder` | src/routes/update_event_and_person.rs:80 | any two outcomes of a fold over the same rows hold the same groups, each once: only the order of the groups is left open |
| `RosterProperties.SameGroups` | src/routes/update_event_and_person.rs:80 | a group of one outcome of a fold is a group of every other outcome for the same rows |
| `RosterProperties.AssignedIffFetched` | src/routes/update_event_and_person.rs:115 | an id occurs among the existing groups iff some fetched existing row has it, so filtering against the groups is filtering against the rows |
| `RosterProperties.PossibleIsComplement` | src/routes/update_event_and_person.rs:103-141 | a person is in the possible groups iff that person is in the universe and no existing row has the person's id: disjoint by id, and complete |
| `RosterProperties.RosterCoversUniverse` | src/routes/update_event_and_person.rs:103-121 | every universe row is either assigned already or in the possible group of its own form |
| `RosterProperties.BuiltRosterIsComplete` | src/routes/update_event_and_person.rs:102-141 | for a built roster, possible prefects are the `is_prefect` people minus the event's prefects and possible participants are all people minus its participants, by id |
| `RosterProperties.SingleRowGrouping` | src/routes/update_event_and_person.rs:62-80 | folding one row yields exactly one group holding it |
| `RosterProperties.TwoFormGrouping` | src/routes/update_event_and_person.rs:62-80 | folding two rows of different forms yields their two singleton groups, in either order |
| `RosterProperties.WorkedRosterBefore` | src/routes/update_event_and_person.rs:62-121 | with prefects Alice (9) and Bob (10) on the event and universe Alice, Bob, Carol (9), the possible prefects are exactly one form-9 group holding Carol |
| `RosterProperties.WorkedRosterAfterRemovingBob` | src/routes/update_event_and_person.rs:62-121 | once only Alice remains, existing prefects are one form-9 group with Alice and the possible prefects are a form-10 group with Bob and a form-9 group with Carol, in either order |
| `Store.Database.InsertEvent` | src/routes/add_event.rs:89-103 | the insert adds exactly one row under a fresh id and returns that id |
| `Store.Database.UpdateEvent` | src/routes/update_event_and_person.rs:196-210 | the update overwrites the row with the given id, with `other_info` stored non-null, and changes nothing if no row has that id |
| `Store.Database.DeleteRelation` | src/routes/update_event_and_person.rs:221-230 | deleting by relation id removes exactly that row from that join table and returns its event id; an unknown id fails with `RowNotFound`; the other join table is unchanged (same query shape as lines 240-249) |
| `Store.Database.DeletePhoto` | src/routes/update_event_and_person.rs:256-262 | deleting a photo removes exactly that row and returns its path and event id; an unknown id fails and changes nothing |
| `Store.FileSystem.RemoveFile` | src/routes/update_event_and_person.rs:264 | removal succeeds iff something is at the path and it is removable, and then drops exactly that path; otherwise it fails (`FileNotFound` for nothing there, `RemoveFailed` for an unremovable entry) and the directory is unchanged |
| `AddEvent.TryFromFormEvent` | src/routes/add_event.rs:48-71 | conversion succeeds iff the date parses; on success the id is -1, `other_info` is `Some(info)`, and name, location, teacher and the parsed date are carried over; on failure the error is the parse error |
| `AddEvent.PostAddEventForm` | src/routes/add_event.rs:73-106 | a date that does not parse fails before any write, leaving the events table and its id sequence unchanged; otherwise exactly one event row is inserted under a fresh id with the converted fields, and the reply redirects to `LOCATION` = "/add_event" |
| `UpdateEventAndPerson.GetUpdateEvent` | src/routes/update_event_and_person.rs:17-178 | a missing event fails with `RowNotFound`; otherwise the page shows the requested `event_id` and the event's fields with absent `other_info` as "", the photo count and photos, and four groupings as `BuildRoster` promises |
| `UpdateEventAndPerson.PostUpdateEvent` | src/routes/update_event_and_person.rs:179-213 | a date that does not parse fails with no write; otherwise the row with the path's `event_id` (never the converted id -1) gets the form's fields with notes `Some(info)`, no other row changes, and the reply redirects to that event |
| `UpdateEventAndPerson.ResubmittedEventIsUnchanged` | src/routes/update_event_and_person.rs:160-194 | sending back the shown event unchanged reproduces the stored row, except that absent notes become "", provided the shown date parses back |
| `UpdateEventAndPerson.GetRemovePrefectFromEvent` | src/routes/update_event_and_person.rs:215-233 | removes exactly the prefect relation with that id and redirects to its event; an unknown id fails with nothing changed; participant relations are untouched |
| `UpdateEventAndPerson.GetRemoveParticipantFromEvent` | src/routes/update_event_and_person.rs:234-252 | removes exactly the participant relation with that id and redirects to its event; an unknown id fails with nothing changed; prefect relations are untouched |
| `UpdateEventAndPerson.DeleteImage` | src/routes/update_event_and_person.rs:254-267 | the photo row is deleted first; an unknown photo fails before any file is touched; a missing or unremovable file fails with the row already and still deleted and the directory unchanged; otherwise both go and the reply redirects to the photo's event |

## Left out

- SQL: query text, joins, `ORDER BY p.form`, and the `is_prefect` filter run in the store. Their results are inputs to `BuildRoster` and `GetUpdateEvent`, in whatever order the store returns them.
- Store failures other than `fetch_one` finding no row: pool acquisition, connection and constraint errors. Read failures of the roster queries and of the photo query are not modelled either.
- Foreign keys between relations, people and events, and cascading deletes: the join tables are maps from relation id to (person id, event id).
- chrono: parsing under "%Y-%m-%dT%H:%M" is the parameter `parse`, and `date.to_string()` on the edit page is not modelled (the view carries the date itself).
- `DbPerson` columns other than id, first name, surname and form, which the roster code only passes through to the template.
- Liquid templates (`compile`), axum extractors and routing, the `info!` logging, and `get_add_event_form`, which only queries prefects and renders a template.
- Redirect targets are the datatype `Redirect`; the "/update_event/{id}" string formatting is not modelled.
- Concurrency between requests and races between the separate queries of `get_update_event`.
- Store.FileSystem.RemoveFile: which existing paths cannot be removed is the fixed set `unremovable`; the causes (permissions, a directory at the path, a transient I/O error) are not told apart.
