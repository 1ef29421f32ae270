/**
 * The in-memory roster construction of `get_update_event`
 * (src/routes/update_event_and_person.rs): person rows fetched from the store
 * are folded, one by one, into a map keyed by form whose values are then
 * collected; the two "possible" lists first drop every universe row whose id
 * already appears among the existing groups.
 */
module Roster {
  import opened Routes

  /**
   * A fetched person row. Rows of a join query (`PersonPlusRelID`) carry the
   * join row's `relation_id`; rows of the `people` table (`DbPerson`) carry
   * `None`.
   */
  datatype Person = Person(id: int, first_name: string, surname: string, form: string, relation_id: Option<int>)

  /** `RelFormGroup` / `DbFormGroup`: one form and the people pushed into it. */
  datatype FormGroup = FormGroup(form: string, people: seq<Person>)

  /** The four lists the edit page is rendered from. */
  datatype RosterView = RosterView(
    existing_prefects: seq<FormGroup>,
    existing_participants: seq<FormGroup>,
    prefects: seq<FormGroup>,
    participants: seq<FormGroup>)

  // ---------------------------------------------------------------------------
  // Specification of one fold

  /** The rows whose form is `f`, in fetch order. */
  function PeopleOfForm(rows: seq<Person>, f: string): (r: seq<Person>)
    ensures |r| <= |rows|
    ensures forall p :: p in r ==> p in rows && p.form == f
    ensures forall p :: p in rows && p.form == f ==> p in r
  {
    if rows == [] then []
    else
      var init, last := rows[..|rows| - 1], rows[|rows| - 1];
      assert rows == init + [last];
      if last.form == f then PeopleOfForm(init, f) + [last] else PeopleOfForm(init, f)
  }

  /** The forms among the rows. */
  function Forms(rows: seq<Person>): set<string> {
    set p | p in rows :: p.form
  }

  /** The forms the groups are keyed by. */
  function FormsOf(groups: seq<FormGroup>): set<string> {
    set g | g in groups :: g.form
  }

  predicate DistinctForms(groups: seq<FormGroup>) {
    forall i, j :: 0 <= i < j < |groups| ==> groups[i].form != groups[j].form
  }

  /**
   * `groups` is a possible outcome of folding `rows` into a map keyed by form
   * and collecting its values: one group per form present among the rows,
   * holding exactly the rows of that form in fetch order. Nothing is said
   * about the order of the groups themselves.
   */
  predicate IsGrouping(rows: seq<Person>, groups: seq<FormGroup>) {
    && DistinctForms(groups)
    && FormsOf(groups) == Forms(rows)
    && forall g :: g in groups ==> g.people == PeopleOfForm(rows, g.form)
  }

  /** All people of all groups, group after group. */
  function Flatten(groups: seq<FormGroup>): seq<Person> {
    if groups == [] then [] else groups[0].people + Flatten(groups[1..])
  }

  /** The rows whose form is one of `fs`, in fetch order. */
  function RowsOfForms(rows: seq<Person>, fs: set<string>): seq<Person> {
    if rows == [] then []
    else
      var init, last := rows[..|rows| - 1], rows[|rows| - 1];
      if last.form in fs then RowsOfForms(init, fs) + [last] else RowsOfForms(init, fs)
  }

  // ---------------------------------------------------------------------------
  // The identity filter (lines 115 and 135)

  /** Some person of some group has identity `id`. */
  predicate Assigned(groups: seq<FormGroup>, id: int) {
    exists g :: g in groups && exists e :: e in g.people && e.id == id
  }

  /** The universe rows whose id is not already assigned, in fetch order. */
  function Unassigned(universe: seq<Person>, existing: seq<FormGroup>): (r: seq<Person>)
    ensures |r| <= |universe|
    ensures forall p :: p in r <==> p in universe && !Assigned(existing, p.id)
  {
    if universe == [] then []
    else
      var init, last := universe[..|universe| - 1], universe[|universe| - 1];
      assert universe == init + [last];
      if Assigned(existing, last.id) then Unassigned(init, existing)
      else Unassigned(init, existing) + [last]
  }

  // ---------------------------------------------------------------------------
  // The folds as the handler runs them

  lemma PeopleOfFormSnoc(rows: seq<Person>, person: Person, f: string)
    ensures PeopleOfForm(rows + [person], f)
            == if person.form == f then PeopleOfForm(rows, f) + [person] else PeopleOfForm(rows, f)
  {
    assert (rows + [person])[..|rows|] == rows;
  }

  /** A form that no row has has no people. */
  lemma {:induction false} PeopleOfAbsentForm(rows: seq<Person>, f: string)
    requires f !in Forms(rows)
    ensures PeopleOfForm(rows, f) == []
  {
    if rows != [] {
      var init := rows[..|rows| - 1];
      assert rows == init + [rows[|rows| - 1]];
      assert Forms(init) <= Forms(rows);
      PeopleOfAbsentForm(init, f);
    }
  }

  /**
   * The `for person in rows { map.entry(form).or_insert(group).people.push(person) }`
   * loop: the map sends each form present among the rows to its group.
   */
  method FoldByForm(rows: seq<Person>) returns (byForm: map<string, FormGroup>)
    ensures byForm.Keys == Forms(rows)
    ensures forall f :: f in byForm ==> byForm[f] == FormGroup(f, PeopleOfForm(rows, f))
  {
    byForm := map[];
    for i := 0 to |rows|
      invariant byForm.Keys == Forms(rows[..i])
      invariant forall f :: f in byForm ==> byForm[f] == FormGroup(f, PeopleOfForm(rows[..i], f))
    {
      var person := rows[i];
      if person.form !in byForm {
        PeopleOfAbsentForm(rows[..i], person.form);
      }
      var group := if person.form in byForm then byForm[person.form] else FormGroup(person.form, []);
      byForm := byForm[person.form := group.(people := group.people + [person])];
      assert rows[..i + 1] == rows[..i] + [person];
      forall f ensures PeopleOfForm(rows[..i + 1], f)
                       == if person.form == f then PeopleOfForm(rows[..i], f) + [person] else PeopleOfForm(rows[..i], f)
      {
        PeopleOfFormSnoc(rows[..i], person, f);
      }
    }
    assert rows[..|rows|] == rows;
  }

  /**
   * `map.into_values().collect()`: every value once, in an order the choice
   * below leaves open, as `HashMap` iteration order is unspecified.
   */
  method IntoValues(byForm: map<string, FormGroup>) returns (groups: seq<FormGroup>)
    requires forall f :: f in byForm ==> byForm[f].form == f
    ensures DistinctForms(groups)
    ensures FormsOf(groups) == byForm.Keys
    ensures forall g :: g in groups ==> g.form in byForm && g == byForm[g.form]
  {
    groups := [];
    var remaining := byForm.Keys;
    while remaining != {}
      invariant FormsOf(groups) !! remaining
      invariant FormsOf(groups) + remaining == byForm.Keys
      invariant DistinctForms(groups)
      invariant forall g :: g in groups ==> g.form in byForm && g == byForm[g.form]
      decreases remaining
    {
      var f :| f in remaining;
      assert forall i :: 0 <= i < |groups| ==> groups[i] in groups;
      assert FormsOf(groups + [byForm[f]]) == FormsOf(groups) + {f};
      groups := groups + [byForm[f]];
      remaining := remaining - {f};
    }
  }

  /** One fold of `get_update_event`: group the rows by form, then collect the groups. */
  method GroupByForm(rows: seq<Person>) returns (groups: seq<FormGroup>)
    ensures IsGrouping(rows, groups)
  {
    var byForm := FoldByForm(rows);
    groups := IntoValues(byForm);
  }

  /**
   * The possible-prefects and possible-participants folds: the universe is
   * filtered by identity against the existing groups, then grouped by form.
   */
  method GroupUnassigned(universe: seq<Person>, existing: seq<FormGroup>) returns (groups: seq<FormGroup>)
    ensures IsGrouping(Unassigned(universe, existing), groups)
  {
    groups := GroupByForm(Unassigned(universe, existing));
  }

  /**
   * The four folds of `get_update_event`, given the four query results:
   * the event's prefect rows, its participant rows, the `is_prefect` people
   * and all people, each as fetched.
   */
  method BuildRoster(prefectRows: seq<Person>, participantRows: seq<Person>,
                     prefectUniverse: seq<Person>, everyone: seq<Person>)
    returns (view: RosterView)
    ensures IsGrouping(prefectRows, view.existing_prefects)
    ensures IsGrouping(participantRows, view.existing_participants)
    ensures IsGrouping(Unassigned(prefectUniverse, view.existing_prefects), view.prefects)
    ensures IsGrouping(Unassigned(everyone, view.existing_participants), view.participants)
  {
    var existingPrefects := GroupByForm(prefectRows);
    var existingParticipants := GroupByForm(participantRows);
    var possiblePrefects := GroupUnassigned(prefectUniverse, existingPrefects);
    var possibleParticipants := GroupUnassigned(everyone, existingParticipants);
    view := RosterView(existingPrefects, existingParticipants, possiblePrefects, possibleParticipants);
  }
}
