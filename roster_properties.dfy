/**
 * What the roster folds of `get_update_event` guarantee: every fetched row
 * lands once, in the group of its own form, in fetch order; no group is
 * empty; two runs differ at most in the order of the groups; and the
 * possible lists are exactly the universe minus the existing people, by id.
 */
module RosterProperties {
  import opened Routes
  import opened Roster

  // ---------------------------------------------------------------------------
  // One fold

  /** Every fetched person is in the group keyed by that person's form. */
  lemma GroupingPlacesEveryRow(rows: seq<Person>, groups: seq<FormGroup>)
    requires IsGrouping(rows, groups)
    ensures forall p :: p in rows ==> exists g :: g in groups && g.form == p.form && p in g.people
  {
    forall p | p in rows
      ensures exists g :: g in groups && g.form == p.form && p in g.people
    {
      assert p.form in FormsOf(groups);
      var g :| g in groups && g.form == p.form;
      assert p in PeopleOfForm(rows, g.form);
    }
  }

  /** A group exists only because some person was pushed into it. */
  lemma GroupsNonEmpty(rows: seq<Person>, groups: seq<FormGroup>)
    requires IsGrouping(rows, groups)
    ensures forall g :: g in groups ==> g.people != []
  {
    forall g | g in groups
      ensures g.people != []
    {
      assert g.form in Forms(rows);
      var p :| p in rows && p.form == g.form;
      assert p in PeopleOfForm(rows, g.form);
    }
  }

  lemma {:induction false} RowsOfFormsSplit(rows: seq<Person>, f: string, fs: set<string>)
    requires f !in fs
    ensures multiset(RowsOfForms(rows, {f} + fs))
            == multiset(PeopleOfForm(rows, f)) + multiset(RowsOfForms(rows, fs))
  {
    if rows != [] {
      RowsOfFormsSplit(rows[..|rows| - 1], f, fs);
    }
  }

  lemma {:induction false} RowsOfNoForms(rows: seq<Person>)
    ensures RowsOfForms(rows, {}) == []
  {
    if rows != [] {
      RowsOfNoForms(rows[..|rows| - 1]);
    }
  }

  lemma {:induction false} FlattenIsRowsOfForms(rows: seq<Person>, groups: seq<FormGroup>)
    requires DistinctForms(groups)
    requires forall g :: g in groups ==> g.people == PeopleOfForm(rows, g.form)
    ensures multiset(Flatten(groups)) == multiset(RowsOfForms(rows, FormsOf(groups)))
  {
    if groups != [] {
      var rest := groups[1..];
      assert forall g :: g in rest ==> g in groups;
      assert FormsOf(groups) == {groups[0].form} + FormsOf(rest) by {
        assert groups == [groups[0]] + rest;
      }
      assert groups[0].form !in FormsOf(rest);
      FlattenIsRowsOfForms(rows, rest);
      RowsOfFormsSplit(rows, groups[0].form, FormsOf(rest));
      assert groups[0] in groups;
      calc {
        multiset(Flatten(groups));
        multiset(groups[0].people + Flatten(rest));
        multiset(PeopleOfForm(rows, groups[0].form)) + multiset(Flatten(rest));
        multiset(PeopleOfForm(rows, groups[0].form)) + multiset(RowsOfForms(rows, FormsOf(rest)));
        multiset(RowsOfForms(rows, {groups[0].form} + FormsOf(rest)));
      }
    } else {
      assert FormsOf(groups) == {};
      RowsOfNoForms(rows);
    }
  }

  lemma {:induction false} RowsOfAllForms(rows: seq<Person>, fs: set<string>)
    requires Forms(rows) <= fs
    ensures RowsOfForms(rows, fs) == rows
  {
    if rows != [] {
      var init := rows[..|rows| - 1];
      assert rows == init + [rows[|rows| - 1]];
      assert Forms(init) <= Forms(rows);
      RowsOfAllForms(init, fs);
    }
  }

  /**
   * Nothing is dropped or duplicated: the people of all groups together are
   * the fetched rows, each as often as it was fetched.
   */
  lemma GroupingKeepsEveryRowOnce(rows: seq<Person>, groups: seq<FormGroup>)
    requires IsGrouping(rows, groups)
    ensures multiset(Flatten(groups)) == multiset(rows)
    ensures |Flatten(groups)| == |rows|
  {
    FlattenIsRowsOfForms(rows, groups);
    RowsOfAllForms(rows, FormsOf(groups));
    assert |multiset(Flatten(groups))| == |multiset(rows)|;
  }

  lemma {:induction false} DistinctGroupsOccurOnce(groups: seq<FormGroup>, x: FormGroup)
    requires DistinctForms(groups)
    ensures multiset(groups)[x] == if x in groups then 1 else 0
  {
    if groups != [] {
      var rest := groups[1..];
      assert groups == [groups[0]] + rest;
      assert groups[0] !in rest;
      DistinctGroupsOccurOnce(rest, x);
    }
  }

  /**
   * The fold is deterministic up to the order of the groups: two outcomes for
   * the same rows hold the same groups, each once.
   */
  lemma GroupingsAgreeUpToOrder(rows: seq<Person>, groups1: seq<FormGroup>, groups2: seq<FormGroup>)
    requires IsGrouping(rows, groups1)
    requires IsGrouping(rows, groups2)
    ensures multiset(groups1) == multiset(groups2)
  {
    forall x ensures multiset(groups1)[x] == multiset(groups2)[x] {
      DistinctGroupsOccurOnce(groups1, x);
      DistinctGroupsOccurOnce(groups2, x);
      SameGroups(rows, groups1, groups2, x);
      SameGroups(rows, groups2, groups1, x);
    }
  }

  lemma SameGroups(rows: seq<Person>, groups1: seq<FormGroup>, groups2: seq<FormGroup>, x: FormGroup)
    requires IsGrouping(rows, groups1)
    requires IsGrouping(rows, groups2)
    ensures x in groups1 ==> x in groups2
  {
    if x in groups1 {
      assert x.form in FormsOf(groups2);
      var y :| y in groups2 && y.form == x.form;
      assert x == y;
    }
  }

  // ---------------------------------------------------------------------------
  // The identity filter

  /** An id is assigned in the groups exactly when some fetched row has it. */
  lemma AssignedIffFetched(rows: seq<Person>, groups: seq<FormGroup>, id: int)
    requires IsGrouping(rows, groups)
    ensures Assigned(groups, id) <==> exists p :: p in rows && p.id == id
  {
    if p :| p in rows && p.id == id {
      GroupingPlacesEveryRow(rows, groups);
      var g :| g in groups && g.form == p.form && p in g.people;
    }
  }

  /**
   * The possible list holds exactly the universe rows whose id no existing
   * row has: disjoint from the existing people by id, and complete.
   */
  lemma PossibleIsComplement(universe: seq<Person>, existingRows: seq<Person>,
                             existing: seq<FormGroup>, possible: seq<FormGroup>)
    requires IsGrouping(existingRows, existing)
    requires IsGrouping(Unassigned(universe, existing), possible)
    ensures forall p :: p in Flatten(possible) <==>
              p in universe && !(exists e :: e in existingRows && e.id == p.id)
  {
    GroupingKeepsEveryRowOnce(Unassigned(universe, existing), possible);
    assert forall p :: p in Flatten(possible) <==> p in Unassigned(universe, existing) by {
      forall p: Person ensures p in Flatten(possible) <==> p in multiset(Flatten(possible)) { }
    }
    forall p: Person ensures Assigned(existing, p.id) <==> exists e :: e in existingRows && e.id == p.id {
      AssignedIffFetched(existingRows, existing, p.id);
    }
  }

  /**
   * Existing and possible together cover the universe by id: a universe row
   * is either assigned already or sits in the possible group of its form.
   */
  lemma RosterCoversUniverse(universe: seq<Person>, existing: seq<FormGroup>, possible: seq<FormGroup>)
    requires IsGrouping(Unassigned(universe, existing), possible)
    ensures forall p :: p in universe ==>
              Assigned(existing, p.id) || exists g :: g in possible && g.form == p.form && p in g.people
  {
    GroupingPlacesEveryRow(Unassigned(universe, existing), possible);
  }

  /** All four lists of a built roster keep the properties above. */
  lemma BuiltRosterIsComplete(prefectRows: seq<Person>, participantRows: seq<Person>,
                              prefectUniverse: seq<Person>, everyone: seq<Person>, view: RosterView)
    requires IsGrouping(prefectRows, view.existing_prefects)
    requires IsGrouping(participantRows, view.existing_participants)
    requires IsGrouping(Unassigned(prefectUniverse, view.existing_prefects), view.prefects)
    requires IsGrouping(Unassigned(everyone, view.existing_participants), view.participants)
    ensures forall p :: p in Flatten(view.prefects) <==>
              p in prefectUniverse && !(exists e :: e in prefectRows && e.id == p.id)
    ensures forall p :: p in Flatten(view.participants) <==>
              p in everyone && !(exists e :: e in participantRows && e.id == p.id)
  {
    PossibleIsComplement(prefectUniverse, prefectRows, view.existing_prefects, view.prefects);
    PossibleIsComplement(everyone, participantRows, view.existing_participants, view.participants);
  }

  // ---------------------------------------------------------------------------
  // A worked roster: prefects Alice (form 9) and Bob (form 10) on the event,
  // prefect universe Alice, Bob and Carol (form 9).

  function Alice(relation: Option<int>): Person { Person(1, "Alice", "A", "9", relation) }
  function Bob(relation: Option<int>): Person { Person(2, "Bob", "B", "10", relation) }
  function Carol(relation: Option<int>): Person { Person(3, "Carol", "C", "9", relation) }

  /** A fold of exactly one row yields exactly one group. */
  lemma {:induction false} SingleRowGrouping(p: Person, groups: seq<FormGroup>)
    requires IsGrouping([p], groups)
    ensures groups == [FormGroup(p.form, [p])]
  {
    var single := [FormGroup(p.form, [p])];
    assert [p][..0] == [];
    assert FormsOf(single) == {p.form} == Forms([p]);
    assert IsGrouping([p], single);
    GroupingsAgreeUpToOrder([p], groups, single);
    assert |groups| == |multiset(groups)| == 1;
    assert groups[0] in multiset(single);
  }

  /** Before any removal only Carol can still be added, alone in form 9. */
  lemma WorkedRosterBefore(existing: seq<FormGroup>, possible: seq<FormGroup>)
    requires IsGrouping([Bob(Some(11)), Alice(Some(10))], existing)
    requires IsGrouping(Unassigned([Bob(None), Alice(None), Carol(None)], existing), possible)
    ensures possible == [FormGroup("9", [Carol(None)])]
  {
    var rows := [Bob(Some(11)), Alice(Some(10))];
    assert Bob(Some(11)) in rows && Alice(Some(10)) in rows;
    AssignedIffFetched(rows, existing, 1);
    AssignedIffFetched(rows, existing, 2);
    AssignedIffFetched(rows, existing, 3);
    var universe := [Bob(None), Alice(None), Carol(None)];
    assert universe[..2] == [Bob(None), Alice(None)] && universe[..2][..1] == [Bob(None)];
    assert Assigned(existing, 1) && Assigned(existing, 2) && !Assigned(existing, 3);
    assert Unassigned(universe[..2][..1], existing) == [];
    assert Unassigned(universe[..2], existing) == [];
    assert Unassigned(universe, existing) == [Carol(None)];
    SingleRowGrouping(Carol(None), possible);
  }

  /** A fold of two rows of different forms yields two singleton groups, in either order. */
  lemma TwoFormGrouping(p: Person, q: Person, groups: seq<FormGroup>)
    requires p.form != q.form
    requires IsGrouping([p, q], groups)
    ensures multiset(groups) == multiset{FormGroup(p.form, [p]), FormGroup(q.form, [q])}
  {
    var rows, expected := [p, q], [FormGroup(p.form, [p]), FormGroup(q.form, [q])];
    assert rows[..1] == [p] && [p][..0] == [];
    assert PeopleOfForm(rows, p.form) == [p];
    assert PeopleOfForm(rows, q.form) == [q];
    assert Forms(rows) == {p.form, q.form} == FormsOf(expected);
    assert IsGrouping(rows, expected);
    GroupingsAgreeUpToOrder(rows, groups, expected);
  }

  /** After Bob's relation is removed, Bob (alone in form 10) and Carol (form 9) can be added. */
  lemma WorkedRosterAfterRemovingBob(existing: seq<FormGroup>, possible: seq<FormGroup>)
    requires IsGrouping([Alice(Some(10))], existing)
    requires IsGrouping(Unassigned([Bob(None), Alice(None), Carol(None)], existing), possible)
    ensures existing == [FormGroup("9", [Alice(Some(10))])]
    ensures multiset(possible) == multiset{FormGroup("10", [Bob(None)]), FormGroup("9", [Carol(None)])}
  {
    SingleRowGrouping(Alice(Some(10)), existing);
    var universe := [Bob(None), Alice(None), Carol(None)];
    assert Alice(Some(10)) in existing[0].people;
    assert Assigned(existing, 1) && !Assigned(existing, 2) && !Assigned(existing, 3);
    assert universe[..2] == [Bob(None), Alice(None)] && universe[..2][..1] == [Bob(None)];
    assert Unassigned(universe[..2][..1], existing) == [Bob(None)];
    assert Unassigned(universe[..2], existing) == [Bob(None)];
    assert Unassigned(universe, existing) == [Bob(None), Carol(None)];
    TwoFormGrouping(Bob(None), Carol(None), possible);
  }
}
