/** The interest form: three multi-selections over fixed catalogues, and the submission gate. */
module InterestModal {
  import opened Wrappers
  import opened Seqs
  import opened Delimited
  import opened Interests

  const Units: seq<string> := [
    "Unidade A - Centro",
    "Unidade B - Zona Sul",
    "Unidade C - Zona Norte",
    "Unidade D - Zona Leste",
    "Unidade E - Zona Oeste",
    "Unidade F - Regional 1",
    "Unidade G - Regional 2",
    "Unidade H - Regional 3"
  ]

  const Days: seq<string> := [
    "Segunda-feira",
    "Terça-feira",
    "Quarta-feira",
    "Quinta-feira",
    "Sexta-feira",
    "Sábado",
    "Domingo"
  ]

  const Shifts: seq<string> := [
    "Manhã (08h às 12h)",
    "Tarde (13h às 17h)",
    "Noite (18h às 22h)",
    "Integral (08h às 17h)"
  ]

  /** A selection list kept in good shape: no repeats, and drawn from its catalogue. */
  ghost predicate WellFormed(xs: seq<string>, catalogue: seq<string>) {
    NoDup(xs) && forall i :: 0 <= i < |xs| ==> xs[i] in catalogue
  }

  /** No catalogue entry contains a comma, so the `", "` join can be undone. */
  lemma CataloguesHaveNoComma()
    ensures forall i :: 0 <= i < |Units| ==> ',' !in Units[i]
    ensures forall i :: 0 <= i < |Days| ==> ',' !in Days[i]
    ensures forall i :: 0 <= i < |Shifts| ==> ',' !in Shifts[i]
  {
  }

  lemma CataloguesHaveNoDuplicates()
    ensures NoDup(Units) && NoDup(Days) && NoDup(Shifts)
  {
  }

  /** `prev.filter(v => v !== x)`: every occurrence of `x` goes, the rest keeps its order. */
  function Remove(xs: seq<string>, x: string): (r: seq<string>)
    ensures x !in r
    ensures IsSubseq(r, xs)
    ensures multiset(r) == multiset(xs)[x := 0]
    ensures forall y :: y != x ==> (y in r <==> y in xs)
    decreases |xs|
  {
    if xs == [] then []
    else
      assert xs == [xs[0]] + xs[1..];
      if xs[0] == x then Remove(xs[1..], x)
      else [xs[0]] + Remove(xs[1..], x)
  }

  /**
   * `prev.includes(x) ? prev.filter(v => v !== x) : [...prev, x]`: the
   * membership of `x` flips and the membership of every other value stays.
   */
  function Toggle(xs: seq<string>, x: string): (r: seq<string>)
    ensures x in xs ==> x !in r && IsSubseq(r, xs) && multiset(r) == multiset(xs)[x := 0]
    ensures x !in xs ==> r == xs + [x]
    ensures forall y :: y != x ==> (y in r <==> y in xs)
  {
    if x in xs then Remove(xs, x) else xs + [x]
  }

  /** Toggling a catalogue entry keeps a selection well formed. */
  lemma ToggleKeepsWellFormed(xs: seq<string>, x: string, catalogue: seq<string>)
    requires WellFormed(xs, catalogue) && x in catalogue
    ensures WellFormed(Toggle(xs, x), catalogue)
  {
    var r := Toggle(xs, x);
    if x in xs {
      SubseqMembers(r, xs);
      SubseqNoDup(r, xs);
      assert forall i :: 0 <= i < |r| ==> r[i] in xs;
    } else {
      assert forall i :: 0 <= i < |xs| ==> xs[i] != x;
    }
  }

  /** Removing a value that was just appended to a list without it gives back the list. */
  lemma {:induction false} RemoveAppended(xs: seq<string>, x: string)
    requires x !in xs
    ensures Remove(xs + [x], x) == xs
    decreases |xs|
  {
    if xs == [] {
      assert [x][1..] == [];
    } else {
      RemoveAppended(xs[1..], x);
      assert (xs + [x])[1..] == xs[1..] + [x];
      assert [xs[0]] + xs[1..] == xs;
    }
  }

  /** Toggling an unselected value twice restores the selection exactly. */
  lemma ToggleTwice(xs: seq<string>, x: string)
    requires x !in xs
    ensures Toggle(Toggle(xs, x), x) == xs
  {
    RemoveAppended(xs, x);
  }

  /** `selected.length === CATALOGUE.length ? [] : [...CATALOGUE]` */
  function SelectAll(xs: seq<string>, catalogue: seq<string>): (r: seq<string>)
    ensures r == [] || r == catalogue
  {
    if |xs| == |catalogue| then [] else catalogue
  }

  /** From a partial selection, select-all then select-all again ends empty. */
  lemma SelectAllTwice(xs: seq<string>, catalogue: seq<string>)
    requires |xs| != |catalogue|
    ensures SelectAll(xs, catalogue) == catalogue
    ensures SelectAll(SelectAll(xs, catalogue), catalogue) == []
  {
  }

  /**
   * For a well-formed selection the length test that drives the select-all
   * toggle is exact: the lengths agree iff every catalogue entry is selected.
   */
  lemma {:induction false} FullLengthIffAllSelected(xs: seq<string>, catalogue: seq<string>)
    requires WellFormed(xs, catalogue) && NoDup(catalogue)
    ensures |xs| == |catalogue| <==> forall c :: c in catalogue ==> c in xs
  {
    var sx := set x | x in xs;
    var sc := set c | c in catalogue;
    DistinctCard(xs);
    DistinctCard(catalogue);
    assert sx <= sc;
    if |xs| == |catalogue| {
      assert |sx| == |sc|;
      forall c | c in catalogue ensures c in xs {
        if c !in xs {
          assert sx <= sc - {c};
          assert |sc - {c}| == |sc| - 1;
          SubsetCard(sx, sc - {c});
          assert false;
        }
      }
    }
    if forall c :: c in catalogue ==> c in xs {
      assert sc == sx;
    }
  }

  /**
   * Select-all is a toggle on a well-formed selection: it clears a list that
   * holds every catalogue entry and selects the whole catalogue otherwise.
   */
  lemma SelectAllToggles(xs: seq<string>, catalogue: seq<string>)
    requires WellFormed(xs, catalogue) && NoDup(catalogue)
    ensures SelectAll(xs, catalogue) == (if forall c :: c in catalogue ==> c in xs then [] else catalogue)
  {
    FullLengthIffAllSelected(xs, catalogue);
  }

  lemma {:induction false} SubsetCard(a: set<string>, b: set<string>)
    requires a <= b
    ensures |a| <= |b|
    decreases |b|
  {
    if b != {} {
      var y :| y in b;
      SubsetCard(a - {y}, b - {y});
    }
  }

  /** A list without repeats has as many distinct values as elements. */
  lemma {:induction false} DistinctCard(s: seq<string>)
    requires NoDup(s)
    ensures |set x | x in s| == |s|
    decreases |s|
  {
    if s != [] {
      var last := s[|s| - 1];
      var init := s[..|s| - 1];
      DistinctCard(init);
      var a := set x | x in init;
      var b := set x | x in s;
      assert s == init + [last];
      assert b == a + {last};
      assert last !in a;
    }
  }

  /** The form's state: the three selection lists that each click replaces. */
  class InterestForm {
    const courseName: string
    var selectedUnits: seq<string>
    var selectedDays: seq<string>
    var selectedShifts: seq<string>

    ghost predicate Valid()
      reads this
    {
      WellFormed(selectedUnits, Units) && WellFormed(selectedDays, Days) && WellFormed(selectedShifts, Shifts)
    }

    constructor (courseName: string)
      ensures this.courseName == courseName
      ensures selectedUnits == [] && selectedDays == [] && selectedShifts == []
      ensures Valid()
    {
      this.courseName := courseName;
      selectedUnits, selectedDays, selectedShifts := [], [], [];
    }

    method ToggleUnit(unit: string)
      modifies this
      ensures selectedUnits == Toggle(old(selectedUnits), unit)
      ensures selectedDays == old(selectedDays) && selectedShifts == old(selectedShifts)
      ensures old(Valid()) && unit in Units ==> Valid()
    {
      if old(Valid()) && unit in Units {
        ToggleKeepsWellFormed(selectedUnits, unit, Units);
      }
      selectedUnits := Toggle(selectedUnits, unit);
    }

    method ToggleDay(day: string)
      modifies this
      ensures selectedDays == Toggle(old(selectedDays), day)
      ensures selectedUnits == old(selectedUnits) && selectedShifts == old(selectedShifts)
      ensures old(Valid()) && day in Days ==> Valid()
    {
      if old(Valid()) && day in Days {
        ToggleKeepsWellFormed(selectedDays, day, Days);
      }
      selectedDays := Toggle(selectedDays, day);
    }

    method ToggleShift(shift: string)
      modifies this
      ensures selectedShifts == Toggle(old(selectedShifts), shift)
      ensures selectedUnits == old(selectedUnits) && selectedDays == old(selectedDays)
      ensures old(Valid()) && shift in Shifts ==> Valid()
    {
      if old(Valid()) && shift in Shifts {
        ToggleKeepsWellFormed(selectedShifts, shift, Shifts);
      }
      selectedShifts := Toggle(selectedShifts, shift);
    }

    method SelectAllUnits()
      modifies this
      ensures selectedUnits == SelectAll(old(selectedUnits), Units)
      ensures selectedDays == old(selectedDays) && selectedShifts == old(selectedShifts)
      ensures old(Valid()) ==> Valid()
    {
      CataloguesHaveNoDuplicates();
      selectedUnits := SelectAll(selectedUnits, Units);
    }

    method SelectAllDays()
      modifies this
      ensures selectedDays == SelectAll(old(selectedDays), Days)
      ensures selectedUnits == old(selectedUnits) && selectedShifts == old(selectedShifts)
      ensures old(Valid()) ==> Valid()
    {
      CataloguesHaveNoDuplicates();
      selectedDays := SelectAll(selectedDays, Days);
    }

    method SelectAllShifts()
      modifies this
      ensures selectedShifts == SelectAll(old(selectedShifts), Shifts)
      ensures selectedUnits == old(selectedUnits) && selectedDays == old(selectedDays)
      ensures old(Valid()) ==> Valid()
    {
      CataloguesHaveNoDuplicates();
      selectedShifts := SelectAll(selectedShifts, Shifts);
    }

    /** `isFormValid`, which also enables the submit button. */
    predicate IsFormValid()
      reads this
    {
      |selectedUnits| > 0 && |selectedDays| > 0 && |selectedShifts| > 0
    }

    /**
     * `handleSubmit`: `onSubmit` is called (here: a registration is returned)
     * exactly when the form is valid, with each list `", "`-joined; splitting
     * those fields again gives back the lists.
     */
    method HandleSubmit() returns (submitted: Option<Registration>)
      ensures submitted.Some? <==> IsFormValid()
      ensures submitted.Some? ==> submitted.value.courseName == courseName
      ensures submitted.Some? ==> submitted.value.selectedUnit == Join(selectedUnits, ", ")
      ensures submitted.Some? ==> submitted.value.selectedDay == Join(selectedDays, ", ")
      ensures submitted.Some? ==> submitted.value.selectedShift == Join(selectedShifts, ", ")
      ensures submitted.Some? && Valid() ==>
        Split(submitted.value.selectedUnit, ", ") == selectedUnits &&
        Split(submitted.value.selectedDay, ", ") == selectedDays &&
        Split(submitted.value.selectedShift, ", ") == selectedShifts
    {
      if |selectedUnits| > 0 && |selectedDays| > 0 && |selectedShifts| > 0 {
        submitted := Some(Registration(courseName, Join(selectedUnits, ", "), Join(selectedDays, ", "), Join(selectedShifts, ", ")));
        if Valid() {
          CataloguesHaveNoComma();
          SplitJoin(selectedUnits, ", ");
          SplitJoin(selectedDays, ", ");
          SplitJoin(selectedShifts, ", ");
        }
      } else {
        submitted := None;
      }
    }
  }
}
