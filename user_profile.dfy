/**
 * The profile page's matching logic: the availability lookup over the static
 * course table, and the tiered similar-course fallback.
 */
module UserProfile {
  import opened Wrappers
  import opened Seqs
  import opened Delimited
  import opened Interests

  /** One entry of the availability table. */
  datatype Slot = Slot(available: bool, startDate: string, enrollDeadline: string)

  /** `COURSE_AVAILABILITY`, keyed course -> unit -> day -> shift. */
  type AvailabilityTable = map<string, map<string, map<string, map<string, Slot>>>>

  const CourseAvailability: AvailabilityTable := map[
    "Assistente de Design de Embalagens" := map[
      "Unidade A - Centro" := map[
        "Segunda-feira" := map[
          "Noite (18h às 22h)" := Slot(true, "2026-02-15", "2026-02-08")]]]]

  /** The slot reached by following the four keys, if every key exists. */
  function Probe(course: string, unit: string, day: string, shift: string): Option<Slot> {
    if course in CourseAvailability
       && unit in CourseAvailability[course]
       && day in CourseAvailability[course][unit]
       && shift in CourseAvailability[course][unit][day]
    then Some(CourseAvailability[course][unit][day][shift])
    else None
  }

  /** The table holds an available slot for this combination. */
  predicate IsOpen(course: string, unit: string, day: string, shift: string) {
    Probe(course, unit, day, shift).Some? && Probe(course, unit, day, shift).value.available
  }

  /** The answer of `checkCourseAvailability`. */
  datatype Availability =
    | Unavailable
    | Available(unit: string, day: string, shift: string, startDate: string, enrollDeadline: string)

  /** No combination (a, b, c) that precedes (i, j, k) in units-days-shifts order is open. */
  ghost predicate NoneOpenBefore(course: string, us: seq<string>, ds: seq<string>, ss: seq<string>, i: int, j: int, k: int) {
    forall a, b, c ::
      0 <= a < |us| && 0 <= b < |ds| && 0 <= c < |ss| &&
      (a < i || (a == i && (b < j || (b == j && c < k))))
      ==> !IsOpen(course, us[a], ds[b], ss[c])
  }

  /** No combination of a selected unit, day and shift is open. */
  ghost predicate NoneOpen(course: string, us: seq<string>, ds: seq<string>, ss: seq<string>) {
    forall a, b, c :: 0 <= a < |us| && 0 <= b < |ds| && 0 <= c < |ss| ==> !IsOpen(course, us[a], ds[b], ss[c])
  }

  /** A closed probe at (i, j, k) moves the search frontier to the next shift. */
  lemma NextShift(course: string, us: seq<string>, ds: seq<string>, ss: seq<string>, i: int, j: int, k: int)
    requires 0 <= i < |us| && 0 <= j < |ds| && 0 <= k < |ss|
    requires NoneOpenBefore(course, us, ds, ss, i, j, k)
    requires !IsOpen(course, us[i], ds[j], ss[k])
    ensures NoneOpenBefore(course, us, ds, ss, i, j, k + 1)
  {
  }

  /** Every shift of day j closed: the frontier moves to the next day. */
  lemma NextDay(course: string, us: seq<string>, ds: seq<string>, ss: seq<string>, i: int, j: int)
    requires NoneOpenBefore(course, us, ds, ss, i, j, |ss|)
    ensures NoneOpenBefore(course, us, ds, ss, i, j + 1, 0)
  {
  }

  /** Every day of unit i closed: the frontier moves to the next unit. */
  lemma NextUnit(course: string, us: seq<string>, ds: seq<string>, ss: seq<string>, i: int)
    requires NoneOpenBefore(course, us, ds, ss, i, |ds|, 0)
    ensures NoneOpenBefore(course, us, ds, ss, i + 1, 0, 0)
  {
  }

  /** The frontier past the last unit covers every combination. */
  lemma NoneOpenBeforeEnd(course: string, us: seq<string>, ds: seq<string>, ss: seq<string>)
    requires NoneOpenBefore(course, us, ds, ss, |us|, 0, 0)
    ensures NoneOpen(course, us, ds, ss)
  {
  }

  /** An open combination reached with nothing open before it is a witness against `NoneOpen`. */
  lemma FirstOpenIsAHit(course: string, us: seq<string>, ds: seq<string>, ss: seq<string>, i: int, j: int, k: int)
    requires 0 <= i < |us| && 0 <= j < |ds| && 0 <= k < |ss|
    requires IsOpen(course, us[i], ds[j], ss[k])
    ensures !NoneOpen(course, us, ds, ss)
  {
  }

  /**
   * One probe of the innermost loop: course, unit and day are looked up in
   * turn (a missing key moves on to the next shift), and the slot is kept
   * only when it exists and is marked available.
   */
  method LookupOpenSlot(course: string, unit: string, day: string, shift: string) returns (slot: Option<Slot>)
    ensures slot.Some? <==> IsOpen(course, unit, day, shift)
    ensures slot.Some? ==> Probe(course, unit, day, shift) == slot && slot.value.available
  {
    if course !in CourseAvailability { return None; }
    var courseData: map<string, map<string, map<string, Slot>>> := CourseAvailability[course];
    if unit !in courseData { return None; }
    var unitData: map<string, map<string, Slot>> := courseData[unit];
    if day !in unitData { return None; }
    var dayData: map<string, Slot> := unitData[day];
    if shift in dayData && dayData[shift].available {
      return Some(dayData[shift]);
    }
    return None;
  }

  /**
   * `checkCourseAvailability`: exhaustive search over units x days x shifts
   * (units outermost, shifts innermost) that stops at the first open slot.
   */
  method CheckCourseAvailability(interest: CourseInterest) returns (r: Availability)
    ensures r.Unavailable? <==>
      NoneOpen(interest.courseName, Split(interest.selectedUnit, ", "), Split(interest.selectedDay, ", "), Split(interest.selectedShift, ", "))
    ensures var us, ds, ss := Split(interest.selectedUnit, ", "), Split(interest.selectedDay, ", "), Split(interest.selectedShift, ", ");
      r.Available? ==>
        exists a, b, c :: 0 <= a < |us| && 0 <= b < |ds| && 0 <= c < |ss| &&
          us[a] == r.unit && ds[b] == r.day && ss[c] == r.shift &&
          NoneOpenBefore(interest.courseName, us, ds, ss, a, b, c)
    ensures r.Available? ==>
      Probe(interest.courseName, r.unit, r.day, r.shift) == Some(Slot(true, r.startDate, r.enrollDeadline))
    ensures interest.courseName !in CourseAvailability ==> r.Unavailable?
  {
    var selectedUnits := Split(interest.selectedUnit, ", ");
    var selectedDays := Split(interest.selectedDay, ", ");
    var selectedShifts := Split(interest.selectedShift, ", ");
    ghost var course := interest.courseName;

    for i := 0 to |selectedUnits|
      invariant NoneOpenBefore(course, selectedUnits, selectedDays, selectedShifts, i, 0, 0)
    {
      var unit := selectedUnits[i];
      for j := 0 to |selectedDays|
        invariant NoneOpenBefore(course, selectedUnits, selectedDays, selectedShifts, i, j, 0)
      {
        var day := selectedDays[j];
        for k := 0 to |selectedShifts|
          invariant NoneOpenBefore(course, selectedUnits, selectedDays, selectedShifts, i, j, k)
        {
          var shift := selectedShifts[k];
          var shiftData := LookupOpenSlot(interest.courseName, unit, day, shift);
          if shiftData.Some? {
            FirstOpenIsAHit(course, selectedUnits, selectedDays, selectedShifts, i, j, k);
            return Available(unit, day, shift, shiftData.value.startDate, shiftData.value.enrollDeadline);
          }
          NextShift(course, selectedUnits, selectedDays, selectedShifts, i, j, k);
        }
        NextDay(course, selectedUnits, selectedDays, selectedShifts, i, j);
      }
      NextUnit(course, selectedUnits, selectedDays, selectedShifts, i);
    }
    NoneOpenBeforeEnd(course, selectedUnits, selectedDays, selectedShifts);
    return Unavailable;
  }

  lemma PackagingDesignSlotIsOpen()
    ensures ',' !in "Unidade A - Centro" && ',' !in "Segunda-feira" && ',' !in "Noite (18h às 22h)"
    ensures IsOpen("Assistente de Design de Embalagens", "Unidade A - Centro", "Segunda-feira", "Noite (18h às 22h)")
  {
  }

  /** The profile's own example: packaging design at unit A on Monday night is open. */
  method CheckPackagingDesignMondayNight(interest: CourseInterest) returns (r: Availability)
    requires interest.courseName == "Assistente de Design de Embalagens"
    requires interest.selectedUnit == "Unidade A - Centro"
    requires interest.selectedDay == "Segunda-feira"
    requires interest.selectedShift == "Noite (18h às 22h)"
    ensures r == Available("Unidade A - Centro", "Segunda-feira", "Noite (18h às 22h)", "2026-02-15", "2026-02-08")
  {
    PackagingDesignSlotIsOpen();
    SplitWithoutSeparator(interest.selectedUnit, ", ");
    SplitWithoutSeparator(interest.selectedDay, ", ");
    SplitWithoutSeparator(interest.selectedShift, ", ");
    r := CheckCourseAvailability(interest);
    var us, ds, ss := Split(interest.selectedUnit, ", "), Split(interest.selectedDay, ", "), Split(interest.selectedShift, ", ");
    assert IsOpen(interest.courseName, us[0], ds[0], ss[0]);
    assert r.Available?;
    var a, b, c :| 0 <= a < |us| && 0 <= b < |ds| && 0 <= c < |ss| && us[a] == r.unit && ds[b] == r.day && ss[c] == r.shift;
    assert r.unit == "Unidade A - Centro" && r.day == "Segunda-feira" && r.shift == "Noite (18h às 22h)";
    assert Probe(interest.courseName, r.unit, r.day, r.shift).value == Slot(true, "2026-02-15", "2026-02-08");
  }

  // ---------------------------------------------------------------------------
  // Similar-course recommendation

  datatype MatchType = SameDayShift | SameUnitDifferentTime | SimilarCourse

  datatype SimilarCourseOffering = SimilarCourseOffering(
    name: string,
    code: string,
    unit: string,
    distance: string,
    day: string,
    shift: string,
    startDate: string,
    enrollDeadline: string,
    matchType: MatchType)

  /** `availableSimilarCourses`, in authored order. */
  const SimilarCourses: seq<SimilarCourseOffering> := [
    SimilarCourseOffering("Design Gráfico Avançado", "CL-003", "Unidade C - Zona Norte", "3.5 km",
      "Terça-feira", "Tarde (13h às 17h)", "2026-02-20", "2026-02-13", SameDayShift),
    SimilarCourseOffering("Design de Produto e Embalagens", "CL-005", "Unidade B - Zona Sul", "2.8 km",
      "Quarta-feira", "Noite (18h às 22h)", "2026-02-18", "2026-02-11", SimilarCourse),
    SimilarCourseOffering("Comunicação Visual para Embalagens", "CL-007", "Unidade D - Zona Leste", "4.2 km",
      "Quinta-feira", "Tarde (13h às 17h)", "2026-02-25", "2026-02-18", SimilarCourse),
    SimilarCourseOffering("Design e Marketing de Produto", "CL-009", "Unidade E - Zona Oeste", "5.1 km",
      "Sexta-feira", "Manhã (08h às 12h)", "2026-02-27", "2026-02-20", SimilarCourse),
    SimilarCourseOffering("Assistente de Design de Embalagens", "CL-001B", "Unidade F - Regional 1", "6.3 km",
      "Sábado", "Manhã (08h às 12h)", "2026-03-01", "2026-02-22", SameDayShift)
  ]

  /** The four fallback filters, strictest first. */
  datatype Tier = DayAndShift | ShiftOnly | DayOnly | Everything

  predicate InTier(c: SimilarCourseOffering, t: Tier, days: seq<string>, shifts: seq<string>) {
    match t
    case DayAndShift => c.day in days && c.shift in shifts
    case ShiftOnly => c.shift in shifts
    case DayOnly => c.day in days
    case Everything => true
  }

  /** `list.filter(...)` with one of the tier predicates. */
  function FilterTier(cs: seq<SimilarCourseOffering>, t: Tier, days: seq<string>, shifts: seq<string>): (r: seq<SimilarCourseOffering>)
    ensures |r| <= |cs|
    ensures IsSubseq(r, cs)
    ensures forall c :: c in r <==> c in cs && InTier(c, t, days, shifts)
    decreases |cs|
  {
    if cs == [] then []
    else if InTier(cs[0], t, days, shifts) then [cs[0]] + FilterTier(cs[1..], t, days, shifts)
    else FilterTier(cs[1..], t, days, shifts)
  }

  /**
   * The four-tier fallback over an offering list `cs`: day and shift, else
   * shift only, else day only, else the whole list; then the first two.
   */
  function Recommend(cs: seq<SimilarCourseOffering>, days: seq<string>, shifts: seq<string>): (r: seq<SimilarCourseOffering>)
    ensures |r| <= 2
    ensures |cs| > 0 ==> |r| >= 1
    ensures IsSubseq(r, cs)
  {
    var recommendations := FilterTier(cs, DayAndShift, days, shifts);
    var recommendations := if |recommendations| == 0 then FilterTier(cs, ShiftOnly, days, shifts) else recommendations;
    var recommendations := if |recommendations| == 0 then FilterTier(cs, DayOnly, days, shifts) else recommendations;
    var recommendations := if |recommendations| == 0 then cs else recommendations;
    SubseqRefl(cs);
    PrefixOfSubseq(recommendations, cs, if |recommendations| < 2 then |recommendations| else 2);
    recommendations[..if |recommendations| < 2 then |recommendations| else 2]
  }

  /**
   * `getSimilarCourses`: the fallback over the five authored offerings, never
   * empty and never more than two. The selected units are split but never used.
   */
  function GetSimilarCourses(interest: CourseInterest): (r: seq<SimilarCourseOffering>)
    ensures 1 <= |r| <= 2
    ensures IsSubseq(r, SimilarCourses)
  {
    Recommend(SimilarCourses, Split(interest.selectedDay, ", "), Split(interest.selectedShift, ", "))
  }

  /** The tier that applies, chosen by which offerings exist rather than by list lengths. */
  function ChosenTier(cs: seq<SimilarCourseOffering>, days: seq<string>, shifts: seq<string>): Tier {
    if exists c :: c in cs && InTier(c, DayAndShift, days, shifts) then DayAndShift
    else if exists c :: c in cs && InTier(c, ShiftOnly, days, shifts) then ShiftOnly
    else if exists c :: c in cs && InTier(c, DayOnly, days, shifts) then DayOnly
    else Everything
  }

  /** The first `n` entries of `cs` that lie in tier `t`, found by one scan that stops early. */
  function FirstInTier(cs: seq<SimilarCourseOffering>, t: Tier, days: seq<string>, shifts: seq<string>, n: nat): seq<SimilarCourseOffering>
    decreases |cs|
  {
    if n == 0 || cs == [] then []
    else if InTier(cs[0], t, days, shifts) then [cs[0]] + FirstInTier(cs[1..], t, days, shifts, n - 1)
    else FirstInTier(cs[1..], t, days, shifts, n)
  }

  /** Filtering and then cutting to `n` is the early-stopping scan. */
  lemma {:induction false} FilterThenTake(cs: seq<SimilarCourseOffering>, t: Tier, days: seq<string>, shifts: seq<string>, n: nat)
    ensures var f := FilterTier(cs, t, days, shifts);
      f[..if |f| < n then |f| else n] == FirstInTier(cs, t, days, shifts, n)
    decreases |cs|
  {
    if n != 0 && cs != [] {
      FilterThenTake(cs[1..], t, days, shifts, if InTier(cs[0], t, days, shifts) then n - 1 else n);
      var f := FilterTier(cs, t, days, shifts);
      var g := FilterTier(cs[1..], t, days, shifts);
      if InTier(cs[0], t, days, shifts) {
        var m := if |g| < n - 1 then |g| else n - 1;
        assert f[..m + 1] == [cs[0]] + g[..m];
      }
    }
  }

  lemma {:induction false} FilterTierEverything(cs: seq<SimilarCourseOffering>, days: seq<string>, shifts: seq<string>)
    ensures FilterTier(cs, Everything, days, shifts) == cs
    decreases |cs|
  {
    if cs != [] {
      FilterTierEverything(cs[1..], days, shifts);
      assert [cs[0]] + cs[1..] == cs;
    }
  }

  /** A tier filter is empty exactly when no offering lies in the tier. */
  lemma FilterTierEmpty(cs: seq<SimilarCourseOffering>, t: Tier, days: seq<string>, shifts: seq<string>)
    ensures |FilterTier(cs, t, days, shifts)| == 0 <==> !exists c :: c in cs && InTier(c, t, days, shifts)
  {
    var f := FilterTier(cs, t, days, shifts);
    if |f| > 0 {
      assert f[0] in f;
    }
  }

  /**
   * The fallback gives the first two offerings, in list order, of the
   * strictest tier that some offering satisfies, whatever the later tiers hold.
   */
  lemma RecommendFollowsTiers(cs: seq<SimilarCourseOffering>, days: seq<string>, shifts: seq<string>)
    ensures Recommend(cs, days, shifts) == FirstInTier(cs, ChosenTier(cs, days, shifts), days, shifts, 2)
  {
    FilterThenTake(cs, ChosenTier(cs, days, shifts), days, shifts, 2);
    FilterTierEverything(cs, days, shifts);
    FilterTierEmpty(cs, DayAndShift, days, shifts);
    FilterTierEmpty(cs, ShiftOnly, days, shifts);
    FilterTierEmpty(cs, DayOnly, days, shifts);
  }

  lemma {:induction false} FirstInTierMembers(cs: seq<SimilarCourseOffering>, t: Tier, days: seq<string>, shifts: seq<string>, n: nat)
    ensures forall c :: c in FirstInTier(cs, t, days, shifts, n) ==> c in cs && InTier(c, t, days, shifts)
    decreases |cs|
  {
    if n != 0 && cs != [] {
      FirstInTierMembers(cs[1..], t, days, shifts, if InTier(cs[0], t, days, shifts) then n - 1 else n);
    }
  }

  /** Every recommended offering satisfies the tier that was chosen. */
  lemma RecommendInChosenTier(cs: seq<SimilarCourseOffering>, days: seq<string>, shifts: seq<string>)
    ensures forall c :: c in Recommend(cs, days, shifts) ==> InTier(c, ChosenTier(cs, days, shifts), days, shifts)
  {
    RecommendFollowsTiers(cs, days, shifts);
    FirstInTierMembers(cs, ChosenTier(cs, days, shifts), days, shifts, 2);
  }

  /** Interests that differ only in their selected units get the same recommendations. */
  lemma UnitsDoNotMatter(i1: CourseInterest, i2: CourseInterest)
    requires i1.selectedDay == i2.selectedDay && i1.selectedShift == i2.selectedShift
    ensures GetSimilarCourses(i1) == GetSimilarCourses(i2)
  {
  }

  /** The course codes of a list of offerings, in order. */
  function Codes(cs: seq<SimilarCourseOffering>): seq<string> {
    if cs == [] then [] else [cs[0].code] + Codes(cs[1..])
  }

  /** The authored offerings carry the codes CL-003, CL-005, CL-007, CL-009 and CL-001B, in that order. */
  lemma SimilarCourseCodes()
    ensures Codes(SimilarCourses) == ["CL-003", "CL-005", "CL-007", "CL-009", "CL-001B"]
  {
  }

  lemma AfternoonTier(days: seq<string>, shifts: seq<string>)
    requires shifts == ["Tarde (13h às 17h)"]
    requires "Terça-feira" !in days && "Quinta-feira" !in days
    ensures ChosenTier(SimilarCourses, days, shifts) == ShiftOnly
  {
    assert InTier(SimilarCourses[0], ShiftOnly, days, shifts);
  }

  lemma AfternoonFirstTwo(days: seq<string>, shifts: seq<string>)
    requires shifts == ["Tarde (13h às 17h)"]
    ensures FirstInTier(SimilarCourses, ShiftOnly, days, shifts, 2) == [SimilarCourses[0], SimilarCourses[2]]
  {
  }

  /**
   * Afternoon only, with neither Tuesday nor Thursday among the days: no
   * offering matches day and shift, so the shift tier gives CL-003 then CL-007.
   */
  lemma AfternoonWithoutMatchingDay(interest: CourseInterest)
    requires Split(interest.selectedShift, ", ") == ["Tarde (13h às 17h)"]
    requires "Terça-feira" !in Split(interest.selectedDay, ", ") && "Quinta-feira" !in Split(interest.selectedDay, ", ")
    ensures GetSimilarCourses(interest) == [SimilarCourses[0], SimilarCourses[2]]
  {
    var days, shifts := Split(interest.selectedDay, ", "), Split(interest.selectedShift, ", ");
    RecommendFollowsTiers(SimilarCourses, days, shifts);
    AfternoonTier(days, shifts);
    AfternoonFirstTwo(days, shifts);
  }

  lemma TuesdayMorningTier(days: seq<string>, shifts: seq<string>)
    requires days == ["Terça-feira"] && shifts == ["Manhã (08h às 12h)"]
    ensures ChosenTier(SimilarCourses, days, shifts) == ShiftOnly
  {
    assert InTier(SimilarCourses[3], ShiftOnly, days, shifts);
  }

  lemma TuesdayMorningSplits(day: string, shift: string)
    requires day == "Terça-feira" && shift == "Manhã (08h às 12h)"
    ensures Split(day, ", ") == [day] && Split(shift, ", ") == [shift]
  {
    SplitWithoutSeparator(day, ", ");
    SplitWithoutSeparator(shift, ", ");
  }

  lemma MorningFirstTwo(days: seq<string>, shifts: seq<string>)
    requires shifts == ["Manhã (08h às 12h)"]
    ensures FirstInTier(SimilarCourses, ShiftOnly, days, shifts, 2) == [SimilarCourses[3], SimilarCourses[4]]
  {
  }

  /**
   * Unit B, Tuesday, morning: nothing matches day and shift, but two morning
   * offerings exist, so the shift tier (not the unfiltered list) gives CL-009 then CL-001B.
   */
  lemma UnitBTuesdayMorning(interest: CourseInterest)
    requires interest.selectedUnit == "Unidade B - Zona Sul"
    requires interest.selectedDay == "Terça-feira" && interest.selectedShift == "Manhã (08h às 12h)"
    ensures GetSimilarCourses(interest) == [SimilarCourses[3], SimilarCourses[4]]
  {
    TuesdayMorningSplits(interest.selectedDay, interest.selectedShift);
    var days, shifts := Split(interest.selectedDay, ", "), Split(interest.selectedShift, ", ");
    RecommendFollowsTiers(SimilarCourses, days, shifts);
    TuesdayMorningTier(days, shifts);
    MorningFirstTwo(days, shifts);
  }

  lemma NoMatchTier(days: seq<string>, shifts: seq<string>)
    requires forall c :: c in SimilarCourses ==> c.day !in days && c.shift !in shifts
    ensures ChosenTier(SimilarCourses, days, shifts) == Everything
  {
  }

  lemma EverythingFirstTwo(days: seq<string>, shifts: seq<string>)
    ensures FirstInTier(SimilarCourses, Everything, days, shifts, 2) == [SimilarCourses[0], SimilarCourses[1]]
  {
  }

  /** Neither a listed day nor a listed shift: the unfiltered list is cut to CL-003 and CL-005. */
  lemma NoMatchFallsBackToWholeList(interest: CourseInterest)
    requires forall c :: c in SimilarCourses ==> c.day !in Split(interest.selectedDay, ", ") && c.shift !in Split(interest.selectedShift, ", ")
    ensures GetSimilarCourses(interest) == [SimilarCourses[0], SimilarCourses[1]]
  {
    var days, shifts := Split(interest.selectedDay, ", "), Split(interest.selectedShift, ", ");
    RecommendFollowsTiers(SimilarCourses, days, shifts);
    NoMatchTier(days, shifts);
    EverythingFirstTwo(days, shifts);
  }
}
