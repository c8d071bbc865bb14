/**
 * The offer table's weekday and shift columns: the text `DIAS_SEMANA`
 * (abbreviations joined by `-`, spaces allowed) becomes six day flags, and
 * the text `TURNO` becomes three shift flags.
 */
module OfferFlags {
  import opened Wrappers
  import opened Seqs
  import opened Delimited

  /** The keys of `dias_map`, Monday to Saturday, in the order its loop visits them. */
  const DayAbbrevs: seq<string> := ["SEG", "TER", "QUA", "QUI", "SEX", "SAB"]

  /** `DIA_SEG` .. `DIA_SAB`. */
  type DayFlags = s: seq<bool> | |s| == 6 witness [false, false, false, false, false, false]

  /** `TURNO_MANHA`, `TURNO_TARDE`, `TURNO_NOITE`. */
  type ShiftFlags = s: seq<bool> | |s| == 3 witness [false, false, false]

  /** A row of the offer file as read: `DIAS_SEMANA` may be missing (`None`). */
  datatype RawOffer = RawOffer(
    code: int, course: int, unit: int, created: int, start: int,
    weekdays: Option<string>, shift: string)

  /** A row of the offer table once its flag columns have been added. */
  datatype Offer = Offer(
    code: int, course: int, unit: int, created: int, start: int,
    days: DayFlags, shifts: ShiftFlags)

  /** `str.replace(' ', '')`. */
  function RemoveSpaces(s: string): (r: string)
    ensures ' ' !in r
    ensures |r| <= |s|
    ensures IsSubseq(r, s)
    ensures multiset(r) == multiset(s)[' ' := 0]
    decreases |s|
  {
    if s == [] then []
    else
      var rest := RemoveSpaces(s[1..]);
      assert s == [s[0]] + s[1..];
      if s[0] == ' ' then rest
      else
        assert ([s[0]] + rest)[1..] == rest;
        [s[0]] + rest
  }

  lemma {:induction false} RemoveSpacesKeepsOthers(s: string)
    ensures forall c :: c != ' ' ==> (c in RemoveSpaces(s) <==> c in s)
    decreases |s|
  {
    if s != [] {
      RemoveSpacesKeepsOthers(s[1..]);
      assert s == [s[0]] + s[1..];
    }
  }

  /** A text without spaces is left as it is. */
  lemma {:induction false} RemoveSpacesWithoutSpaces(s: string)
    requires ' ' !in s
    ensures RemoveSpaces(s) == s
    decreases |s|
  {
    if s != [] {
      assert s[0] != ' ';
      RemoveSpacesWithoutSpaces(s[1..]);
      assert [s[0]] + s[1..] == s;
    }
  }

  /** `.str.replace(' ', '').str.split('-')`; `None` stands for a missing value, which is not a list. */
  function Tokens(weekdays: Option<string>): (r: Option<seq<string>>)
    ensures r.None? <==> weekdays.None?
    ensures r.Some? ==> |r.value| >= 1
    ensures r.Some? && '-' !in weekdays.value ==> r.value == [RemoveSpaces(weekdays.value)]
  {
    match weekdays
    case None => None
    case Some(w) =>
      RemoveSpacesKeepsOthers(w);
      var t := RemoveSpaces(w);
      assert '-' !in w ==> Split(t, "-") == [t] by {
        if '-' !in w {
          SplitWithoutSeparator(t, "-");
        }
      }
      Some(Split(t, "-"))
  }

  /** The six `DIA_*` columns of one row: `sigla in x if isinstance(x, list) else False`. */
  function DayFlagsOf(weekdays: Option<string>): DayFlags {
    var tokens := Tokens(weekdays);
    seq(6, k requires 0 <= k < 6 => tokens.Some? && DayAbbrevs[k] in tokens.value)
  }

  /** Spaces in `DIAS_SEMANA` never change a flag. */
  lemma DayFlagsIgnoreSpaces(w: string)
    ensures DayFlagsOf(Some(RemoveSpaces(w))) == DayFlagsOf(Some(w))
  {
    RemoveSpacesWithoutSpaces(RemoveSpaces(w));
  }

  /** A missing `DIAS_SEMANA` gives no day at all. */
  lemma MissingWeekdaysGiveNoDay()
    ensures forall k :: 0 <= k < 6 ==> !DayFlagsOf(None)[k]
  {
  }

  /** The abbreviations whose flag is set, in `dias_map` order. */
  function Picked(flags: seq<bool>, names: seq<string>): (r: seq<string>)
    requires |flags| == |names|
    ensures IsSubseq(r, names)
    decreases |flags|
  {
    if flags == [] then []
    else if flags[0] then [names[0]] + Picked(flags[1..], names[1..])
    else
      var rest := Picked(flags[1..], names[1..]);
      assert IsSubseq(rest, names);
      rest
  }

  lemma {:induction false} PickedMembers(flags: seq<bool>, names: seq<string>)
    requires |flags| == |names| && NoDup(names)
    ensures forall k :: 0 <= k < |names| ==> (names[k] in Picked(flags, names) <==> flags[k])
    decreases |flags|
  {
    if flags != [] {
      assert NoDup(names[1..]) by {
        forall i, j | 0 <= i < j < |names[1..]| ensures names[1..][i] != names[1..][j] {
          assert names[1..][i] == names[i + 1] && names[1..][j] == names[j + 1];
        }
      }
      PickedMembers(flags[1..], names[1..]);
      var rest := Picked(flags[1..], names[1..]);
      SubseqMembers(rest, names[1..]);
      forall k | 0 <= k < |names|
        ensures names[k] in Picked(flags, names) <==> flags[k]
      {
        if k == 0 {
          assert names[0] !in names[1..] by {
            forall j | 0 <= j < |names[1..]| ensures names[1..][j] != names[0] {
              assert names[1..][j] == names[j + 1];
            }
          }
        } else {
          assert names[k] == names[1..][k - 1];
          assert names[k] != names[0];
        }
      }
    }
  }

  /** How the offer file writes a set of days: the abbreviations joined by `-`. */
  function RenderDays(flags: DayFlags): string {
    Join(Picked(flags, DayAbbrevs), "-")
  }

  lemma AbbrevFacts()
    ensures NoDup(DayAbbrevs)
    ensures forall k :: 0 <= k < 6 ==> '-' !in DayAbbrevs[k] && ' ' !in DayAbbrevs[k] && DayAbbrevs[k] != ""
  {
  }

  lemma {:induction false} JoinHasNoSpace(xs: seq<string>, sep: string)
    requires ' ' !in sep
    requires forall i :: 0 <= i < |xs| ==> ' ' !in xs[i]
    ensures ' ' !in Join(xs, sep)
    decreases |xs|
  {
    if |xs| > 1 {
      JoinHasNoSpace(xs[1..], sep);
    }
  }

  /** The tokens of a rendering are the picked abbreviations, or one empty token when none is picked. */
  lemma TokensOfRendered(flags: DayFlags)
    ensures var picked := Picked(flags, DayAbbrevs);
      Tokens(Some(RenderDays(flags))) == Some(if picked == [] then [""] else picked)
  {
    AbbrevFacts();
    var picked := Picked(flags, DayAbbrevs);
    SubseqMembers(picked, DayAbbrevs);
    assert forall i :: 0 <= i < |picked| ==> picked[i] in DayAbbrevs;
    JoinHasNoSpace(picked, "-");
    RemoveSpacesWithoutSpaces(RenderDays(flags));
    if picked != [] {
      SplitJoin(picked, "-");
    }
  }

  /** Round trip: parsing the `-` rendering of any set of days gives back exactly that set. */
  lemma ParseRenderedDays(flags: DayFlags)
    ensures DayFlagsOf(Some(RenderDays(flags))) == flags
  {
    AbbrevFacts();
    PickedMembers(flags, DayAbbrevs);
    TokensOfRendered(flags);
    var picked := Picked(flags, DayAbbrevs);
    var parsed := DayFlagsOf(Some(RenderDays(flags)));
    forall k | 0 <= k < 6 ensures parsed[k] == flags[k] {
      if picked == [] {
        assert DayAbbrevs[k] != "";
      }
    }
  }

  /** `p` occurs in `s` at position `k`. */
  predicate OccursAt(s: string, p: string, k: int) {
    0 <= k && k + |p| <= |s| && s[k..k + |p|] == p
  }

  /** `str.contains(p)` for a literal pattern `p`. */
  function Contains(s: string, p: string): (r: bool)
    ensures r ==> |p| <= |s|
    ensures p == [] ==> r
    decreases |s|
  {
    if |s| < |p| then false
    else s[..|p|] == p || Contains(s[1..], p)
  }

  /** `Contains` finds exactly the positions at which the pattern occurs. */
  lemma {:induction false} ContainsAt(s: string, p: string)
    ensures Contains(s, p) <==> exists k :: OccursAt(s, p, k)
    decreases |s|
  {
    if |s| < |p| {
    } else if s[..|p|] == p {
      assert OccursAt(s, p, 0);
    } else {
      ContainsAt(s[1..], p);
      if exists k :: OccursAt(s, p, k) {
        var k :| OccursAt(s, p, k);
        assert k != 0;
        assert s[1..][k - 1..k - 1 + |p|] == s[k..k + |p|];
        assert OccursAt(s[1..], p, k - 1);
      }
      if Contains(s[1..], p) {
        var k :| OccursAt(s[1..], p, k);
        assert s[k + 1..k + 1 + |p|] == s[1..][k..k + |p|];
        assert OccursAt(s, p, k + 1);
      }
    }
  }

  /** A pattern holding a character the text lacks does not occur in it. */
  lemma AbsentChar(s: string, p: string, c: char)
    requires c in p && c !in s
    ensures !Contains(s, p)
  {
    ContainsAt(s, p);
  }

  /** The three `TURNO_*` columns: `DIURNO|INTEGRAL`, `VESPERTINO|INTEGRAL`, `NOTURNO|INTEGRAL`. */
  function ShiftFlagsOf(turno: string): ShiftFlags {
    var integral := Contains(turno, "INTEGRAL");
    [Contains(turno, "DIURNO") || integral,
     Contains(turno, "VESPERTINO") || integral,
     Contains(turno, "NOTURNO") || integral]
  }

  /** The pattern each shift flag looks for besides `INTEGRAL`. */
  const ShiftNames: seq<string> := ["DIURNO", "VESPERTINO", "NOTURNO"]

  /** A shift flag is set exactly when that shift's name or `INTEGRAL` occurs somewhere in the text. */
  lemma ShiftFlagsExact(turno: string)
    ensures forall k :: 0 <= k < 3 ==>
      (ShiftFlagsOf(turno)[k] <==> (exists j :: OccursAt(turno, ShiftNames[k], j)) || (exists j :: OccursAt(turno, "INTEGRAL", j)))
  {
    ContainsAt(turno, "DIURNO");
    ContainsAt(turno, "VESPERTINO");
    ContainsAt(turno, "NOTURNO");
    ContainsAt(turno, "INTEGRAL");
  }

  /** A full-time offer is flagged for morning, afternoon and night. */
  lemma IntegralSetsEveryShift(turno: string, k: int)
    requires OccursAt(turno, "INTEGRAL", k)
    ensures ShiftFlagsOf(turno) == [true, true, true]
  {
    ContainsAt(turno, "INTEGRAL");
  }

  /** A shift text that names one shift only sets that flag alone. */
  lemma MorningText(t: string)
    requires t == "DIURNO"
    ensures ShiftFlagsOf(t) == [true, false, false]
  {
    assert OccursAt(t, "DIURNO", 0);
    ContainsAt(t, "DIURNO");
    AbsentChar(t, "INTEGRAL", 'G');
    AbsentChar(t, "VESPERTINO", 'V');
    AbsentChar(t, "NOTURNO", 'T');
  }

  lemma AfternoonText(t: string)
    requires t == "VESPERTINO"
    ensures ShiftFlagsOf(t) == [false, true, false]
  {
    assert OccursAt(t, "VESPERTINO", 0);
    ContainsAt(t, "VESPERTINO");
    AfternoonLacksOthers(t);
  }

  lemma AfternoonLacksOthers(t: string)
    requires t == "VESPERTINO"
    ensures !Contains(t, "INTEGRAL") && !Contains(t, "DIURNO") && !Contains(t, "NOTURNO")
  {
    AbsentChar(t, "INTEGRAL", 'G');
    AbsentChar(t, "DIURNO", 'D');
    AbsentChar(t, "NOTURNO", 'U');
  }

  lemma NightText(t: string)
    requires t == "NOTURNO"
    ensures ShiftFlagsOf(t) == [false, false, true]
  {
    assert OccursAt(t, "NOTURNO", 0);
    ContainsAt(t, "NOTURNO");
    AbsentChar(t, "INTEGRAL", 'G');
    AbsentChar(t, "DIURNO", 'D');
    AbsentChar(t, "VESPERTINO", 'V');
  }

  /** The whole row once its flag columns are added. */
  function OfferOf(raw: RawOffer): (r: Offer)
    ensures r.code == raw.code && r.course == raw.course && r.unit == raw.unit
    ensures r.created == raw.created && r.start == raw.start
    ensures raw.weekdays.None? ==> forall k :: 0 <= k < 6 ==> !r.days[k]
  {
    Offer(raw.code, raw.course, raw.unit, raw.created, raw.start, DayFlagsOf(raw.weekdays), ShiftFlagsOf(raw.shift))
  }

  /** Column `c` holds, row by row, the test for abbreviation `c`. */
  ghost predicate DayColumn(column: seq<bool>, raws: seq<RawOffer>, c: int)
    requires 0 <= c < 6
  {
    |column| == |raws| &&
    forall r :: 0 <= r < |raws| ==> column[r] == DayFlagsOf(raws[r].weekdays)[c]
  }

  /**
   * The flag part of `_carregar_ofertas`: the weekdays are tokenised once,
   * the loop over `dias_map` adds one day column per abbreviation, and the
   * three shift columns come from the `TURNO` text.
   */
  method AddFlagColumns(raws: seq<RawOffer>) returns (offers: seq<Offer>)
    ensures |offers| == |raws|
    ensures forall r :: 0 <= r < |raws| ==> offers[r] == OfferOf(raws[r])
  {
    var tokens := seq(|raws|, r requires 0 <= r < |raws| => Tokens(raws[r].weekdays));
    var columns: seq<seq<bool>> := [];
    for k := 0 to |DayAbbrevs|
      invariant |columns| == k
      invariant forall c :: 0 <= c < k ==> DayColumn(columns[c], raws, c)
    {
      var sigla := DayAbbrevs[k];
      var column := seq(|raws|, r requires 0 <= r < |raws| => tokens[r].Some? && sigla in tokens[r].value);
      assert DayColumn(column, raws, k);
      columns := columns + [column];
    }
    offers := seq(|raws|, r requires 0 <= r < |raws| =>
      Offer(raws[r].code, raws[r].course, raws[r].unit, raws[r].created, raws[r].start,
            [columns[0][r], columns[1][r], columns[2][r], columns[3][r], columns[4][r], columns[5][r]],
            ShiftFlagsOf(raws[r].shift)));
    forall r | 0 <= r < |raws| ensures offers[r] == OfferOf(raws[r]) {
      assert offers[r].days == DayFlagsOf(raws[r].weekdays);
    }
  }
}
