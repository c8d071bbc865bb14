/**
 * The record filters behind the first three matching strategies: the same
 * course at the interest's own unit, the same course at another unit, and
 * other courses of the same professional area. Offers and interests are
 * rows; dates are day numbers.
 */
module OfferMatching {
  import opened Wrappers
  import opened Seqs
  import opened OfferFlags

  /** A row of the interest table: which course, where, from which date, on which days and shifts. */
  datatype Interest = Interest(
    code: int, student: int, course: int, unit: int, date: int,
    days: DayFlags, shifts: ShiftFlags)

  /** A row of the trail table: one course of one professional area. */
  datatype TrailEntry = TrailEntry(area: string, course: int)

  /** `TIPO_INDICACAO`, one per strategy. */
  datatype Indication = MatchCompleto | OutraUnidade | TrilhaProfissional | SimilaridadeSemantica | ModalidadeEad

  function Label(kind: Indication): string {
    match kind
    case MatchCompleto => "1.MATCH_COMPLETO"
    case OutraUnidade => "2.OUTRA_UNIDADE"
    case TrilhaProfissional => "3.TRILHA_PROFISSIONAL"
    case SimilaridadeSemantica => "4.SIMILARIDADE_SEMANTICA"
    case ModalidadeEad => "5.MODALIDADE_EAD"
  }

  /** A recommended offer with the columns a strategy adds: indication, `NIVEL_MATCH`, `AREA_PROFISSIONAL`. */
  datatype Rec = Rec(offer: Offer, kind: Indication, level: string, area: Option<string>)

  // ---------------------------------------------------------------------------
  // Masks

  /** `mask_dias`: some day flag of the offer equals the interest's flag for that day. */
  predicate DaysAgree(o: Offer, i: Interest) {
    o.days[0] == i.days[0] || o.days[1] == i.days[1] || o.days[2] == i.days[2] ||
    o.days[3] == i.days[3] || o.days[4] == i.days[4] || o.days[5] == i.days[5]
  }

  /** `mask_turnos`: some shift flag of the offer equals the interest's flag for that shift. */
  predicate ShiftsAgree(o: Offer, i: Interest) {
    o.shifts[0] == i.shifts[0] || o.shifts[1] == i.shifts[1] || o.shifts[2] == i.shifts[2]
  }

  /**
   * The day mask fails only when the offer's days are the exact complement of
   * the interest's; a day that neither has counts as agreement.
   */
  lemma DaysDisagreeOnlyOnComplement(o: Offer, i: Interest)
    ensures !DaysAgree(o, i) <==> forall k :: 0 <= k < 6 ==> o.days[k] == !i.days[k]
  {
    if forall k :: 0 <= k < 6 ==> o.days[k] == !i.days[k] {
      assert o.days[0] == !i.days[0] && o.days[5] == !i.days[5];
    }
  }

  lemma ShiftsDisagreeOnlyOnComplement(o: Offer, i: Interest)
    ensures !ShiftsAgree(o, i) <==> forall k :: 0 <= k < 3 ==> o.shifts[k] == !i.shifts[k]
  {
    if forall k :: 0 <= k < 3 ==> o.shifts[k] == !i.shifts[k] {
      assert o.shifts[0] == !i.shifts[0] && o.shifts[2] == !i.shifts[2];
    }
  }

  /** An interest that names no day passes every offer that leaves some day free. */
  lemma NoDayChosenMatchesAnyFreeDay(o: Offer, i: Interest)
    requires forall k :: 0 <= k < 6 ==> !i.days[k]
    ensures DaysAgree(o, i) <==> exists k :: 0 <= k < 6 && !o.days[k]
  {
    DaysDisagreeOnlyOnComplement(o, i);
  }

  /** Which units a strategy looks at. */
  datatype Scope = SameUnit | OtherUnit

  /** `mask_curso & mask_unidade & mask_data` of the two unit strategies. */
  predicate InScope(o: Offer, i: Interest, scope: Scope) {
    o.course == i.course &&
    (match scope
     case SameUnit => o.unit == i.unit
     case OtherUnit => o.unit != i.unit) &&
    o.created >= i.date
  }

  /** The three nested levels: days and shifts, days only, neither. */
  datatype Level = Full | DaysOnly | Basic

  predicate MeetsLevel(o: Offer, i: Interest, level: Level) {
    match level
    case Full => DaysAgree(o, i) && ShiftsAgree(o, i)
    case DaysOnly => DaysAgree(o, i)
    case Basic => true
  }

  /** The levels are nested: an offer that meets a stricter level meets every looser one. */
  lemma LevelsNest(o: Offer, i: Interest)
    ensures MeetsLevel(o, i, Full) ==> MeetsLevel(o, i, DaysOnly)
    ensures MeetsLevel(o, i, DaysOnly) ==> MeetsLevel(o, i, Basic)
    ensures MeetsLevel(o, i, DaysOnly) && !MeetsLevel(o, i, Full) <==> DaysAgree(o, i) && !ShiftsAgree(o, i)
  {
  }

  /** `df_ofertas[mask]` for the scope and level: the matching rows, in table order. */
  function Candidates(offers: seq<Offer>, i: Interest, scope: Scope, level: Level): (r: seq<Offer>)
    ensures IsSubseq(r, offers)
    ensures forall o :: o in r <==> o in offers && InScope(o, i, scope) && MeetsLevel(o, i, level)
    decreases |offers|
  {
    if offers == [] then []
    else
      var rest := Candidates(offers[1..], i, scope, level);
      assert forall o :: o in offers <==> o == offers[0] || o in offers[1..];
      if InScope(offers[0], i, scope) && MeetsLevel(offers[0], i, level) then [offers[0]] + rest
      else rest
  }

  /** The mask keeps every copy of a qualifying row and no copy of any other, even when the table repeats a row. */
  lemma {:induction false} CandidatesCount(offers: seq<Offer>, i: Interest, scope: Scope, level: Level, o: Offer)
    ensures multiset(Candidates(offers, i, scope, level))[o] ==
      if InScope(o, i, scope) && MeetsLevel(o, i, level) then multiset(offers)[o] else 0
    decreases |offers|
  {
    if offers != [] {
      CandidatesCount(offers[1..], i, scope, level, o);
      assert offers == [offers[0]] + offers[1..];
    }
  }

  // ---------------------------------------------------------------------------
  // Offer codes

  /** The `COD_OFERTA` column. */
  function Codes(os: seq<Offer>): (r: seq<int>)
    ensures |r| == |os|
    ensures forall k :: 0 <= k < |os| ==> r[k] == os[k].code
    decreases |os|
  {
    if os == [] then [] else [os[0].code] + Codes(os[1..])
  }

  /** `COD_OFERTA` identifies a row. */
  ghost predicate UniqueCodes(offers: seq<Offer>) {
    NoDup(Codes(offers))
  }

  lemma CodesCover(os: seq<Offer>)
    ensures forall o :: o in os ==> o.code in Codes(os)
  {
    forall o | o in os ensures o.code in Codes(os) {
      var k :| 0 <= k < |os| && os[k] == o;
      assert Codes(os)[k] == o.code;
    }
  }

  lemma {:induction false} CodesOfSubseq(r: seq<Offer>, s: seq<Offer>)
    requires IsSubseq(r, s)
    ensures IsSubseq(Codes(r), Codes(s))
    decreases |s|
  {
    if r != [] {
      if r[0] == s[0] && IsSubseq(r[1..], s[1..]) {
        CodesOfSubseq(r[1..], s[1..]);
        assert Codes(r)[1..] == Codes(r[1..]);
        assert Codes(s)[1..] == Codes(s[1..]);
      } else {
        CodesOfSubseq(r, s[1..]);
        assert Codes(s)[1..] == Codes(s[1..]);
      }
    }
  }

  /** With unique codes, two rows of the table with the same code are the same row. */
  lemma SameCodeSameOffer(offers: seq<Offer>, o: Offer, o': Offer)
    requires UniqueCodes(offers) && o in offers && o' in offers && o.code == o'.code
    ensures o == o'
  {
    var p :| 0 <= p < |offers| && offers[p] == o;
    var q :| 0 <= q < |offers| && offers[q] == o';
    assert Codes(offers)[p] == Codes(offers)[q];
  }

  /** `os[~os['COD_OFERTA'].isin(codes)]`. */
  function Exclude(os: seq<Offer>, codes: seq<int>): (r: seq<Offer>)
    ensures IsSubseq(r, os)
    ensures forall o :: o in r <==> o in os && o.code !in codes
    decreases |os|
  {
    if os == [] then []
    else
      var rest := Exclude(os[1..], codes);
      assert forall o :: o in os <==> o == os[0] || o in os[1..];
      if os[0].code !in codes then [os[0]] + rest else rest
  }

  /** `~isin` keeps every copy of a row whose code is not listed and no copy of the others. */
  lemma {:induction false} ExcludeCount(os: seq<Offer>, codes: seq<int>, o: Offer)
    ensures multiset(Exclude(os, codes))[o] == if o.code !in codes then multiset(os)[o] else 0
    decreases |os|
  {
    if os != [] {
      ExcludeCount(os[1..], codes, o);
      assert os == [os[0]] + os[1..];
    }
  }

  // ---------------------------------------------------------------------------
  // The three tiers

  /** Level 1: course, unit, days and shifts. */
  function FullTier(offers: seq<Offer>, i: Interest, scope: Scope): seq<Offer> {
    Candidates(offers, i, scope, Full)
  }

  /** Level 2: course, unit and days, minus the codes already in level 1. */
  function DaysTier(offers: seq<Offer>, i: Interest, scope: Scope): seq<Offer> {
    Exclude(Candidates(offers, i, scope, DaysOnly), Codes(FullTier(offers, i, scope)))
  }

  /** Level 3: course and unit, minus the codes already in levels 1 and 2. */
  function BasicTier(offers: seq<Offer>, i: Interest, scope: Scope): seq<Offer> {
    Exclude(Candidates(offers, i, scope, Basic),
            Codes(FullTier(offers, i, scope)) + Codes(DaysTier(offers, i, scope)))
  }

  /** The tiers never share an offer code, whatever the table holds. */
  lemma TiersDisjoint(offers: seq<Offer>, i: Interest, scope: Scope)
    ensures forall o, o' :: o in FullTier(offers, i, scope) && o' in DaysTier(offers, i, scope) ==> o.code != o'.code
    ensures forall o, o' :: o in FullTier(offers, i, scope) && o' in BasicTier(offers, i, scope) ==> o.code != o'.code
    ensures forall o, o' :: o in DaysTier(offers, i, scope) && o' in BasicTier(offers, i, scope) ==> o.code != o'.code
  {
    CodesCover(FullTier(offers, i, scope));
    CodesCover(DaysTier(offers, i, scope));
  }

  /** Each tier keeps the table's own order. */
  lemma TiersKeepTableOrder(offers: seq<Offer>, i: Interest, scope: Scope)
    ensures IsSubseq(FullTier(offers, i, scope), offers)
    ensures IsSubseq(DaysTier(offers, i, scope), offers)
    ensures IsSubseq(BasicTier(offers, i, scope), offers)
  {
    SubseqTrans(DaysTier(offers, i, scope), Candidates(offers, i, scope, DaysOnly), offers);
    SubseqTrans(BasicTier(offers, i, scope), Candidates(offers, i, scope, Basic), offers);
  }

  /**
   * With unique offer codes the exclusions amount to a classification: an
   * offer in scope lies in exactly one tier, chosen by which masks it passes.
   */
  lemma TierMembership(offers: seq<Offer>, i: Interest, scope: Scope, o: Offer)
    requires UniqueCodes(offers)
    ensures o in FullTier(offers, i, scope) <==> o in offers && InScope(o, i, scope) && DaysAgree(o, i) && ShiftsAgree(o, i)
    ensures o in DaysTier(offers, i, scope) <==> o in offers && InScope(o, i, scope) && DaysAgree(o, i) && !ShiftsAgree(o, i)
    ensures o in BasicTier(offers, i, scope) <==> o in offers && InScope(o, i, scope) && !DaysAgree(o, i)
  {
    var full, days := FullTier(offers, i, scope), DaysTier(offers, i, scope);
    CodesCover(full);
    CodesCover(days);
    if o.code in Codes(full) {
      var k :| 0 <= k < |full| && Codes(full)[k] == o.code;
      SubseqMembers(full, offers);
      if o in offers {
        SameCodeSameOffer(offers, o, full[k]);
      }
    }
    if o.code in Codes(days) {
      var k :| 0 <= k < |days| && Codes(days)[k] == o.code;
      TiersKeepTableOrder(offers, i, scope);
      SubseqMembers(days, offers);
      if o in offers {
        SameCodeSameOffer(offers, o, days[k]);
      }
    }
  }

  // ---------------------------------------------------------------------------
  // Tagged results

  /** The columns a strategy sets on every row it returns. */
  function Tag(os: seq<Offer>, kind: Indication, level: string, area: Option<string>): (r: seq<Rec>)
    ensures |r| == |os|
    ensures forall k :: 0 <= k < |os| ==> r[k] == Rec(os[k], kind, level, area)
  {
    seq(|os|, k requires 0 <= k < |os| => Rec(os[k], kind, level, area))
  }

  /** The `COD_OFERTA` column of a result. */
  function RecCodes(rs: seq<Rec>): (r: seq<int>)
    ensures |r| == |rs|
    ensures forall k :: 0 <= k < |rs| ==> r[k] == rs[k].offer.code
  {
    seq(|rs|, k requires 0 <= k < |rs| => rs[k].offer.code)
  }

  function KindOf(scope: Scope): Indication {
    match scope
    case SameUnit => MatchCompleto
    case OtherUnit => OutraUnidade
  }

  /** `NIVEL_MATCH` for each scope and tier. */
  function LevelName(scope: Scope, level: Level): string {
    match scope
    case SameUnit =>
      (match level
       case Full => "CURSO+UNIDADE+DIAS+TURNOS"
       case DaysOnly => "CURSO+UNIDADE+DIAS"
       case Basic => "CURSO+UNIDADE")
    case OtherUnit =>
      (match level
       case Full => "CURSO+DIAS+TURNOS"
       case DaysOnly => "CURSO+DIAS"
       case Basic => "CURSO")
  }

  /** `pd.concat(resultados)`: the three tiers, tagged, strictest first. */
  function TieredMatches(offers: seq<Offer>, i: Interest, scope: Scope): seq<Rec> {
    Tag(FullTier(offers, i, scope), KindOf(scope), LevelName(scope, Full), None) +
    Tag(DaysTier(offers, i, scope), KindOf(scope), LevelName(scope, DaysOnly), None) +
    Tag(BasicTier(offers, i, scope), KindOf(scope), LevelName(scope, Basic), None)
  }

  /** The three tiers at the interest's unit, with their `NIVEL_MATCH` labels written out. */
  lemma SameUnitTiers(offers: seq<Offer>, i: Interest)
    ensures TieredMatches(offers, i, SameUnit) ==
      Tag(FullTier(offers, i, SameUnit), MatchCompleto, "CURSO+UNIDADE+DIAS+TURNOS", None) +
      Tag(DaysTier(offers, i, SameUnit), MatchCompleto, "CURSO+UNIDADE+DIAS", None) +
      Tag(BasicTier(offers, i, SameUnit), MatchCompleto, "CURSO+UNIDADE", None)
  {
  }

  /** The three tiers over the other units, with their `NIVEL_MATCH` labels written out. */
  lemma OtherUnitTiers(offers: seq<Offer>, i: Interest)
    ensures TieredMatches(offers, i, OtherUnit) ==
      Tag(FullTier(offers, i, OtherUnit), OutraUnidade, "CURSO+DIAS+TURNOS", None) +
      Tag(DaysTier(offers, i, OtherUnit), OutraUnidade, "CURSO+DIAS", None) +
      Tag(BasicTier(offers, i, OtherUnit), OutraUnidade, "CURSO", None)
  {
  }

  /** Where a row of `TieredMatches` comes from: its level names the tier that holds its offer. */
  lemma TieredMatchRow(offers: seq<Offer>, i: Interest, scope: Scope, r: Rec)
    requires r in TieredMatches(offers, i, scope)
    ensures r.kind == KindOf(scope) && r.area == None
    ensures r.offer in offers && InScope(r.offer, i, scope)
    ensures (r.level == LevelName(scope, Full) && r.offer in FullTier(offers, i, scope)) ||
            (r.level == LevelName(scope, DaysOnly) && r.offer in DaysTier(offers, i, scope)) ||
            (r.level == LevelName(scope, Basic) && r.offer in BasicTier(offers, i, scope))
  {
    var a := Tag(FullTier(offers, i, scope), KindOf(scope), LevelName(scope, Full), None);
    var b := Tag(DaysTier(offers, i, scope), KindOf(scope), LevelName(scope, DaysOnly), None);
    var c := Tag(BasicTier(offers, i, scope), KindOf(scope), LevelName(scope, Basic), None);
    assert r in a || r in b || r in c;
  }

  /** Every returned offer is of the interest's course, in the scope's units, created on or after the interest date. */
  lemma TieredMatchesSound(offers: seq<Offer>, i: Interest, scope: Scope)
    ensures forall r :: r in TieredMatches(offers, i, scope) ==>
      r.offer in offers && InScope(r.offer, i, scope) && r.kind == KindOf(scope) && r.area == None
  {
    forall r | r in TieredMatches(offers, i, scope)
      ensures r.offer in offers && InScope(r.offer, i, scope) && r.kind == KindOf(scope) && r.area == None
    {
      TieredMatchRow(offers, i, scope, r);
    }
  }

  /** Nothing in scope is lost: every such offer is returned. */
  lemma TieredMatchesComplete(offers: seq<Offer>, i: Interest, scope: Scope, o: Offer)
    requires UniqueCodes(offers)
    requires o in offers && InScope(o, i, scope)
    ensures exists r :: r in TieredMatches(offers, i, scope) && r.offer == o
  {
    TierMembership(offers, i, scope, o);
    var full := FullTier(offers, i, scope);
    var days := DaysTier(offers, i, scope);
    var basic := BasicTier(offers, i, scope);
    var a := Tag(full, KindOf(scope), LevelName(scope, Full), None);
    var b := Tag(days, KindOf(scope), LevelName(scope, DaysOnly), None);
    var c := Tag(basic, KindOf(scope), LevelName(scope, Basic), None);
    if o in full {
      var k :| 0 <= k < |full| && full[k] == o;
      assert a[k] in TieredMatches(offers, i, scope);
    } else if o in days {
      var k :| 0 <= k < |days| && days[k] == o;
      assert b[k] in TieredMatches(offers, i, scope);
    } else {
      var k :| 0 <= k < |basic| && basic[k] == o;
      assert c[k] in TieredMatches(offers, i, scope);
    }
  }

  /** With unique offer codes, a row's `NIVEL_MATCH` says exactly which masks its offer passes. */
  lemma LevelsClassify(offers: seq<Offer>, i: Interest, scope: Scope, r: Rec)
    requires UniqueCodes(offers)
    requires r in TieredMatches(offers, i, scope)
    ensures r.level == LevelName(scope, Full) <==> DaysAgree(r.offer, i) && ShiftsAgree(r.offer, i)
    ensures r.level == LevelName(scope, DaysOnly) <==> DaysAgree(r.offer, i) && !ShiftsAgree(r.offer, i)
    ensures r.level == LevelName(scope, Basic) <==> !DaysAgree(r.offer, i)
  {
    TieredMatchRow(offers, i, scope, r);
    TierMembership(offers, i, scope, r.offer);
  }

  lemma RecCodesOfTag(os: seq<Offer>, kind: Indication, level: string, area: Option<string>)
    ensures RecCodes(Tag(os, kind, level, area)) == Codes(os)
  {
  }

  lemma RecCodesConcat(a: seq<Rec>, b: seq<Rec>)
    ensures RecCodes(a + b) == RecCodes(a) + RecCodes(b)
  {
  }

  /** With unique offer codes, no offer is returned twice. */
  lemma TieredMatchesDistinct(offers: seq<Offer>, i: Interest, scope: Scope)
    requires UniqueCodes(offers)
    ensures NoDup(RecCodes(TieredMatches(offers, i, scope)))
  {
    var full := FullTier(offers, i, scope);
    var days := DaysTier(offers, i, scope);
    var basic := BasicTier(offers, i, scope);
    TiersKeepTableOrder(offers, i, scope);
    CodesOfSubseq(full, offers);
    CodesOfSubseq(days, offers);
    CodesOfSubseq(basic, offers);
    SubseqNoDup(Codes(full), Codes(offers));
    SubseqNoDup(Codes(days), Codes(offers));
    SubseqNoDup(Codes(basic), Codes(offers));
    NoDupConcat(Codes(full), Codes(days));
    NoDupConcat(Codes(full) + Codes(days), Codes(basic));
    var a := Tag(full, KindOf(scope), LevelName(scope, Full), None);
    var b := Tag(days, KindOf(scope), LevelName(scope, DaysOnly), None);
    var c := Tag(basic, KindOf(scope), LevelName(scope, Basic), None);
    RecCodesConcat(a, b);
    RecCodesConcat(a + b, c);
    RecCodesOfTag(full, KindOf(scope), LevelName(scope, Full), None);
    RecCodesOfTag(days, KindOf(scope), LevelName(scope, DaysOnly), None);
    RecCodesOfTag(basic, KindOf(scope), LevelName(scope, Basic), None);
  }

  // ---------------------------------------------------------------------------
  // Strategies 1 and 2

  /** `_match_unidade_mesma`. */
  function SameUnitMatches(offers: seq<Offer>, i: Interest): seq<Rec> {
    TieredMatches(offers, i, SameUnit)
  }

  /** `_match_unidade_outra` without the distance column: nothing when the interest's unit has no coordinates. */
  function OtherUnitMatches(offers: seq<Offer>, located: set<int>, i: Interest): seq<Rec> {
    if i.unit !in located then [] else TieredMatches(offers, i, OtherUnit)
  }

  /** Strategy 1 returns offers of the interest's course at its unit, recent enough, each at most once. */
  lemma SameUnitMatchesSound(offers: seq<Offer>, i: Interest)
    ensures forall r :: r in SameUnitMatches(offers, i) ==>
      r.offer in offers && r.kind == MatchCompleto && r.offer.course == i.course &&
      r.offer.unit == i.unit && r.offer.created >= i.date
    ensures UniqueCodes(offers) ==> NoDup(RecCodes(SameUnitMatches(offers, i)))
  {
    TieredMatchesSound(offers, i, SameUnit);
    if UniqueCodes(offers) {
      TieredMatchesDistinct(offers, i, SameUnit);
    }
  }

  /** Strategy 2 returns offers of the interest's course at other units, recent enough, each at most once. */
  lemma OtherUnitMatchesSound(offers: seq<Offer>, located: set<int>, i: Interest)
    ensures i.unit !in located ==> OtherUnitMatches(offers, located, i) == []
    ensures forall r :: r in OtherUnitMatches(offers, located, i) ==>
      r.offer in offers && r.kind == OutraUnidade && r.offer.course == i.course &&
      r.offer.unit != i.unit && r.offer.created >= i.date
    ensures UniqueCodes(offers) ==> NoDup(RecCodes(OtherUnitMatches(offers, located, i)))
  {
    TieredMatchesSound(offers, i, OtherUnit);
    if UniqueCodes(offers) {
      TieredMatchesDistinct(offers, i, OtherUnit);
    }
  }

  // ---------------------------------------------------------------------------
  // Strategy 3: the professional trail

  /** `trilha_curso['AREA_PROFISSIONAL'].iloc[0]`: the area of the first trail row of the course. */
  function TrailArea(trails: seq<TrailEntry>, course: int): (r: Option<string>)
    ensures r.None? <==> forall t :: t in trails ==> t.course != course
    decreases |trails|
  {
    if trails == [] then None
    else if trails[0].course == course then Some(trails[0].area)
    else
      assert forall t :: t in trails <==> t == trails[0] || t in trails[1..];
      TrailArea(trails[1..], course)
  }

  /** The area found is the one of the first row that lists the course. */
  lemma {:induction false} TrailAreaIsFirst(trails: seq<TrailEntry>, course: int)
    requires TrailArea(trails, course).Some?
    ensures exists k :: 0 <= k < |trails| && trails[k].course == course && trails[k].area == TrailArea(trails, course).value &&
              forall j :: 0 <= j < k ==> trails[j].course != course
    decreases |trails|
  {
    if trails[0].course != course {
      TrailAreaIsFirst(trails[1..], course);
      var k :| 0 <= k < |trails[1..]| && trails[1..][k].course == course &&
               trails[1..][k].area == TrailArea(trails, course).value &&
               forall j :: 0 <= j < k ==> trails[1..][j].course != course;
      assert trails[k + 1] == trails[1..][k];
      assert forall j :: 1 <= j < k + 1 ==> trails[j] == trails[1..][j - 1];
    } else {
      assert trails[0].course == course;
    }
  }

  /** `cursos_trilha`: the other courses of the area, in trail order. */
  function TrailCourses(trails: seq<TrailEntry>, area: string, course: int): (r: seq<int>)
    ensures forall c :: c in r <==> c != course && exists t :: t in trails && t.area == area && t.course == c
    decreases |trails|
  {
    if trails == [] then []
    else
      var rest := TrailCourses(trails[1..], area, course);
      assert forall t :: t in trails <==> t == trails[0] || t in trails[1..];
      if trails[0].area == area && trails[0].course != course then [trails[0].course] + rest else rest
  }

  /** `mask_cursos & mask_unidade & mask_data` of the trail strategy. */
  function TrailOffers(offers: seq<Offer>, courses: seq<int>, i: Interest): (r: seq<Offer>)
    ensures IsSubseq(r, offers)
    ensures forall o :: o in r <==> o in offers && o.course in courses && o.unit == i.unit && o.created >= i.date
    decreases |offers|
  {
    if offers == [] then []
    else
      var rest := TrailOffers(offers[1..], courses, i);
      assert forall o :: o in offers <==> o == offers[0] || o in offers[1..];
      var o := offers[0];
      if o.course in courses && o.unit == i.unit && o.created >= i.date then [o] + rest else rest
  }

  /** The trail mask keeps every copy of a qualifying row and no copy of any other. */
  lemma {:induction false} TrailOffersCount(offers: seq<Offer>, courses: seq<int>, i: Interest, o: Offer)
    ensures multiset(TrailOffers(offers, courses, i))[o] ==
      if o.course in courses && o.unit == i.unit && o.created >= i.date then multiset(offers)[o] else 0
    decreases |offers|
  {
    if offers != [] {
      TrailOffersCount(offers[1..], courses, i, o);
      assert offers == [offers[0]] + offers[1..];
    }
  }

  /** `_match_trilha_profissional`. */
  function TrailMatches(offers: seq<Offer>, trails: seq<TrailEntry>, i: Interest): seq<Rec> {
    match TrailArea(trails, i.course)
    case None => []
    case Some(area) =>
      var courses := TrailCourses(trails, area, i.course);
      if courses == [] then []
      else Tag(TrailOffers(offers, courses, i), TrilhaProfissional, "AREA_PROFISSIONAL+MESMA_UNIDADE", Some(area))
  }

  /** An offer the trail strategy should find: another course of `area`, at the interest's unit, recent enough. */
  predicate OnTrail(o: Offer, trails: seq<TrailEntry>, area: string, i: Interest) {
    o.course != i.course && (exists t :: t in trails && t.area == area && t.course == o.course) &&
    o.unit == i.unit && o.created >= i.date
  }

  /** No trail row for the course, or no other course on its trail: nothing. */
  lemma TrailEmptyCases(offers: seq<Offer>, trails: seq<TrailEntry>, i: Interest)
    ensures (forall t :: t in trails ==> t.course != i.course) ==> TrailMatches(offers, trails, i) == []
    ensures TrailArea(trails, i.course).Some? &&
            (forall t :: t in trails && t.area == TrailArea(trails, i.course).value ==> t.course == i.course)
            ==> TrailMatches(offers, trails, i) == []
  {
    var area := TrailArea(trails, i.course);
    if area.Some? && forall t :: t in trails && t.area == area.value ==> t.course == i.course {
      var courses := TrailCourses(trails, area.value, i.course);
      if courses != [] {
        assert courses[0] in courses;
      }
    }
  }

  /**
   * The trail strategy returns exactly the offers on the trail of the
   * course's first trail row, in table order, tagged with that area.
   */
  lemma TrailMatchesExact(offers: seq<Offer>, trails: seq<TrailEntry>, i: Interest)
    ensures forall r :: r in TrailMatches(offers, trails, i) ==>
      TrailArea(trails, i.course).Some? && r.offer in offers &&
      OnTrail(r.offer, trails, TrailArea(trails, i.course).value, i) &&
      r.kind == TrilhaProfissional && r.level == "AREA_PROFISSIONAL+MESMA_UNIDADE" &&
      r.area == TrailArea(trails, i.course)
    ensures TrailArea(trails, i.course).Some? ==>
      forall o :: o in offers && OnTrail(o, trails, TrailArea(trails, i.course).value, i) ==>
        exists r :: r in TrailMatches(offers, trails, i) && r.offer == o
  {
    var area := TrailArea(trails, i.course);
    if area.Some? {
      var courses := TrailCourses(trails, area.value, i.course);
      var found := TrailOffers(offers, courses, i);
      var tagged := Tag(found, TrilhaProfissional, "AREA_PROFISSIONAL+MESMA_UNIDADE", area);
      forall o | o in offers && OnTrail(o, trails, area.value, i)
        ensures exists r :: r in TrailMatches(offers, trails, i) && r.offer == o
      {
        assert o.course in courses;
        var k :| 0 <= k < |found| && found[k] == o;
        assert tagged[k] in TrailMatches(offers, trails, i);
      }
    }
  }
}
