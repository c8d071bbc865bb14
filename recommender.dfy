/**
 * The recommendation system object: the tables it holds, the three
 * rule-based strategies run against them, and the priority ordering of the
 * combined result.
 */
module Recommender {
  import opened Wrappers
  import opened Seqs
  import opened OfferFlags
  import opened OfferMatching

  /** `ordem_prioridade`. */
  const PriorityOrder: map<string, int> := map[
    "1.MATCH_COMPLETO" := 1,
    "2.OUTRA_UNIDADE" := 2,
    "3.TRILHA_PROFISSIONAL" := 3,
    "4.SIMILARIDADE_SEMANTICA" := 4,
    "5.MODALIDADE_EAD" := 5]

  /** `TIPO_INDICACAO.map(ordem_prioridade)`: every indication label has an entry. */
  function Priority(kind: Indication): int {
    assert Label(kind) in PriorityOrder;
    PriorityOrder[Label(kind)]
  }

  /** The priority is the digit that opens the indication label, so it lies between 1 and 5. */
  lemma PriorityIsLabelDigit(kind: Indication)
    ensures Priority(kind) == (Label(kind)[0] as int) - ('0' as int)
    ensures 1 <= Priority(kind) <= 5
  {
  }

  /** Strategies earlier in the run get strictly smaller priorities. */
  lemma PriorityFollowsStrategyOrder()
    ensures Priority(MatchCompleto) < Priority(OutraUnidade) < Priority(TrilhaProfissional)
            < Priority(SimilaridadeSemantica) < Priority(ModalidadeEad)
  {
  }

  /** A result row once the interest's columns and `PRIORIDADE` are added. */
  datatype Row = Row(rec: Rec, priority: int, student: int)

  predicate SortedByPriority(rows: seq<Row>) {
    forall p, q :: 0 <= p < q < |rows| ==> rows[p].priority <= rows[q].priority
  }

  /** Insertion of one row into a sorted list, after the rows of no greater priority. */
  function Insert(x: Row, s: seq<Row>): (r: seq<Row>)
    requires SortedByPriority(s)
    ensures SortedByPriority(r)
    ensures multiset(r) == multiset(s) + multiset{x}
    ensures |r| == |s| + 1
    ensures forall y :: y in r ==> y == x || y in s
    decreases |s|
  {
    if s == [] || x.priority <= s[0].priority then
      assert forall y :: y in s ==> s[0].priority <= y.priority;
      [x] + s
    else
      var rest := Insert(x, s[1..]);
      assert s == [s[0]] + s[1..];
      assert forall y :: y in rest ==> s[0].priority <= y.priority;
      [s[0]] + rest
  }

  /** `sort_values('PRIORIDADE')`, stable: an insertion sort. */
  function SortByPriority(rows: seq<Row>): (r: seq<Row>)
    ensures SortedByPriority(r)
    ensures multiset(r) == multiset(rows)
    decreases |rows|
  {
    if rows == [] then []
    else
      assert rows == [rows[0]] + rows[1..];
      Insert(rows[0], SortByPriority(rows[1..]))
  }

  /** Rows already in priority order are left where they are. */
  lemma {:induction false} SortKeepsSortedRows(rows: seq<Row>)
    requires SortedByPriority(rows)
    ensures SortByPriority(rows) == rows
    decreases |rows|
  {
    if rows != [] {
      SortKeepsSortedRows(rows[1..]);
      assert rows == [rows[0]] + rows[1..];
    }
  }

  lemma SortedConcat(a: seq<Row>, b: seq<Row>)
    requires SortedByPriority(a) && SortedByPriority(b)
    requires forall x, y :: x in a && y in b ==> x.priority <= y.priority
    ensures SortedByPriority(a + b)
  {
    forall p, q | 0 <= p < q < |a + b| ensures (a + b)[p].priority <= (a + b)[q].priority {
      if p < |a| && q >= |a| {
        assert (a + b)[p] in a && (a + b)[q] == b[q - |a|];
      }
    }
  }

  /** What `gerar_recomendacoes` hands back. */
  datatype Outcome =
    | NoSuchInterest                     // `None`: no interest row has the code
    | NothingToConcatenate               // every strategy came back empty: `pd.concat([])` raises
    | MissingScoreColumn                 // the sort names `SCORE_SIMILARIDADE`, which no row has: `KeyError`
    | Recommendations(rows: seq<Row>)

  /** `df_interesses[df_interesses['COD_INTERESSE'] == cod].index[0]`, if any. */
  function FindInterest(interests: seq<Interest>, code: int): (r: Option<nat>)
    ensures r.None? <==> forall k :: 0 <= k < |interests| ==> interests[k].code != code
    ensures r.Some? ==> r.value < |interests| && interests[r.value].code == code &&
                        forall k :: 0 <= k < r.value ==> interests[k].code != code
    decreases |interests|
  {
    if interests == [] then None
    else if interests[0].code == code then Some(0)
    else
      var r := FindInterest(interests[1..], code);
      assert forall k :: 1 <= k < |interests| ==> interests[k] == interests[1..][k - 1];
      if r.None? then None else Some(r.value + 1)
  }

  /** The results of all five strategies, in the order they run. */
  function AllMatches(offers: seq<Offer>, located: set<int>, trails: seq<TrailEntry>, i: Interest,
                      semantic: seq<Offer>, ead: seq<Offer>): seq<Rec>
  {
    SameUnitMatches(offers, i) + OtherUnitMatches(offers, located, i) + TrailMatches(offers, trails, i) +
    Tag(semantic, SimilaridadeSemantica, "TITULO_SIMILAR+MESMA_UNIDADE", None) +
    Tag(ead, ModalidadeEad, "CURSO_EAD_SIMILAR", None)
  }

  /** Each result row with the interest's student and its priority. */
  function Ranked(recs: seq<Rec>, student: int): (r: seq<Row>)
    ensures |r| == |recs|
    ensures forall k :: 0 <= k < |recs| ==> r[k] == Row(recs[k], Priority(recs[k].kind), student)
  {
    seq(|recs|, k requires 0 <= k < |recs| => Row(recs[k], Priority(recs[k].kind), student))
  }

  /** `[r for r in resultados if not r.empty]`. */
  function NonEmpty(parts: seq<seq<Rec>>): (r: seq<seq<Rec>>)
    ensures r == [] <==> forall k :: 0 <= k < |parts| ==> parts[k] == []
    decreases |parts|
  {
    if parts == [] then []
    else
      assert forall k :: 1 <= k < |parts| ==> parts[k] == parts[1..][k - 1];
      if parts[0] == [] then NonEmpty(parts[1..]) else [parts[0]] + NonEmpty(parts[1..])
  }

  /** `pd.concat(parts, ignore_index=True)`. */
  function Concat(parts: seq<seq<Rec>>): seq<Rec>
    decreases |parts|
  {
    if parts == [] then [] else parts[0] + Concat(parts[1..])
  }

  /** Leaving out the empty frames does not change the concatenation. */
  lemma {:induction false} ConcatNonEmpty(parts: seq<seq<Rec>>)
    ensures Concat(NonEmpty(parts)) == Concat(parts)
    decreases |parts|
  {
    if parts != [] {
      ConcatNonEmpty(parts[1..]);
      if parts[0] != [] {
        assert Concat([parts[0]] + NonEmpty(parts[1..])) == parts[0] + Concat(NonEmpty(parts[1..]));
      }
    }
  }

  lemma RankedConcat(a: seq<Rec>, b: seq<Rec>, student: int)
    ensures Ranked(a + b, student) == Ranked(a, student) + Ranked(b, student)
  {
  }

  /** The five strategy frames, as `gerar_recomendacoes` collects them: none survives the filter iff all rows are absent. */
  lemma {:induction false} FiveFrames(m1: seq<Rec>, m2: seq<Rec>, m3: seq<Rec>, m4: seq<Rec>, m5: seq<Rec>)
    ensures Concat(NonEmpty([m1, m2, m3, m4, m5])) == m1 + m2 + m3 + m4 + m5
    ensures NonEmpty([m1, m2, m3, m4, m5]) == [] <==> m1 + m2 + m3 + m4 + m5 == []
  {
    var parts := [m1, m2, m3, m4, m5];
    ConcatNonEmpty(parts);
    assert parts[1..] == [m2, m3, m4, m5] && [m2, m3, m4, m5][1..] == [m3, m4, m5];
    assert [m3, m4, m5][1..] == [m4, m5] && [m4, m5][1..] == [m5] && [m5][1..] == [];
    assert Concat([m5]) == m5;
    assert Concat([m4, m5]) == m4 + m5;
    assert Concat([m3, m4, m5]) == m3 + (m4 + m5);
    assert Concat([m2, m3, m4, m5]) == m2 + (m3 + (m4 + m5));
    assert NonEmpty(parts) == [] <==> m1 == [] && m2 == [] && m3 == [] && m4 == [] && m5 == [] by {
      assert parts[0] == m1 && parts[1] == m2 && parts[2] == m3 && parts[3] == m4 && parts[4] == m5;
    }
  }

  /** Every ranked row carries the interest's student and the priority of its indication. */
  lemma RankedRows(recs: seq<Rec>, student: int)
    ensures forall x :: x in Ranked(recs, student) ==>
      1 <= x.priority <= 5 && x.priority == Priority(x.rec.kind) && x.student == student
  {
    forall x | x in Ranked(recs, student)
      ensures 1 <= x.priority <= 5 && x.priority == Priority(x.rec.kind) && x.student == student
    {
      PriorityIsLabelDigit(x.rec.kind);
    }
  }

  /** Sorting keeps exactly the rows it was given. */
  lemma SortKeepsRows(rows: seq<Row>)
    ensures forall x :: x in SortByPriority(rows) <==> x in rows
  {
    var r := SortByPriority(rows);
    assert forall x :: x in r <==> x in multiset(r);
  }

  /** All rows of `recs` come from the strategy `kind`. */
  predicate AllOfKind(recs: seq<Rec>, kind: Indication) {
    forall r :: r in recs ==> r.kind == kind
  }

  lemma RankedOfKindSorted(recs: seq<Rec>, kind: Indication, student: int)
    requires AllOfKind(recs, kind)
    ensures SortedByPriority(Ranked(recs, student))
    ensures forall x :: x in Ranked(recs, student) ==> x.priority == Priority(kind)
  {
    forall x | x in Ranked(recs, student) ensures x.priority == Priority(kind) {
      var k :| 0 <= k < |recs| && Ranked(recs, student)[k] == x;
      assert recs[k] in recs;
    }
  }

  /** Every strategy tags its rows with its own indication. */
  lemma StrategiesTagTheirRows(offers: seq<Offer>, located: set<int>, trails: seq<TrailEntry>, i: Interest,
                               semantic: seq<Offer>, ead: seq<Offer>)
    ensures AllOfKind(SameUnitMatches(offers, i), MatchCompleto)
    ensures AllOfKind(OtherUnitMatches(offers, located, i), OutraUnidade)
    ensures AllOfKind(TrailMatches(offers, trails, i), TrilhaProfissional)
    ensures AllOfKind(Tag(semantic, SimilaridadeSemantica, "TITULO_SIMILAR+MESMA_UNIDADE", None), SimilaridadeSemantica)
    ensures AllOfKind(Tag(ead, ModalidadeEad, "CURSO_EAD_SIMILAR", None), ModalidadeEad)
  {
    TieredMatchesSound(offers, i, SameUnit);
    TieredMatchesSound(offers, i, OtherUnit);
    TrailMatchesExact(offers, trails, i);
  }

  /**
   * The strategies run in priority order, so their concatenation is already
   * sorted by `PRIORIDADE`: the priority key alone never moves a row, and any
   * reordering comes from the distance and similarity keys.
   */
  lemma StrategyOrderIsPriorityOrder(offers: seq<Offer>, located: set<int>, trails: seq<TrailEntry>, i: Interest,
                                     semantic: seq<Offer>, ead: seq<Offer>)
    ensures SortedByPriority(Ranked(AllMatches(offers, located, trails, i, semantic, ead), i.student))
    ensures SortByPriority(Ranked(AllMatches(offers, located, trails, i, semantic, ead), i.student)) ==
            Ranked(AllMatches(offers, located, trails, i, semantic, ead), i.student)
  {
    var m1 := SameUnitMatches(offers, i);
    var m2 := OtherUnitMatches(offers, located, i);
    var m3 := TrailMatches(offers, trails, i);
    var m4 := Tag(semantic, SimilaridadeSemantica, "TITULO_SIMILAR+MESMA_UNIDADE", None);
    var m5 := Tag(ead, ModalidadeEad, "CURSO_EAD_SIMILAR", None);
    var s := i.student;
    StrategiesTagTheirRows(offers, located, trails, i, semantic, ead);
    PriorityFollowsStrategyOrder();
    RankedOfKindSorted(m1, MatchCompleto, s);
    RankedOfKindSorted(m2, OutraUnidade, s);
    RankedOfKindSorted(m3, TrilhaProfissional, s);
    RankedOfKindSorted(m4, SimilaridadeSemantica, s);
    RankedOfKindSorted(m5, ModalidadeEad, s);
    RankedConcat(m1, m2, s);
    RankedConcat(m1 + m2, m3, s);
    RankedConcat(m1 + m2 + m3, m4, s);
    RankedConcat(m1 + m2 + m3 + m4, m5, s);
    var r1, r2, r3, r4, r5 := Ranked(m1, s), Ranked(m2, s), Ranked(m3, s), Ranked(m4, s), Ranked(m5, s);
    SortedConcat(r1, r2);
    SortedConcat(r1 + r2, r3);
    SortedConcat(r1 + r2 + r3, r4);
    SortedConcat(r1 + r2 + r3 + r4, r5);
    SortKeepsSortedRows(Ranked(AllMatches(offers, located, trails, i, semantic, ead), s));
  }

  /**
   * `gerar_recomendacoes` as the sort was evidently meant to work: whatever
   * rows the strategies return are ranked and ordered by priority.
   */
  function GenerateIntended(interests: seq<Interest>, offers: seq<Offer>, located: set<int>, trails: seq<TrailEntry>,
                            code: int, semantic: seq<Offer>, ead: seq<Offer>): Outcome
  {
    match FindInterest(interests, code)
    case None => NoSuchInterest
    case Some(idx) =>
      var all := AllMatches(offers, located, trails, interests[idx], semantic, ead);
      if all == [] then NothingToConcatenate
      else Recommendations(SortByPriority(Ranked(all, interests[idx].student)))
  }

  /**
   * `gerar_recomendacoes` as written. Only strategies 4 and 5 add the
   * `SCORE_SIMILARIDADE` column, and only to rows they return, yet both
   * sorts name it as a key: when those two strategies return nothing while
   * others do, `sort_values` raises.
   */
  function GenerateAsWritten(interests: seq<Interest>, offers: seq<Offer>, located: set<int>, trails: seq<TrailEntry>,
                             code: int, semantic: seq<Offer>, ead: seq<Offer>): Outcome
  {
    var r := GenerateIntended(interests, offers, located, trails, code, semantic, ead);
    if r.Recommendations? && semantic == [] && ead == [] then MissingScoreColumn else r
  }

  /** What the intended version returns: every strategy row for a known interest, ranked and in priority order. */
  lemma GenerateIntendedOutcomes(interests: seq<Interest>, offers: seq<Offer>, located: set<int>, trails: seq<TrailEntry>,
                                 code: int, semantic: seq<Offer>, ead: seq<Offer>)
    ensures var out := GenerateIntended(interests, offers, located, trails, code, semantic, ead);
      (out.NoSuchInterest? <==> FindInterest(interests, code).None?) &&
      !out.MissingScoreColumn? &&
      (FindInterest(interests, code).Some? ==>
        var i := interests[FindInterest(interests, code).value];
        var all := AllMatches(offers, located, trails, i, semantic, ead);
        (out.NothingToConcatenate? <==> all == []) &&
        (out.Recommendations? ==>
          SortedByPriority(out.rows) &&
          multiset(out.rows) == multiset(Ranked(all, i.student)) &&
          forall x :: x in out.rows ==> 1 <= x.priority <= 5 && x.priority == Priority(x.rec.kind) && x.student == i.student))
  {
    var found := FindInterest(interests, code);
    if found.Some? {
      var i := interests[found.value];
      var ranked := Ranked(AllMatches(offers, located, trails, i, semantic, ead), i.student);
      RankedRows(AllMatches(offers, located, trails, i, semantic, ead), i.student);
      SortKeepsRows(ranked);
    }
  }

  /**
   * The code as written fails exactly where the intended version ranks rows
   * that strategies 4 and 5 did not contribute to, and agrees with it elsewhere.
   */
  lemma GenerateAsWrittenOutcomes(interests: seq<Interest>, offers: seq<Offer>, located: set<int>, trails: seq<TrailEntry>,
                                  code: int, semantic: seq<Offer>, ead: seq<Offer>)
    ensures var out := GenerateAsWritten(interests, offers, located, trails, code, semantic, ead);
      (out.MissingScoreColumn? <==>
        FindInterest(interests, code).Some? &&
        AllMatches(offers, located, trails, interests[FindInterest(interests, code).value], semantic, ead) != [] &&
        semantic == [] && ead == []) &&
      (!out.MissingScoreColumn? ==> out == GenerateIntended(interests, offers, located, trails, code, semantic, ead))
  {
    GenerateIntendedOutcomes(interests, offers, located, trails, code, semantic, ead);
  }

  /** `GenerateAsWritten` for an interest that is found, by the strategies' rows. */
  lemma GenerateAsWrittenFound(interests: seq<Interest>, offers: seq<Offer>, located: set<int>, trails: seq<TrailEntry>,
                               code: int, semantic: seq<Offer>, ead: seq<Offer>, idx: nat, all: seq<Rec>)
    requires FindInterest(interests, code) == Some(idx)
    requires all == AllMatches(offers, located, trails, interests[idx], semantic, ead)
    ensures GenerateAsWritten(interests, offers, located, trails, code, semantic, ead) ==
      if all == [] then NothingToConcatenate
      else if semantic == [] && ead == [] then MissingScoreColumn
      else Recommendations(SortByPriority(Ranked(all, interests[idx].student)))
  {
  }

  /** One interest, code 99, and one offer of its course at its unit, created on the interest date. */
  const ExampleInterest := Interest(99, 1, 10, 5, 0, [true, false, false, false, false, false], [true, false, false])
  const ExampleOffer := Offer(7, 10, 5, 0, 0, [true, false, false, false, false, false], [true, false, false])

  /**
   * With no embedding matches the code raises although strategy 1 found an
   * offer, which the intended version ranks first.
   */
  lemma MissingScoreColumnExample()
    ensures AllMatches([ExampleOffer], {}, [], ExampleInterest, [], []) != []
    ensures GenerateAsWritten([ExampleInterest], [ExampleOffer], {}, [], 99, [], []) == MissingScoreColumn
    ensures GenerateIntended([ExampleInterest], [ExampleOffer], {}, [], 99, [], []).Recommendations?
  {
    assert UniqueCodes([ExampleOffer]);
    assert InScope(ExampleOffer, ExampleInterest, SameUnit);
    TieredMatchesComplete([ExampleOffer], ExampleInterest, SameUnit, ExampleOffer);
    var m := SameUnitMatches([ExampleOffer], ExampleInterest);
    assert m != [];
    assert FindInterest([ExampleInterest], 99) == Some(0);
  }

  /**
   * `SistemaRecomendacaoCursos`: the tables are set once, when the object is
   * built, and only read afterwards.
   */
  class RecommendationSystem {
    const interests: seq<Interest>
    const offers: seq<Offer>
    const trails: seq<TrailEntry>
    /** The units with coordinates: the keys of `unidade_coord_dict`. */
    const located: set<int>

    /** `__init__` from tables already read; the offer rows get their flag columns here. */
    constructor(interests: seq<Interest>, raws: seq<RawOffer>, trails: seq<TrailEntry>, located: set<int>)
      ensures this.interests == interests && this.trails == trails && this.located == located
      ensures |this.offers| == |raws| && forall r :: 0 <= r < |raws| ==> this.offers[r] == OfferOf(raws[r])
    {
      var flagged := AddFlagColumns(raws);
      this.interests := interests;
      this.offers := flagged;
      this.trails := trails;
      this.located := located;
    }

    /**
     * `_match_unidade_mesma`: each non-empty tier is appended in turn.
     * Every row is of the interest's course and unit and recent enough, and,
     * with unique offer codes, every such offer appears exactly once.
     */
    method MatchSameUnit(idx: nat) returns (resultados: seq<Rec>)
      requires idx < |interests|
      ensures resultados == SameUnitMatches(offers, interests[idx])
      ensures forall r :: r in resultados ==>
        r.offer in offers && r.kind == MatchCompleto && r.offer.course == interests[idx].course &&
        r.offer.unit == interests[idx].unit && r.offer.created >= interests[idx].date
      ensures UniqueCodes(offers) ==> NoDup(RecCodes(resultados))
    {
      var interest := interests[idx];
      resultados := [];
      var matchCompleto := FullTier(offers, interest, SameUnit);
      if |matchCompleto| > 0 {
        resultados := resultados + Tag(matchCompleto, MatchCompleto, "CURSO+UNIDADE+DIAS+TURNOS", None);
      }
      assert resultados == Tag(matchCompleto, MatchCompleto, "CURSO+UNIDADE+DIAS+TURNOS", None);
      var matchSemTurno := DaysTier(offers, interest, SameUnit);
      if |matchSemTurno| > 0 {
        resultados := resultados + Tag(matchSemTurno, MatchCompleto, "CURSO+UNIDADE+DIAS", None);
      }
      assert resultados == Tag(matchCompleto, MatchCompleto, "CURSO+UNIDADE+DIAS+TURNOS", None) + Tag(matchSemTurno, MatchCompleto, "CURSO+UNIDADE+DIAS", None);
      var matchBasico := BasicTier(offers, interest, SameUnit);
      if |matchBasico| > 0 {
        resultados := resultados + Tag(matchBasico, MatchCompleto, "CURSO+UNIDADE", None);
      }
      SameUnitTiers(offers, interest);
      assert resultados == TieredMatches(offers, interest, SameUnit);
      SameUnitMatchesSound(offers, interest);
    }

    /**
     * `_match_unidade_outra` without the distance column: nothing when the
     * interest's unit has no coordinates, otherwise the same tiers over the
     * other units.
     */
    method MatchOtherUnit(idx: nat) returns (resultados: seq<Rec>)
      requires idx < |interests|
      ensures resultados == OtherUnitMatches(offers, located, interests[idx])
      ensures interests[idx].unit !in located ==> resultados == []
      ensures forall r :: r in resultados ==>
        r.offer in offers && r.kind == OutraUnidade && r.offer.course == interests[idx].course &&
        r.offer.unit != interests[idx].unit && r.offer.created >= interests[idx].date
      ensures UniqueCodes(offers) ==> NoDup(RecCodes(resultados))
    {
      var interest := interests[idx];
      OtherUnitMatchesSound(offers, located, interest);
      if interest.unit !in located {
        return [];
      }
      resultados := [];
      var matchCompleto := FullTier(offers, interest, OtherUnit);
      if |matchCompleto| > 0 {
        resultados := resultados + Tag(matchCompleto, OutraUnidade, "CURSO+DIAS+TURNOS", None);
      }
      assert resultados == Tag(matchCompleto, OutraUnidade, "CURSO+DIAS+TURNOS", None);
      var matchDias := DaysTier(offers, interest, OtherUnit);
      if |matchDias| > 0 {
        resultados := resultados + Tag(matchDias, OutraUnidade, "CURSO+DIAS", None);
      }
      assert resultados == Tag(matchCompleto, OutraUnidade, "CURSO+DIAS+TURNOS", None) + Tag(matchDias, OutraUnidade, "CURSO+DIAS", None);
      var matchCurso := BasicTier(offers, interest, OtherUnit);
      if |matchCurso| > 0 {
        resultados := resultados + Tag(matchCurso, OutraUnidade, "CURSO", None);
      }
      OtherUnitTiers(offers, interest);
      assert resultados == TieredMatches(offers, interest, OtherUnit);
    }

    /** `_match_trilha_profissional`. */
    method MatchTrail(idx: nat) returns (resultados: seq<Rec>)
      requires idx < |interests|
      ensures resultados == TrailMatches(offers, trails, interests[idx])
      ensures (forall t :: t in trails ==> t.course != interests[idx].course) ==> resultados == []
      ensures forall r :: r in resultados ==>
        TrailArea(trails, interests[idx].course).Some? && r.offer in offers &&
        OnTrail(r.offer, trails, TrailArea(trails, interests[idx].course).value, interests[idx]) &&
        r.kind == TrilhaProfissional && r.area == TrailArea(trails, interests[idx].course)
    {
      var interest := interests[idx];
      var trilhaCurso := TrailArea(trails, interest.course);
      TrailEmptyCases(offers, trails, interest);
      TrailMatchesExact(offers, trails, interest);
      if trilhaCurso.None? {
        return [];
      }
      var areaProfissional := trilhaCurso.value;
      var cursosTrilha := TrailCourses(trails, areaProfissional, interest.course);
      if cursosTrilha == [] {
        return [];
      }
      var found := TrailOffers(offers, cursosTrilha, interest);
      resultados := Tag(found, TrilhaProfissional, "AREA_PROFISSIONAL+MESMA_UNIDADE", Some(areaProfissional));
    }

    /**
     * `gerar_recomendacoes`, given the rows the two embedding strategies
     * return: the interest is looked up, the five strategies run in turn,
     * the non-empty frames are concatenated, ranked and sorted, with the
     * failures of the code as written (see `GenerateAsWrittenOutcomes`).
     */
    method GenerateRecommendations(code: int, semantic: seq<Offer>, ead: seq<Offer>) returns (out: Outcome)
      ensures out == GenerateAsWritten(interests, offers, located, trails, code, semantic, ead)
    {
      var found := FindInterest(interests, code);
      if found.None? {
        return NoSuchInterest;
      }
      var idx := found.value;
      var interest := interests[idx];
      var resultados: seq<seq<Rec>> := [];
      var match1 := MatchSameUnit(idx);
      resultados := resultados + [match1];
      assert resultados == [match1];
      var match2 := MatchOtherUnit(idx);
      resultados := resultados + [match2];
      assert resultados == [match1, match2];
      var match3 := MatchTrail(idx);
      resultados := resultados + [match3];
      assert resultados == [match1, match2, match3];
      var match4 := Tag(semantic, SimilaridadeSemantica, "TITULO_SIMILAR+MESMA_UNIDADE", None);
      resultados := resultados + [match4];
      assert resultados == [match1, match2, match3, match4];
      var match5 := Tag(ead, ModalidadeEad, "CURSO_EAD_SIMILAR", None);
      resultados := resultados + [match5];

      assert resultados == [match1, match2, match3, match4, match5];
      var naoVazios := NonEmpty(resultados);
      FiveFrames(match1, match2, match3, match4, match5);
      if naoVazios == [] {
        GenerateAsWrittenFound(interests, offers, located, trails, code, semantic, ead, idx, []);
        return NothingToConcatenate;
      }
      var todos := Concat(naoVazios);
      if todos == [] {
        assert false;
      }
      assert todos == AllMatches(offers, located, trails, interest, semantic, ead);
      GenerateAsWrittenFound(interests, offers, located, trails, code, semantic, ead, idx, todos);
      var rows := Ranked(todos, interest.student);
      var hasScore := match4 != [] || match5 != [];
      if !hasScore {
        return MissingScoreColumn;
      }
      out := Recommendations(SortByPriority(rows));
    }
  }
}
