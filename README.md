# Course-interest matching and recommendation, modelled in Dafny

The system lets a visitor to a vocational course catalogue register an
*interest*: a course, plus one or more units, weekdays and shifts. A
prototype front end does three things with it:

- the interest form keeps the three selection lists and submits them as
  `", "`-joined texts;
- the profile page looks each interest up in a static availability table;
- when the slot is not open, the profile page offers up to two similar
  courses from a fixed list.

A Python back end does the heavier work:

- it reads the offer table;
- it turns each offer's weekday and shift texts into boolean flags;
- it runs five matching strategies for one interest: same course and unit,
  same course at other units, the same professional trail, similar titles,
  and distance learning;
- it concatenates the results and orders them by a priority of 1 to 5.

## Modules

- `Wrappers`: the `Option` type.
- `Seqs`: no-duplicates and order-preserving-subsequence predicates, with
  their lemmas.
- `Delimited`: `Join` and `Split`, with the round trip
  `Split(Join(xs, sep), sep) == xs` for a non-empty list `xs` and a non-empty
  separator, when no piece contains the separator's first character (`Split` never returns
  the empty list, so `[]` does not come back). It follows JavaScript's
  `String.prototype.split` and Python's `str.split`. The form uses it with
  `", "` and the offer table with `-`.
- `Interests`: the `CourseInterest` record and what the form submits.
- `InterestModal`:
  - the catalogues;
  - the toggle and select-all updates as functions;
  - the form state as a class, `InterestForm`, whose methods replace its sequence fields;
  - the submission gate.
- `UserProfile`:
  - the availability table, `COURSE_AVAILABILITY`;
  - `checkCourseAvailability` as a method with its triple loop and early return;
  - `getSimilarCourses` as a function over the authored list.
- `OfferFlags`: the day and shift columns that the offer loader adds.
  The loop over the day map is a method, `AddFlagColumns`.
- `OfferMatching`:
  - the offer and interest records;
  - the day and shift masks;
  - the three nested tiers of the two unit strategies;
  - the trail strategy.
- `Recommender`:
  - the priority map and the stable sort on priority;
  - the class `RecommendationSystem`, with the tables it holds and the
    methods that build each strategy's result step by step;
  - `GenerateRecommendations`, specified by `GenerateAsWritten`, and the
    corrected `GenerateIntended` (see Findings).

Choices made in the model:

- **Dates** are integers: day numbers.
- **Offer and interest tables** are sequences of records.
- **`COD_OFERTA`** is assumed unique wherever a property needs it. The
  predicate `UniqueCodes` states this.
- **Strategies 4 and 5** rely on sentence embeddings. They are parameters
  of `GenerateRecommendations`: the offers each strategy returned. The model
  applies their tagging, and whether they returned anything decides whether
  the similarity column exists. Their scores and the `> 0.7` filter on them
  are not modelled.
- **The set of units with coordinates**, `unidade_coord_dict`, is a set of
  unit codes.

### Tuesday morning at unit B

For an interest in "Unidade B - Zona Sul" on Tuesday, in the morning, no
authored offering is on Tuesday morning: CL-003 is on Tuesday, but in the
afternoon. The day-and-shift tier is therefore empty, but two offerings,
CL-009 and CL-001B, are on the morning shift (`UserProfile.tsx:99-126`), so
the shift-only tier is non-empty, and `getSimilarCourses` returns CL-009 and then CL-001B, not the
first two entries of the unfiltered list. `UserProfile.UnitBTuesdayMorning`
states this.

## Model

| member | source | states |
|---|---|---|
| InterestModal.CataloguesHaveNoComma | prototipo_figma/src/components/InterestModal.tsx:11-37 | No entry of the unit, day or shift catalogue contains a comma, so the `", "` join can be undone |
| InterestModal.CataloguesHaveNoDuplicates | prototipo_figma/src/components/InterestModal.tsx:11-37 | Each catalogue lists every entry once |
| InterestModal.Remove | prototipo_figma/src/components/InterestModal.tsx:49 | Filtering out x removes every occurrence of x. The rest keeps its order, as a subsequence with the same multiset minus x. Membership of other values is unchanged |
| InterestModal.Toggle | prototipo_figma/src/components/InterestModal.tsx:47-63 | A selected x is removed, in order and with its multiplicity. An unselected x is appended at the end. Every other value keeps its membership |
| InterestModal.ToggleKeepsWellFormed | prototipo_figma/src/components/InterestModal.tsx:47-63 | Toggling a catalogue entry keeps the list free of duplicates and drawn from the catalogue |
| InterestModal.ToggleTwice | prototipo_figma/src/components/InterestModal.tsx:47-51 | Toggling an absent value twice gives back the original list exactly |
| InterestModal.RemoveAppended | prototipo_figma/src/components/InterestModal.tsx:49 | Filtering out a value just appended to a list without it restores the list |
| InterestModal.SelectAll | prototipo_figma/src/components/InterestModal.tsx:65-75 | Select-all yields either nothing or the whole catalogue |
| InterestModal.SelectAllTwice | prototipo_figma/src/components/InterestModal.tsx:65-75 | From a partial selection, select-all gives a copy of the catalogue, and a second select-all clears it |
| InterestModal.FullLengthIffAllSelected | prototipo_figma/src/components/InterestModal.tsx:66 | For a well-formed list, the length test equals "every catalogue entry is selected", in both directions |
| InterestModal.SelectAllToggles | prototipo_figma/src/components/InterestModal.tsx:65-75 | On a duplicate-free selection within a duplicate-free catalogue, select-all clears the list exactly when every catalogue entry is selected, and otherwise selects the whole catalogue |
| InterestModal.SubsetCard | prototipo_figma/src/components/InterestModal.tsx:66 | A subset is no larger than its superset (used by the length test) |
| InterestModal.DistinctCard | prototipo_figma/src/components/InterestModal.tsx:66 | A list without repeats has as many distinct values as elements |
| InterestModal.InterestForm.constructor | prototipo_figma/src/components/InterestModal.tsx:40-42 | The form starts with three empty, well-formed lists |
| InterestModal.InterestForm.ToggleUnit | prototipo_figma/src/components/InterestModal.tsx:47-51 | The unit list becomes its toggle. The other lists are unchanged. Well-formedness is kept for a catalogue unit |
| InterestModal.InterestForm.ToggleDay | prototipo_figma/src/components/InterestModal.tsx:53-57 | The same for the day list |
| InterestModal.InterestForm.ToggleShift | prototipo_figma/src/components/InterestModal.tsx:59-63 | The same for the shift list |
| InterestModal.InterestForm.SelectAllUnits | prototipo_figma/src/components/InterestModal.tsx:65-67 | The unit list becomes empty or the full catalogue by the length test. The others are unchanged and well-formedness is kept |
| InterestModal.InterestForm.SelectAllDays | prototipo_figma/src/components/InterestModal.tsx:69-71 | The same for the day list |
| InterestModal.InterestForm.SelectAllShifts | prototipo_figma/src/components/InterestModal.tsx:73-75 | The same for the shift list |
| InterestModal.InterestForm.HandleSubmit | prototipo_figma/src/components/InterestModal.tsx:77-88 | `IsFormValid`, line 88, is the gate: a registration is produced exactly when all three lists are non-empty, the same test as `isFormValid`. Its fields are the course name and the `", "`-joins of the lists. For a well-formed form, splitting each field gives back the exact list |
| Delimited.Split | prototipo_figma/src/components/UserProfile.tsx:130-132 | Splitting always yields at least one piece |
| Delimited.SplitWithoutSeparator | prototipo_figma/src/components/UserProfile.tsx:130-132 | A text without the separator's first character splits into itself alone |
| Delimited.SplitAfterPiece | prototipo_figma/src/components/UserProfile.tsx:130-132 | A separator-free piece followed by the separator and a tail splits into that piece and the split of the tail |
| Delimited.SplitJoin | prototipo_figma/src/components/InterestModal.tsx:81-83 | `Join`, the `join(', ')` of the three lists, is characterised by this round trip: splitting the join of a non-empty list whose elements avoid the separator gives back the list |
| Delimited.SplitJoinEmpty | prototipo_figma/src/components/InterestModal.tsx:81-83 | Joining the empty list and splitting gives one empty piece, not the empty list |
| Seqs.SubseqMembers | sistema_recomendacao.py:364 | A general fact, used here for the masked selections: everything in a subsequence is in the sequence |
| Seqs.PrefixOfSubseq | prototipo_figma/src/components/UserProfile.tsx:126 | A general fact, used here for `slice(0, 2)`: a prefix of a subsequence is a subsequence |
| Seqs.SubseqRefl | prototipo_figma/src/components/UserProfile.tsx:122 | A general fact, used here for the unfiltered fallback: a sequence is a subsequence of itself |
| Seqs.SubseqNoDup | prototipo_figma/src/components/InterestModal.tsx:49 | A general fact, used here for `filter`: a subsequence of a list without repeats has none |
| Seqs.SubseqTrans | sistema_recomendacao.py:363-364 | A general fact, used here for a mask applied after a mask: subsequence is transitive |
| Seqs.NoDupConcat | sistema_recomendacao.py:372 | A general fact, used here for the concatenated tiers: two disjoint lists without repeats concatenate to one without repeats |
| UserProfile.NextShift | prototipo_figma/src/components/UserProfile.tsx:137-158 | A closed probe moves the "nothing open before" frontier to the next shift |
| UserProfile.NextDay | prototipo_figma/src/components/UserProfile.tsx:136-159 | Exhausting a day's shifts moves the frontier to the next day |
| UserProfile.NextUnit | prototipo_figma/src/components/UserProfile.tsx:135-160 | Exhausting a unit's days moves the frontier to the next unit |
| UserProfile.NoneOpenBeforeEnd | prototipo_figma/src/components/UserProfile.tsx:135-162 | A frontier past the last unit means no combination is open |
| UserProfile.FirstOpenIsAHit | prototipo_figma/src/components/UserProfile.tsx:148-156 | An open combination contradicts "none open" |
| UserProfile.LookupOpenSlot | prototipo_figma/src/components/UserProfile.tsx:138-148 | `Probe` and `IsOpen`, the chained lookups and the `available` test: The four keyed lookups, each giving up on a missing key, return a slot exactly when the table holds that combination marked available, and then return that slot |
| UserProfile.CheckCourseAvailability | prototipo_figma/src/components/UserProfile.tsx:129-163 | Unavailable exactly when no split unit × day × shift is open. An answer is a combination of split selections with nothing open before it in units-days-shifts order, so the first hit wins. Its table slot is available, and its dates are that slot's, copied. An unknown course is always unavailable |
| UserProfile.PackagingDesignSlotIsOpen | prototipo_figma/src/components/UserProfile.tsx:13-21 | The table's one entry is open and its keys contain no comma |
| UserProfile.CheckPackagingDesignMondayNight | prototipo_figma/src/components/UserProfile.tsx:13-17 | Packaging design at unit A on Monday night gives exactly that slot with 2026-02-15 and 2026-02-08 |
| UserProfile.FilterTier | prototipo_figma/src/components/UserProfile.tsx:100-118 | `InTier`, the four filter predicates: A tier filter keeps, in list order, exactly the offerings in the tier |
| UserProfile.Recommend | prototipo_figma/src/components/UserProfile.tsx:99-126 | The fallback returns at most two offerings, at least one when the list is non-empty, as a subsequence of the list |
| UserProfile.GetSimilarCourses | prototipo_figma/src/components/UserProfile.tsx:35-127 | Between one and two offerings, in authored order, all drawn from the five-entry list |
| UserProfile.FilterThenTake | prototipo_figma/src/components/UserProfile.tsx:100-126 | `FirstInTier`, an early-stopping scan: Filtering a tier and cutting to n equals taking the first n tier members in one scan |
| UserProfile.FilterTierEverything | prototipo_figma/src/components/UserProfile.tsx:121-123 | The last tier is the whole list |
| UserProfile.FilterTierEmpty | prototipo_figma/src/components/UserProfile.tsx:107-121 | A tier filter's length is 0 exactly when no offering lies in the tier |
| UserProfile.RecommendFollowsTiers | prototipo_figma/src/components/UserProfile.tsx:99-126 | The result is the first two offerings, in list order, of the strictest non-empty tier: day and shift, then shift, then day, then all. Later tiers never matter |
| UserProfile.FirstInTierMembers | prototipo_figma/src/components/UserProfile.tsx:100-118 | An early-stopping scan returns only list entries in the tier |
| UserProfile.RecommendInChosenTier | prototipo_figma/src/components/UserProfile.tsx:99-126 | `ChosenTier`, the tier the fallback settles on: Every recommended offering satisfies the chosen tier |
| UserProfile.UnitsDoNotMatter | prototipo_figma/src/components/UserProfile.tsx:36 | Two interests that differ only in their units get the same recommendations |
| UserProfile.SimilarCourseCodes | prototipo_figma/src/components/UserProfile.tsx:41-97 | The authored list carries CL-003, CL-005, CL-007, CL-009, CL-001B in that order |
| UserProfile.AfternoonTier | prototipo_figma/src/components/UserProfile.tsx:107-111 | Afternoon alone, with neither Tuesday nor Thursday, selects the shift tier |
| UserProfile.AfternoonFirstTwo | prototipo_figma/src/components/UserProfile.tsx:47-48 | The first two afternoon offerings are CL-003 and CL-007 |
| UserProfile.AfternoonWithoutMatchingDay | prototipo_figma/src/components/UserProfile.tsx:99-126 | Afternoon alone, without Tuesday or Thursday, recommends CL-003 then CL-007 |
| UserProfile.TuesdayMorningTier | prototipo_figma/src/components/UserProfile.tsx:107-111 | Tuesday morning selects the shift tier |
| UserProfile.TuesdayMorningSplits | prototipo_figma/src/components/UserProfile.tsx:37-38 | A single day or shift text splits into itself |
| UserProfile.MorningFirstTwo | prototipo_figma/src/components/UserProfile.tsx:75-96 | The first two morning offerings are CL-009 and CL-001B |
| UserProfile.UnitBTuesdayMorning | prototipo_figma/src/components/UserProfile.tsx:99-126 | Unit B, Tuesday, morning recommends CL-009 then CL-001B |
| UserProfile.NoMatchTier | prototipo_figma/src/components/UserProfile.tsx:120-123 | With no listed day or shift matching, the last tier applies |
| UserProfile.EverythingFirstTwo | prototipo_figma/src/components/UserProfile.tsx:122-126 | The unfiltered list is cut to CL-003 and CL-005 |
| UserProfile.NoMatchFallsBackToWholeList | prototipo_figma/src/components/UserProfile.tsx:99-126 | With neither a listed day nor a listed shift, CL-003 and CL-005 are recommended |
| OfferFlags.RemoveSpaces | sistema_recomendacao.py:197 | The result has no space and is no longer than the input |
| OfferFlags.RemoveSpacesKeepsOthers | sistema_recomendacao.py:197 | Removing spaces keeps exactly the other characters |
| OfferFlags.RemoveSpacesWithoutSpaces | sistema_recomendacao.py:197 | A text without spaces is unchanged |
| OfferFlags.DayFlagsIgnoreSpaces | sistema_recomendacao.py:197-209 | Spaces in the weekday text never change a day flag |
| OfferFlags.MissingWeekdaysGiveNoDay | sistema_recomendacao.py:209 | A missing weekday value, which is not a list, sets no day flag |
| OfferFlags.Picked | sistema_recomendacao.py:199-206 | The abbreviations of the set flags form a subsequence of the day map's keys |
| OfferFlags.PickedMembers | sistema_recomendacao.py:208-209 | An abbreviation is picked exactly when its flag is set |
| OfferFlags.AbbrevFacts | sistema_recomendacao.py:199-206 | The six abbreviations are distinct, non-empty and free of `-` and spaces |
| OfferFlags.JoinHasNoSpace | sistema_recomendacao.py:197 | Joining space-free pieces with a space-free separator gives a space-free text |
| OfferFlags.Tokens | sistema_recomendacao.py:197 | A missing weekday value gives no list. A present one gives at least one token, and a text without `-` gives one token, itself without spaces |
| OfferFlags.TokensOfRendered | sistema_recomendacao.py:197 | Tokenising a `-`-joined day list gives back the list, or one empty token for none |
| OfferFlags.ParseRenderedDays | sistema_recomendacao.py:197-209 | `DayFlagsOf`, the `apply` over `dias_map`, against `RenderDays`, the offer file's `-` rendering of a set of days. Round trip: the day flags parsed from the `-`-joined abbreviations of any flag set are that flag set. Each `DIA_X` is set exactly when X is a token |
| OfferFlags.ContainsAt | sistema_recomendacao.py:212-214 | `Contains`, `str.contains`: `contains` holds exactly when the pattern occurs at some position |
| OfferFlags.Contains | sistema_recomendacao.py:212-214 | A pattern longer than the text is never contained. The empty pattern always is |
| OfferFlags.AbsentChar | sistema_recomendacao.py:212-214 | A pattern holding a character the text lacks is not contained |
| OfferFlags.ShiftFlagsExact | sistema_recomendacao.py:212-214 | `ShiftFlagsOf`: a shift flag is set exactly when that shift's name, or `INTEGRAL`, occurs at some position of `TURNO` |
| OfferFlags.IntegralSetsEveryShift | sistema_recomendacao.py:212-214 | A shift text containing INTEGRAL sets morning, afternoon and night |
| OfferFlags.MorningText | sistema_recomendacao.py:212 | DIURNO sets the morning flag alone |
| OfferFlags.AfternoonText | sistema_recomendacao.py:213 | VESPERTINO sets the afternoon flag alone |
| OfferFlags.AfternoonLacksOthers | sistema_recomendacao.py:212-214 | VESPERTINO contains none of INTEGRAL, DIURNO and NOTURNO |
| OfferFlags.NightText | sistema_recomendacao.py:214 | NOTURNO sets the night flag alone |
| OfferFlags.AddFlagColumns | sistema_recomendacao.py:196-214 | The loop over the day map and the three shift columns yield, row by row, the raw row with its six day flags and three shift flags |
| OfferFlags.OfferOf | sistema_recomendacao.py:196-214 | Adding the flag columns keeps code, course, unit and dates as loaded. A missing weekday value sets no day |
| OfferMatching.DaysDisagreeOnlyOnComplement | sistema_recomendacao.py:337-344 | `DaysAgree`, `mask_dias`: the day mask fails exactly when the offer's six day flags are the complement of the interest's, so two unset flags count as agreement |
| OfferMatching.ShiftsDisagreeOnlyOnComplement | sistema_recomendacao.py:346-350 | `ShiftsAgree`, `mask_turnos`: the same for the three shift flags |
| OfferMatching.NoDayChosenMatchesAnyFreeDay | sistema_recomendacao.py:337-344 | An interest with no day passes every offer that leaves some day free |
| OfferMatching.LevelsNest | sistema_recomendacao.py:356-373 | `MeetsLevel`: the levels nest, so an offer meeting a stricter level meets the looser ones, and level 2 alone means days agree but shifts do not |
| OfferMatching.Candidates | sistema_recomendacao.py:356 | A masked selection keeps, in table order, exactly the offers in scope that meet the level |
| OfferMatching.CandidatesCount | sistema_recomendacao.py:356 | Even with repeated rows, the mask keeps every copy of a qualifying row and no copy of any other |
| OfferMatching.Codes | sistema_recomendacao.py:364 | The code column has one entry per row, in row order |
| OfferMatching.CodesCover | sistema_recomendacao.py:364 | Every row's code is in the code column |
| OfferMatching.CodesOfSubseq | sistema_recomendacao.py:364 | The codes of a subsequence form a subsequence of the codes |
| OfferMatching.SameCodeSameOffer | sistema_recomendacao.py:364 | With unique codes, two rows with one code are one row |
| OfferMatching.Exclude | sistema_recomendacao.py:364 | Excluding codes keeps, in order, exactly the rows whose code is not listed |
| OfferMatching.ExcludeCount | sistema_recomendacao.py:364 | Even with repeated rows, `~isin` keeps every copy of a row whose code is not listed and no copy of the others |
| OfferMatching.TiersDisjoint | sistema_recomendacao.py:356-373 | The three tiers never share an offer code |
| OfferMatching.TiersKeepTableOrder | sistema_recomendacao.py:356-373 | Each tier keeps the table's order |
| OfferMatching.TierMembership | sistema_recomendacao.py:356-373 | `FullTier`, `DaysTier` and `BasicTier` with `MeetsLevel`: with unique codes, an offer in scope lies in exactly one tier. It is in level 1 iff days and shifts agree, level 2 iff days but not shifts agree, and level 3 iff days disagree. Together the tiers are the course+unit+date set |
| OfferMatching.SameUnitTiers | sistema_recomendacao.py:356-377 | Strategy 1's tiers carry `1.MATCH_COMPLETO` and the three `NIVEL_MATCH` labels in order |
| OfferMatching.OtherUnitTiers | sistema_recomendacao.py:418-440 | Strategy 2's tiers carry `2.OUTRA_UNIDADE` and their three labels in order |
| OfferMatching.TieredMatchRow | sistema_recomendacao.py:356-379 | Every tiered row carries the scope's indication and no area. Its offer is a table row in scope. Its level names the tier holding the offer |
| OfferMatching.TieredMatchesSound | sistema_recomendacao.py:332-379 | `InScope`, the course, unit and date masks, and `TieredMatches`, the concatenated tiers: Every returned offer is in the table, of the interest's course, in the scope's units and created on or after the interest date |
| OfferMatching.TieredMatchesComplete | sistema_recomendacao.py:356-379 | `TieredMatches`: with unique codes, every offer in scope is returned |
| OfferMatching.LevelsClassify | sistema_recomendacao.py:356-377 | With unique codes, a row's `NIVEL_MATCH` tells exactly which masks its offer passes |
| OfferMatching.RecCodesOfTag | sistema_recomendacao.py:358-359 | `Tag`, the columns a strategy sets on its rows: Tagging keeps the code column |
| OfferMatching.RecCodesConcat | sistema_recomendacao.py:379 | The codes of a concatenation are the concatenated codes |
| OfferMatching.TieredMatchesDistinct | sistema_recomendacao.py:356-379 | With unique codes, no offer code appears twice in the result |
| OfferMatching.SameUnitMatchesSound | sistema_recomendacao.py:327-379 | `SameUnitMatches`, `_match_unidade_mesma`: strategy 1 returns only rows of the interest's course at its unit, created on or after the interest date, tagged `1.MATCH_COMPLETO`, each at most once |
| OfferMatching.OtherUnitMatchesSound | sistema_recomendacao.py:381-440 | `OtherUnitMatches`, `_match_unidade_outra`: strategy 2 is empty when the unit has no coordinates. Otherwise it returns only rows of the course at other units, recent enough, tagged `2.OUTRA_UNIDADE`, each at most once |
| OfferMatching.TrailArea | sistema_recomendacao.py:470-475 | There is no area exactly when no trail row lists the course |
| OfferMatching.TrailAreaIsFirst | sistema_recomendacao.py:475 | The area is that of the first trail row listing the course |
| OfferMatching.TrailCourses | sistema_recomendacao.py:478-481 | The trail courses are exactly the other courses that have a row in the area |
| OfferMatching.TrailOffers | sistema_recomendacao.py:487-491 | In table order, exactly the offers of those courses at the interest's unit created on or after the interest date |
| OfferMatching.TrailOffersCount | sistema_recomendacao.py:487-491 | Even with repeated rows, the trail mask keeps every copy of a qualifying row and no copy of any other |
| OfferMatching.TrailEmptyCases | sistema_recomendacao.py:472-484 | Nothing is returned when the course has no trail row or its area has no other course |
| OfferMatching.TrailMatchesExact | sistema_recomendacao.py:464-498 | `TrailMatches`, `_match_trilha_profissional`: every row is an offer of another course of the first-found area, at the interest's unit and recent enough, tagged `3.TRILHA_PROFISSIONAL` with that area. Every such offer is returned |
| Recommender.PriorityIsLabelDigit | sistema_recomendacao.py:635-643 | `Priority`, `map(ordem_prioridade)`: the priority is the digit that opens the indication label, between 1 and 5 |
| Recommender.PriorityFollowsStrategyOrder | sistema_recomendacao.py:635-643 | Strategies that run earlier get strictly smaller priorities |
| Recommender.Insert | sistema_recomendacao.py:646-656 | Inserting into a sorted list gives a sorted list one longer, with the row added to the multiset |
| Recommender.SortByPriority | sistema_recomendacao.py:646-656 | The result is sorted by priority and a permutation of the input |
| Recommender.SortKeepsSortedRows | sistema_recomendacao.py:646-656 | The stable sort leaves rows already in priority order where they are |
| Recommender.SortedConcat | sistema_recomendacao.py:621 | Two sorted lists whose priorities do not cross concatenate to a sorted list |
| Recommender.SortKeepsRows | sistema_recomendacao.py:646-656 | Sorting keeps exactly the rows it was given |
| Recommender.FindInterest | sistema_recomendacao.py:569-577 | No index exactly when no interest has the code. Otherwise the index is that of the first such interest |
| Recommender.RankedRows | sistema_recomendacao.py:628-643 | `Ranked`, the added interest columns and `PRIORIDADE`: every ranked row has a priority between 1 and 5, equal to its indication's, and the interest's student |
| Recommender.NonEmpty | sistema_recomendacao.py:621 | Nothing survives the emptiness filter exactly when every frame is empty |
| Recommender.ConcatNonEmpty | sistema_recomendacao.py:621 | `Concat`, `pd.concat`: dropping the empty frames does not change the concatenation |
| Recommender.FiveFrames | sistema_recomendacao.py:586-621 | `AllMatches`, the five strategies' rows in run order: The five collected frames concatenate to all rows. None survives the filter exactly when there are no rows |
| Recommender.RankedConcat | sistema_recomendacao.py:628-643 | Ranking distributes over concatenation |
| Recommender.RankedOfKindSorted | sistema_recomendacao.py:643 | One strategy's ranked rows share one priority, so they are sorted |
| Recommender.StrategiesTagTheirRows | sistema_recomendacao.py:358-551 | Each strategy tags all its rows with its own indication |
| Recommender.StrategyOrderIsPriorityOrder | sistema_recomendacao.py:586-656 | The strategies' concatenation is already in priority order, so the priority key alone moves no row |
| Recommender.RecommendationSystem.constructor | sistema_recomendacao.py:24-49 | The tables are stored, and each offer row gets its flag columns |
| Recommender.RecommendationSystem.MatchSameUnit | sistema_recomendacao.py:327-379 | The step-by-step appends equal strategy 1. Every row is of the course at the unit and recent enough. With unique codes, no code repeats |
| Recommender.RecommendationSystem.MatchOtherUnit | sistema_recomendacao.py:381-440 | The result is empty when the unit has no coordinates. Otherwise the appends equal strategy 2, every row is at another unit, and with unique codes no code repeats |
| Recommender.RecommendationSystem.MatchTrail | sistema_recomendacao.py:464-498 | The result equals strategy 3. It is empty without a trail row. Every row lies on the course's trail |
| Recommender.GenerateIntendedOutcomes | sistema_recomendacao.py:558-656 | `GenerateIntended`: with the sort on the keys that exist: an unknown code gives no result, and when every strategy is empty `pd.concat` has nothing to combine. Otherwise the rows are a permutation of the ranked strategy rows, before the score filter, in nondecreasing priority, each with priority 1–5 equal to its indication's and the interest's student. It never fails for a missing column |
| Recommender.GenerateAsWrittenOutcomes | sistema_recomendacao.py:646-656 | `GenerateAsWritten`, the code as written, with its sort keys: it raises for the missing `SCORE_SIMILARIDADE` column (only lines 523 and 552 create it) exactly when the interest is found, some strategy returned rows, and strategies 4 and 5 returned none. In every other case it agrees with the intended version |
| Recommender.MissingScoreColumnExample | sistema_recomendacao.py:646-656 | One interest and one offer of its course at its unit, created on its date, with no embedding matches: strategy 1 finds the offer, the code as written raises, the intended version returns recommendations |
| Recommender.RecommendationSystem.GenerateRecommendations | sistema_recomendacao.py:558-656 | The interest lookup, the five strategies run in turn, the filter on empty frames, the concatenation, ranking and sort compute exactly `GenerateAsWritten`, whose outcomes `GenerateAsWrittenOutcomes` states |

## Left out

- Rendering: the JSX markup, dropdowns, modal visibility and view switching
  in the React components are presentation only.
- `App.tsx` interest creation: its random `id` and `new Date()` timestamp
  are not modelled. The timestamp is an opaque integer in `CourseInterest`.
- pt-BR date formatting on the profile page goes through `Date` and
  `toLocaleDateString`, a foreign call.
- `COURSE_AVAILABILITY` keyed lookups: a selection text equal to an
  inherited JavaScript object property (such as `constructor`) would find
  something in the real object. The model's maps hold only the table's
  keys. No catalogue entry has such a name.
- Data loading in `sistema_recomendacao.py` is file I/O and pandas plumbing:
  - the Excel, Parquet and CSV reads;
  - date parsing;
  - the 2025 creation-year filter;
  - the merges with the course and unit tables;
  - the trail status filter.
  Offers and interests are taken as already-loaded rows. The interest
  flags are inputs.
- A missing `TURNO` is not modelled. In pandas `str.contains` would give a
  missing value rather than a boolean; the model takes `TURNO` as a text.
- Strategies 4 and 5 (`_buscar_cursos_similares`,
  `_match_similaridade_semantica`, `_match_ead`) depend on sentence
  embeddings and cosine similarity, which are floating point. Their
  returned offers are parameters, and only their tags are applied.
- The similarity score column and the `> 0.7` filter are floating point.
- `_calcular_distancia` and the `DISTANCIA_KM` merge are floating-point
  trigonometry.
- Recommender.SortByPriority: it sorts on `PRIORIDADE` alone. The
  secondary keys (distance ascending, similarity descending) are not
  modelled. `GenerateRecommendations` therefore promises only sorted by
  priority and a permutation, not the order within one priority.
- Recommender.RecommendationSystem.GenerateRecommendations: the columns it
  copies from the interest are reduced to the student code. Course name,
  unit name, area and modality are display text. The `> 0.7` filter on
  `SCORE_SIMILARIDADE` is not applied, so the result keeps strategy 4 and 5
  rows that the source drops; it is a permutation of the ranked strategy
  rows before that filter, not after it.
- The `todos_resultados.empty` branch that returns `None` cannot be reached:
  once some frame is non-empty, the concatenation is non-empty. When every
  frame is empty, `pd.concat` of an empty list raises first. That case is
  the outcome `NothingToConcatenate`, not `None`.
- The results' index labels are not modelled: rows are positions. The
  source reads `iloc[idx]` with an index label, which agrees with the
  position when the interest table has its default index.
- `main_cli.py` and `app_streamlit.py` are argument parsing, prompts,
  printing, CSV writing and the Streamlit interface: input and output only.

## Findings

| source | as written | input that shows it | evidently intended | confidence | as-written member | corrected member |
|---|---|---|---|---|---|---|
| sistema_recomendacao.py:646-656 | Both sorts name `SCORE_SIMILARIDADE` as a key, but only strategies 4 and 5 add that column (lines 518-525 and 549-554), and only when they return rows. When strategies 1–3 return rows and 4 and 5 return none, `sort_values` raises `KeyError` | One interest with code 99 and one offer of its course at its unit, created on the interest date, with the same day and shift; no similar titles or distance-learning courses | Sort on the keys that exist, so the rows of strategies 1–3 come back ordered by priority | not executed | Recommender.MissingScoreColumnExample | Recommender.GenerateIntendedOutcomes |
