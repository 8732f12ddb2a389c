# Scoring engine of the Project 2025 congressional tracker, in Dafny

`resist.py` is a dashboard that compares members of Congress with the
Project 2025 policy agenda. This project models the computations behind
its numbers:

- **Voting-pattern analysis** (`analyze_voting_pattern`). Walks a bill list,
  counts the bills the member has a recorded vote on, and classifies each
  vote as aligned or opposed from the bill's polarity. It tallies these
  overall and per policy area, then turns the tallies into percentages.
  Module `Voting`.
- **Donor keyword classifier** (`map_donor_interests_to_project2025` and
  its inline copy in the correlator). Lower-cases the contributor name and
  employer and tests fixed keyword lists by substring. Matched areas are
  appended in a fixed order, with `general` as the fallback. Modules
  `Text` and `Classifier`.
- **Contribution correlator** (`match_contributions_to_votes`). Builds the
  per-contributor interest table. Each contributor's full amount goes to
  every matching area. Each area carries the member's alignment in that
  area. The overall correlation is the money-weighted average of those
  alignments. Module `Correlation`.
- **Pro-rata breakdown** (the policy-area loop inside `main`). Splits each
  contribution equally among its interests, and `general` goes to an
  `other` bucket. This is the second attribution rule; it sits side by
  side with the correlator's. Module `ProRata`.
- **Alignment report structure** (`calculate_project2025_alignment`). Covers
  the score bands, the party paragraph, the indicator phrases and
  proposals of each section, and the categories the conclusion names.
  Module `Narrative`.

The eight policy areas, their keys, keyword lists, indicator phrases and
proposals are in `Taxonomy`. `Outcomes` holds the `Option` and `Result`
types.

Each imperative loop of the source is a `method` proved equal to a
specification function:

| loop | method | specification function |
|---|---|---|
| vote counting | `Voting.AnalyzeVotingPattern` | `Voting.Analysis` |
| the eight classifier blocks | `Classifier.MapDonorInterests` | `Classifier.DonorInterests` |
| interest table fill | `Correlation.BuildDonorTable` | `Correlation.DonorTableOf` |
| pro-rata accumulation | `ProRata.ProRataBreakdown` | `ProRata.PolicyContributions` |
| section loop of the report | `Narrative.PolicySections` | `Narrative.Sections` |
| per-area loop of the correlator | `Correlation.BuildInterestAlignment` | `Correlation.CategoryEntry`, collected by `Correlation.InterestAlignment` |

The properties are proved about those functions. Percentages are exact
`real` numbers.

Outside data is passed in as parameters:

- A vote store, `map<member id, map<bill id, vote>>`. A missing member is
  the provider's "Member not found" error.
- A contribution store, `map<candidate id, seq<Contribution>>`. A missing
  candidate is the fetch failure.
- The member's party, as an `Option`. `None` means the member lookup
  failed.

## Model

| member | source | states |
|---|---|---|
| Taxonomy.CategoryOfKey | resist.py:47-112 | a string names a policy area exactly when it is that area's key; the keys round-trip |
| Taxonomy.ClassifierRank | resist.py:918-948 | each area has a position in the classifier's fixed order (energy, economy, defense, healthcare, education, immigration, judiciary, elections) |
| Taxonomy.OrdersListEveryCategoryOnce | resist.py:47-112 | both the policy-table order and the classifier order list each of the eight areas exactly once |
| Taxonomy.KeyRoundTrip | resist.py:47-112 | decoding an area's key gives the area back |
| Taxonomy.KeywordsNonEmpty | resist.py:918-950 | no keyword of the classifier is the empty string |
| Text.Lower | resist.py:918-919 | `str.lower` on ASCII letters: same length, each upper-case letter mapped to lower case, every other character kept |
| Text.LowerIsIdempotent | resist.py:918-919 | lower-casing twice is lower-casing once |
| Text.ContainsIffOccurs | resist.py:918-919 | the substring test `word in text` holds exactly when the word occurs at some position of the text |
| Classifier.AnyKeyword | resist.py:918-919 | the `any(...)` test holds exactly when some keyword of the list is a substring of the contributor or of the employer |
| Classifier.DonorInterests | resist.py:907-954 | the matched areas in classifier order, or `["general"]` when none matched; its partners are `Classifier.DonorInterestsMembership` and `Classifier.DonorInterestsOrdered` |
| Classifier.MapDonorInterests | resist.py:907-954 | the eight if-blocks, appending matched areas step by step and `general` when none matched, compute the classifier function |
| Classifier.MatchedMembership | resist.py:918-948 | an area is appended exactly when it is among the tested areas and one of its keywords matches; only areas are appended, at most one per tested area |
| Classifier.MatchedOrdered | resist.py:918-948 | matched areas appear in the order they are tested |
| Classifier.AnyKeywordIsMentions | resist.py:918-919 | the keyword test on lower-cased fields is the classifier's matching rule |
| Classifier.DonorInterestsMembership | resist.py:918-954 | an area is in the result iff one of its keywords occurs in the lower-cased contributor or employer; the result is exactly `["general"]` iff nothing matched; `general` never appears beside an area |
| Classifier.DonorInterestsOrdered | resist.py:918-954 | the result has between 1 and 8 entries, follows the classifier order strictly and has no duplicates |
| Classifier.ClassifierOrderRanked | resist.py:918-948 | the classifier order is strictly increasing in rank |
| Classifier.EmptyFieldsAreGeneral | resist.py:912-954 | an empty contributor and an empty employer are classified `["general"]` |
| Voting.IsAligned | resist.py:600-601 | a vote is aligned exactly when the bill is "aligned" and the vote is "yes", or the bill is "opposed" and the vote is "no"; `Voting.UnmatchedVoteCountsAsOpposed` shows every other recorded vote counting as opposed |
| Voting.OverallTally | resist.py:592-606 | the overall counters after the bills: each bill with a recorded vote adds one vote of its kind; its partners are `Voting.TalliesBalanced` and `Voting.OnlyRecordedBillsCount` |
| Voting.CategoryTally | resist.py:592-615 | an area's counters after the bills: each counted bill adds one vote of its kind per tag naming the area; its partners are `Voting.MultiTaggedBillCountsFully` and `Voting.CategoryWithinOverall` |
| Voting.PatternOf | resist.py:617-635 | the success result: the overall counters and percentage, and the counters and percentage of each of the eight areas; its partner is `Voting.PatternWellFormed` |
| Voting.Percent | resist.py:618-625 | a percentage is 0 when the denominator is 0; it lies in [0, 100] when the part does not exceed the whole; it is 100 iff all counted votes are aligned and 0 iff none is |
| Voting.Analysis | resist.py:572-578 | the analysis fails, with the provider's "Member not found" message, exactly when the member has no vote record |
| Voting.CountTags | resist.py:609-615 | a counted bill adds one vote of its kind to an area per tag naming that area; unknown tags change nothing |
| Voting.CategoryPercentages | resist.py:620-625 | every area gets a percentage, 0 when the area has no votes |
| Voting.AnalyzeVotingPattern | resist.py:569-635 | the loop over the bills, with its counters and per-area table updated in place, computes the analysis function, error case included |
| Voting.OnlyRecordedBillsCount | resist.py:593-596 | only bills with a recorded vote count: the tallies over all bills equal those over the recorded ones, and the total is their number |
| Voting.TalliesBalanced | resist.py:583-615 | aligned + opposed = total, overall and in every area, and the total never exceeds the number of bills |
| Voting.TagCountOfDistinct | resist.py:609-615 | an area's tag count is 0 iff the area is not tagged, and 1 when it is tagged on a bill without repeated tags |
| Voting.MultiTaggedBillCountsFully | resist.py:609-615 | on a bill without repeated tags, a counted bill adds exactly one vote, not a share, to each area it is tagged with, and nothing to the others |
| Voting.CategoryWithinOverall | resist.py:593-615 | without repeated tags, each area's aligned, opposed and total counts are at most the overall ones |
| Voting.PatternWellFormed | resist.py:618-635 | the counters add up, all eight areas have a percentage, every percentage is in [0, 100] and is 0 when there was nothing to count |
| Voting.SingleTagCount | resist.py:609-611 | a tag counts for its own area only |
| Voting.SingleAlignedVote | resist.py:593-625 | one "yes" on an "aligned" bill tagged with one area gives 1 vote, 100% overall and in that area, 0% elsewhere |
| Voting.UnmatchedVoteCountsAsOpposed | resist.py:600-615 | after any bills, a recorded vote that is not the matching "yes" or "no" (a "yes" on an "opposed" bill, "present", ...) adds one opposed vote overall and one opposed vote per matching tag to each area, and no aligned vote |
| Voting.PresentCountsAsOpposed | resist.py:600-606 | a "present" vote, on a bill of either polarity and after any bills, adds one opposed vote |
| Correlation.DonorTableOf | resist.py:663-712 | the interest table holds an entry exactly for the names that contributed |
| Correlation.BuildDonorTable | resist.py:663-712 | the loop filling `contributor_interests` computes the table function |
| Correlation.LaterContributionReplaces | resist.py:709-712 | a name's entry holds the interests and amount of its last contribution |
| Correlation.CategoryTotal | resist.py:721-724 | an area's money as intended: the sum of the entry amounts of the contributors interested in the area (see "## Findings") |
| Correlation.Contributors | resist.py:729-733 | an area's contributor list: name and amount of each contributor interested in it, in table order |
| Correlation.ContributorsMatchTotal | resist.py:721-733 | an area's contributor list names exactly the contributors interested in it, with their amounts, and its amounts sum to the area's total |
| Correlation.InterestAlignment | resist.py:715-734 | every one of the eight areas gets an entry |
| Correlation.BuildInterestAlignment | resist.py:715-733 | the loop over the policy keys stores an entry for exactly the listed areas, each the area's alignment (0 when missing), money and contributor list; at the call site it yields `Correlation.InterestAlignment` |
| Correlation.OverallCorrelation | resist.py:737-747 | aligned money over total money × 100, 0 when no money is attributed; its partners are `Correlation.CorrelationInRange` and `Correlation.CorrelationOfUniformAlignment` |
| Correlation.Matching | resist.py:637-754 | with the area sum as intended (see "## Findings"), the correlator fails exactly when the candidate has no contributions, with "Failed to fetch contribution data", or else when the member has no vote record, with "Failed to analyze voting pattern"; the voting failure never becomes a 0% success |
| Correlation.MatchContributionsToVotes | resist.py:637-754 | the correlator's steps compute the specification function, both errors included |
| Correlation.AlignedMoneyWithinMoney | resist.py:737-745 | with non-negative totals and in-range alignments, the aligned money lies between 0 and the total money |
| Correlation.AlignedPartWithin | resist.py:738 | an area's aligned part lies between 0 and its total |
| Correlation.CorrelationInRange | resist.py:737-747 | when no area's total is negative and every alignment is in [0, 100], the overall correlation lies in [0, 100]; it is 0 when no money is attributed |
| Correlation.UniformAlignedMoney | resist.py:737-740 | when all areas have the same alignment p, the aligned money is the money × p / 100 |
| Correlation.CorrelationOfUniformAlignment | resist.py:737-747 | a weighted average of equal alignments is that alignment |
| Correlation.DonorAmountsNonNegative | resist.py:663-712 | non-negative contributions give non-negative table amounts |
| Correlation.CategoryTotalNonNegative | resist.py:721-724 | an area's total is non-negative when all amounts are |
| Correlation.MatchingInRange | resist.py:637-754 | end to end: on non-negative amounts, a successful correlation lies in [0, 100] |
| Correlation.SingleEnergyDonor | resist.py:715-747 | $50,000 from one energy contributor with 80% energy alignment gives an overall correlation of 80 |
| Correlation.TwoWeightedAreas | resist.py:715-747 | $30,000 to an area at 100% and $10,000 to one at 0% gives 75: weighted by money, not averaged by area |
| Correlation.WeightedByMoney | resist.py:737-747 | the same weighting, stated on the per-area entries |
| Correlation.CategoryTotalAsWritten | resist.py:721-724 | the area sum as written: a TypeError at the first contributor interested in the area, 0 when there is none |
| Correlation.NoMatchNoMoney | resist.py:721-724 | an area no contributor is interested in gets 0 |
| Correlation.AsWrittenFailsOnAnyMatch | resist.py:721-724 | the sum as written raises exactly when some listed contributor is interested in the area, and otherwise gives 0 |
| Correlation.AsWrittenFailsOnEnergyDonor | resist.py:721-724 | with one energy contributor, the energy sum as written raises where the intended sum is the amount |
| Correlation.SumOverAreasStep | resist.py:716-724 | adding a contributor adds its amount once per matching area to the sum of area totals |
| Correlation.FullAmountToEveryArea | resist.py:716-724 | the sum of the area totals counts each contributor's full amount once per matching area, not split |
| Correlation.ZeroOverAreas | resist.py:716-724 | with no contributors, every area total is 0 |
| ProRata.BucketsListEveryBucketOnce | resist.py:1286-1287 | the buckets are the eight areas plus "other", each once |
| ProRata.Zero | resist.py:1286-1287 | all nine buckets start at 0 |
| ProRata.Distribute | resist.py:1295-1300 | the inner loop: a share added to the bucket of each interest, an interest outside the policy keys going to "other"; its partners are `ProRata.DistributeAt` and `ProRata.DistributeTotal` |
| ProRata.AddContribution | resist.py:1293-1302 | one contribution: the amount split equally among its interests, or all of it to "other" when it has none; its partner is `ProRata.AddContributionTotal` |
| ProRata.BreakdownOf | resist.py:1286-1302 | the nine totals after the attributed contributions, in order, from all zeros; its partner is `ProRata.MoneyConserved` |
| ProRata.PolicyContributions | resist.py:1286-1302 | the breakdown with the classifier call as intended (see "## Findings"); its partners are `ProRata.RowShares` and `ProRata.IntendedCreditsMentionedArea` |
| ProRata.ClassifiedInterests | resist.py:1289-1290 | with the classifier call as intended (see "## Findings"), each row keeps its amount and is attributed to a non-empty list of distinct interests naming exactly the areas its contributor or employer mentions, or to "general" alone when it mentions none |
| ProRata.AddShares | resist.py:1293-1302 | the inner loop adds an equal share of the amount to the bucket of each interest, or the whole amount to "other" when there is no interest |
| ProRata.ProRataBreakdown | resist.py:1286-1302 | with the classifier call as intended (see "## Findings"), the accumulation loop over the rows computes the breakdown function |
| ProRata.SumOverUpdate | resist.py:1295-1300 | adding x to one bucket adds x to the sum over distinct buckets |
| ProRata.TotalUpdate | resist.py:1295-1300 | adding x to one bucket adds x to the total |
| ProRata.DistributeTotal | resist.py:1295-1300 | giving a share to each of n interests adds n shares to the total |
| ProRata.AddContributionTotal | resist.py:1293-1302 | each contribution adds exactly its amount to the total |
| ProRata.ZeroTotal | resist.py:1286-1287 | the initial total is 0 |
| ProRata.ZeroSumOver | resist.py:1286-1287 | the initial sum over any bucket list is 0 |
| ProRata.MoneyConserved | resist.py:1286-1302 | the sum over all buckets equals the sum of the contribution amounts |
| ProRata.DistributeAt | resist.py:1295-1300 | each bucket receives one share per interest that falls in it |
| ProRata.HitsOfDistinct | resist.py:1295-1300 | without repeated interests, a bucket is hit once if an interest falls in it and never otherwise |
| ProRata.SplitAmongDistinct | resist.py:1293-1300 | among distinct interests, each listed area gets one share and "other" gets one share if `general` is listed |
| ProRata.RowShares | resist.py:1289-1302 | each area mentioned by a row's contributor or employer gets amount / (number of interests); "other" gets the whole amount exactly when nothing is mentioned |
| ProRata.MentionedAreaGrows | resist.py:1293-1300 | a mentioned area's bucket grows with a positive amount |
| ProRata.IntendedCreditsMentionedArea | resist.py:1289-1302 | a one-row breakdown credits a mentioned area with a positive amount |
| ProRata.AllGeneralGoesToOther | resist.py:1293-1300 | contributions classified only as `general` leave every area at 0 and put all their money in "other" |
| ProRata.AsWrittenItems | resist.py:1289-1290 | the attribution as written: each row classified from the keys "contributor_name" and "contributor_employer", which a row with columns "Contributor" and "Employer" does not have |
| ProRata.PolicyContributionsAsWritten | resist.py:1286-1302 | the breakdown loop as written, over that attribution |
| ProRata.AsWrittenItemsAreGeneral | resist.py:1290 | as written, every row is classified as `general` |
| ProRata.AsWrittenAllToOther | resist.py:1289-1302 | as written, every area shows 0 and "other" shows all the money |
| ProRata.AsWrittenLosesMentionedArea | resist.py:1289-1302 | a positive row mentioning an area is credited to that area by the intended rule, but not as written |
| Narrative.Alignment | resist.py:756-765 | the report fails, with "Failed to analyze voting pattern", exactly when the voting analysis fails |
| Narrative.CalculateAlignment | resist.py:756-897 | the report's steps compute the report function, error case included |
| Narrative.PolicySections | resist.py:827-866 | the section loop appends one section per category, in the order of the scores |
| Narrative.Sections | resist.py:827-866 | there is one section per category |
| Narrative.SectionsFollowOrder | resist.py:827-828 | the i-th section is about the i-th category and its score |
| Narrative.SectionContents | resist.py:836-866 | a section quotes indicators only for a score above 75 (the high ones, the first two lower-cased) or at most 25 (the low ones), never in between; it lists a prefix of the proposals, three long or the whole list |
| Narrative.SectionsQuoteByScore | resist.py:827-866 | in the report, the i-th section is about the i-th area, quotes indicators only when that area's score is above 75 or at most 25, and lists at most three of its proposals, the first ones |
| Narrative.LeadingPhrases | resist.py:839-842 | the first indicator lower-cased, then the second if there are at least two |
| Narrative.Take | resist.py:861 | `xs[:3]`: a prefix of the list, three long or the whole list |
| Narrative.BandOf | resist.py:836-850 | the section band of a score: above 75, above 50, above 25, the rest; the same thresholds choose the conclusion at resist.py:867-885 |
| Narrative.PartyOf | resist.py:787-790 | the member's party, "Unknown" when the lookup yields no record |
| Narrative.NoteOf | resist.py:803-822 | the party paragraph: REP above 75 / above 50 / otherwise, DEM below 25 / below 50 / otherwise, no paragraph for any other party |
| Narrative.SectionOf | resist.py:828-866 | one section: the score's band, the indicators it quotes and the first three proposals; its partner is `Narrative.SectionContents` |
| Narrative.BandIsMonotone | resist.py:836-850 | a higher score never falls in a lower band |
| Narrative.RepublicanNoteFollowsBand | resist.py:803-812 | a Republican's paragraph matches the band of the overall score: strong above 75, moderate above 50, limited otherwise |
| Narrative.DemocratNoteWithinBand | resist.py:813-822 | a Democrat's strong-opposition paragraph implies the lowest band; the surprising-alignment paragraph implies a band above it |
| Narrative.DemocratBoundariesDiffer | resist.py:813-822 | at exactly 25 and 50 the Democrat paragraph and the band disagree, because the paragraph uses strict "below" tests |
| Narrative.OtherPartiesGetNoNote | resist.py:787-822 | a party other than REP and DEM, or a member whose lookup yields no record ("Unknown"), gets no party paragraph |
| Narrative.ReportScoresInRange | resist.py:796 | the report's scores are the eight areas' percentages in table order, each in [0, 100] |
| Narrative.PatternCoversEveryCategory | resist.py:618-625 | the voting analysis gives every area a score |
| Narrative.FirstBest | resist.py:871-889 | the first index whose score no other index beats: what `max` returns, and what a stable sort puts first |
| Narrative.TopTwo | resist.py:871 | two distinct categories are named |
| Narrative.TopTwoAreHighest | resist.py:871 | the two categories named for strong alignment are the highest-scoring and the highest of the rest, earlier categories first on ties |
| Narrative.BottomTwoAreLowest | resist.py:889 | the two categories named for strong opposition are the lowest-scoring and the lowest of the rest, earlier categories first on ties |
| Narrative.Highlighted | resist.py:867-889 | the categories the conclusion names, by the band of the overall score: the top two, the top one, or the bottom two; its partners are `Narrative.TopTwoAreHighest`, `Narrative.BottomTwoAreLowest` and `Narrative.HighlightedMatchesBand` |
| Narrative.HighlightedMatchesBand | resist.py:867-889 | the conclusion names two categories for the outer bands and one for the middle bands; apart from strong opposition, the first one named has the highest score |

## Left out

- The Streamlit interface, charts and data frames. These are presentation.
- The `fetch_*` providers, their caching, and the API-key and Gemini setup. These are I/O. Votes and contributions are map parameters.
- The member lookup of `fetch_member_data`: the party is a parameter.
- Sample data constants.
- `categorize_bill_by_project2025`: a pass-through that the core does not call.
- The prose of the report and its `:.1f` formatting. Only the choices behind the text are modelled.
- IEEE floating point. Percentages and amounts are exact reals.
- `str.lower` beyond ASCII. `Text.Lower` maps only `A`-`Z`.
- Fields that are `None` or missing in a contribution record. Every record has a name, an employer and an amount.
- The classifier's eight `if` blocks: one loop over the eight areas in the same order, with the same keyword lists, stands in for them.
- The inline copy at resist.py:669-706 and `map_donor_interests_to_project2025` apply the same rule, so both are `Classifier.DonorInterests`.
- The conclusion's use of the second of the top or bottom two: the model assumes at least two scores, as there are always eight.
- Narrative.Sections: its own contract states only the section count. What each section holds is stated by `Narrative.SectionsFollowOrder` and `Narrative.SectionContents`.
- Narrative.TopTwo: its own contract states only that the two indices are distinct. Which categories are named is stated by `Narrative.TopTwoAreHighest` and `Narrative.BottomTwoAreLowest`.
- Correlation.InterestAlignment: its own contract states only that every area has an entry. The entries are stated by `Correlation.ContributorsMatchTotal` and the correlation lemmas.

## Findings

| source | as written | input that shows it | evidently intended | confidence | as-written member | corrected member |
|---|---|---|---|---|---|---|
| resist.py:721-724 | the area sum reads `contrib["amount"]`, where `contrib` is the contributor's name (a string), so Python raises a TypeError as soon as some contributor is interested in the area | one contribution of $50,000 from "Oil Industry PAC": the energy sum fails | the entry's amount, `data["amount"]`, as used at resist.py:730 | not executed | Correlation.AsWrittenFailsOnAnyMatch | Correlation.ContributorsMatchTotal |
| resist.py:1289-1290 | the pro-rata loop passes a data-frame row with the columns "Contributor" and "Employer" to the classifier, which reads "contributor_name" and "contributor_employer" with "" as the default (resist.py:912-913), so every row is `general` and all money lands in "other" | one row of $1,000 whose contributor mentions "oil": energy shows 0 and "other" shows $1,000 | classify by the row's own contributor and employer | not executed | ProRata.AsWrittenAllToOther | ProRata.RowShares |
