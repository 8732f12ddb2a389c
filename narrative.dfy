/** The structure of the alignment report (`calculate_project2025_alignment`,
    resist.py:756-897): which band each score falls in, which party note is
    chosen, which indicator phrases and proposals each policy section
    lists, and which categories the conclusion names. The prose around
    these choices is not modelled. */
module Narrative {
  import opened Outcomes
  import opened Taxonomy
  import opened Text
  import Voting

  /** The four assessments: above 75, above 50, above 25, the rest. */
  datatype Band = Strong | Moderate | Limited | StrongOpposition

  function BandOf(score: real): Band {
    if score > 75.0 then Strong
    else if score > 50.0 then Moderate
    else if score > 25.0 then Limited
    else StrongOpposition
  }

  /** Bands ordered from opposition (0) to strong alignment (3). */
  function Level(b: Band): (n: nat)
    ensures n <= 3
  {
    match b
    case StrongOpposition => 0
    case Limited => 1
    case Moderate => 2
    case Strong => 3
  }

  /** The paragraph chosen by party at resist.py:803-822. */
  datatype PartyNote =
    | RepublicanStrong | RepublicanModerate | RepublicanLimited
    | DemocratStrongOpposition | DemocratModerateOpposition | DemocratSurprising
    | NoNote

  /** The member's party; "Unknown" when the member lookup fails or finds
      nobody (resist.py:787-790). */
  function PartyOf(member: Option<string>): string {
    match member
    case None => "Unknown"
    case Some(party) => party
  }

  function NoteOf(party: string, score: real): PartyNote {
    if party == "REP" then
      if score > 75.0 then RepublicanStrong
      else if score > 50.0 then RepublicanModerate
      else RepublicanLimited
    else if party == "DEM" then
      if score < 25.0 then DemocratStrongOpposition
      else if score < 50.0 then DemocratModerateOpposition
      else DemocratSurprising
    else NoNote
  }

  /** The first one or two phrases of a list, lower-cased. */
  function LeadingPhrases(phrases: seq<string>): (r: seq<string>)
    ensures |r| == if |phrases| < 2 then |phrases| else 2
    ensures forall i :: 0 <= i < |r| ==> r[i] == Lower(phrases[i])
  {
    if phrases == [] then []
    else if |phrases| == 1 then [Lower(phrases[0])]
    else [Lower(phrases[0]), Lower(phrases[1])]
  }

  /** Python's `xs[:n]`. */
  function Take(xs: seq<string>, n: nat): (r: seq<string>)
    ensures |r| <= n && |r| <= |xs|
    ensures |r| == n || |r| == |xs|
    ensures forall i :: 0 <= i < |r| ==> r[i] == xs[i]
  {
    if |xs| <= n then xs else xs[..n]
  }

  /** One policy-area section: its score's band, the indicator phrases it
      quotes and the proposals it lists. */
  datatype Section = Section(category: Category, score: real, band: Band,
                             indicators: seq<string>, proposals: seq<string>)

  /** The entries of a category's details that the report quotes. */
  datatype Details = Details(high: seq<string>, low: seq<string>, proposals: seq<string>)

  function DetailsOf(c: Category): Details {
    Details(HighIndicators(c), LowIndicators(c), KeyProposals(c))
  }

  function SectionOf(c: Category, score: real, d: Details): Section {
    var band := BandOf(score);
    var indicators :=
      match band
      case Strong => LeadingPhrases(d.high)
      case StrongOpposition => LeadingPhrases(d.low)
      case _ => [];
    Section(c, score, band, indicators, Take(d.proposals, 3))
  }

  /** One section per category, in the given order (the policy table's
      in the report). */
  function Sections(cats: seq<Category>, scores: seq<real>, details: Category -> Details)
    : (r: seq<Section>)
    requires |cats| == |scores|
    ensures |r| == |cats|
    decreases |cats|
  {
    if cats == [] then []
    else
      Sections(cats[..|cats| - 1], scores[..|scores| - 1], details)
        + [SectionOf(cats[|cats| - 1], scores[|scores| - 1], details(cats[|cats| - 1]))]
  }

  /** `x` is preferred to `y`: higher when looking for the top, lower when
      looking for the bottom. */
  predicate Beats(x: real, y: real, highest: bool) {
    if highest then x > y else x < y
  }

  /** The first index below `n`, other than `skip`, whose score no other
      such index beats: the element a stable sort puts first (or, with
      `skip` set to that element, second), and the element `max` returns. */
  function FirstBest(s: seq<real>, highest: bool, skip: int, n: nat): (r: Option<nat>)
    requires n <= |s|
    ensures r.None? <==> n == 0 || (n == 1 && skip == 0)
    ensures r.Some? ==> r.value < n && r.value != skip
    ensures r.Some? ==> forall k :: 0 <= k < n && k != skip ==> !Beats(s[k], s[r.value], highest)
    ensures r.Some? ==> forall k :: 0 <= k < r.value && k != skip ==> Beats(s[r.value], s[k], highest)
    decreases n
  {
    if n == 0 then None
    else
      var r := FirstBest(s, highest, skip, n - 1);
      if n - 1 == skip then r
      else match r
        case None => Some(n - 1)
        case Some(i) => if Beats(s[n - 1], s[i], highest) then Some(n - 1) else Some(i)
  }

  /** The first best and the next best after it. */
  function TopTwo(s: seq<real>, highest: bool): (r: (nat, nat))
    requires |s| >= 2
    ensures r.0 < |s| && r.1 < |s| && r.0 != r.1
  {
    var first := FirstBest(s, highest, -1, |s|).value;
    (first, FirstBest(s, highest, first, |s|).value)
  }

  /** The categories the conclusion names, chosen by the overall band:
      the two highest for strong alignment, the highest for moderate or
      limited alignment, the two lowest for strong opposition. */
  function Highlighted(overall: real, scores: seq<real>): (r: seq<Category>)
    requires |scores| == |PolicyOrder|
  {
    match BandOf(overall)
    case Strong => var t := TopTwo(scores, true); [PolicyOrder[t.0], PolicyOrder[t.1]]
    case StrongOpposition => var t := TopTwo(scores, false); [PolicyOrder[t.0], PolicyOrder[t.1]]
    case _ => [PolicyOrder[FirstBest(scores, true, -1, |scores|).value]]
  }

  /** The report: the overall score and band, the per-category scores, the
      party note, the sections and the conclusion's categories. */
  datatype Report = Report(overallScore: real, overallBand: Band, scores: seq<real>,
                           note: PartyNote, sections: seq<Section>, highlighted: seq<Category>)

  const AnalysisUnavailable: string := "Failed to analyze voting pattern"

  /** The category scores in the order of the policy table. */
  function ScoreList(alignment: map<Category, real>): (s: seq<real>)
    requires forall c: Category :: c in alignment
    ensures |s| == |PolicyOrder|
    ensures forall i :: 0 <= i < |s| ==> s[i] == alignment[PolicyOrder[i]]
  {
    seq(|PolicyOrder|, i requires 0 <= i < |PolicyOrder| => alignment[PolicyOrder[i]])
  }

  function ReportOf(p: Voting.VotingPattern, member: Option<string>): Report
    requires forall c: Category :: c in p.categoryAlignment
  {
    var scores := ScoreList(p.categoryAlignment);
    Report(p.overallAlignment, BandOf(p.overallAlignment), scores,
           NoteOf(PartyOf(member), p.overallAlignment),
           Sections(PolicyOrder, scores, DetailsOf), Highlighted(p.overallAlignment, scores))
  }

  lemma PatternCoversEveryCategory(votes: Voting.VoteRecord, bills: seq<Voting.Bill>)
    ensures forall c: Category :: c in Voting.PatternOf(votes, bills).categoryAlignment
  {
    OrdersListEveryCategoryOnce();
  }

  /** The report for a member: an error with the source's own message
      when the voting analysis fails, the report otherwise. */
  function Alignment(memberId: string, store: Voting.VoteStore, bills: seq<Voting.Bill>,
                     member: Option<string>): (r: Result<Report>)
    ensures r.Err? <==> memberId !in store
    ensures r.Err? ==> r.message == AnalysisUnavailable
  {
    match Voting.Analysis(memberId, store, bills)
    case Err(_) => Err(AnalysisUnavailable)
    case Ok(p) =>
      PatternCoversEveryCategory(store[memberId], bills);
      Ok(ReportOf(p, member))
  }

  /** The source's loop over the category scores, appending one section
      per category. */
  method PolicySections(cats: seq<Category>, scores: seq<real>, details: Category -> Details)
    returns (sections: seq<Section>)
    requires |cats| == |scores|
    ensures sections == Sections(cats, scores, details)
  {
    sections := [];
    for i := 0 to |cats|
      invariant sections == Sections(cats[..i], scores[..i], details)
    {
      SectionsStep(cats, scores, details, i);
      sections := sections + [SectionOf(cats[i], scores[i], details(cats[i]))];
    }
    assert cats[..|cats|] == cats && scores[..|scores|] == scores;
  }

  lemma SectionsStep(cats: seq<Category>, scores: seq<real>, details: Category -> Details, i: nat)
    requires i < |cats| == |scores|
    ensures Sections(cats[..i + 1], scores[..i + 1], details) == Sections(cats[..i], scores[..i], details) + [SectionOf(cats[i], scores[i], details(cats[i]))]
  {
    assert cats[..i + 1][..i] == cats[..i];
    assert scores[..i + 1][..i] == scores[..i];
  }

  method CalculateAlignment(memberId: string, store: Voting.VoteStore, bills: seq<Voting.Bill>,
                            member: Option<string>) returns (r: Result<Report>)
    ensures r == Alignment(memberId, store, bills, member)
  {
    var pattern := Voting.AnalyzeVotingPattern(memberId, store, bills);
    if pattern.Err? {
      return Err(AnalysisUnavailable);
    }
    var p := pattern.value;
    PatternCoversEveryCategory(store[memberId], bills);
    var scores := ScoreList(p.categoryAlignment);
    var sections := PolicySections(PolicyOrder, scores, DetailsOf);
    r := Ok(Report(p.overallAlignment, BandOf(p.overallAlignment), scores,
                   NoteOf(PartyOf(member), p.overallAlignment), sections,
                   Highlighted(p.overallAlignment, scores)));
  }

  // Properties

  /** A higher score never falls in a lower band. */
  lemma BandIsMonotone(x: real, y: real)
    requires x <= y
    ensures Level(BandOf(x)) <= Level(BandOf(y))
  {
  }

  /** A Republican's note follows the band of the overall score, with
      limited alignment and strong opposition sharing one paragraph. */
  lemma RepublicanNoteFollowsBand(score: real)
    ensures NoteOf("REP", score) == RepublicanStrong <==> BandOf(score) == Strong
    ensures NoteOf("REP", score) == RepublicanModerate <==> BandOf(score) == Moderate
    ensures NoteOf("REP", score) == RepublicanLimited <==> Level(BandOf(score)) <= 1
  {
  }

  /** A Democrat's note uses strict "below" thresholds: strong opposition
      implies the lowest band, but not conversely. */
  lemma DemocratNoteWithinBand(score: real)
    ensures NoteOf("DEM", score) == DemocratStrongOpposition ==> BandOf(score) == StrongOpposition
    ensures NoteOf("DEM", score) == DemocratSurprising ==> Level(BandOf(score)) >= 1
  {
  }

  /** At exactly 25 the band says strong opposition while a Democrat's note
      says moderate opposition; at exactly 50 the band says limited while
      the note says surprising alignment. */
  lemma DemocratBoundariesDiffer()
    ensures BandOf(25.0) == StrongOpposition && NoteOf("DEM", 25.0) == DemocratModerateOpposition
    ensures BandOf(50.0) == Limited && NoteOf("DEM", 50.0) == DemocratSurprising
  {
  }

  /** Any party other than "REP" and "DEM", including an unknown member,
      gets no note. */
  lemma OtherPartiesGetNoNote(member: Option<string>, score: real)
    requires PartyOf(member) != "REP" && PartyOf(member) != "DEM"
    ensures NoteOf(PartyOf(member), score) == NoNote
  {
  }

  /** The i-th section is about the i-th category and its score. */
  lemma {:induction false} SectionsFollowOrder(cats: seq<Category>, scores: seq<real>, details: Category -> Details)
    requires |cats| == |scores|
    ensures forall i :: 0 <= i < |cats| ==> Sections(cats, scores, details)[i] == SectionOf(cats[i], scores[i], details(cats[i]))
    decreases |cats|
  {
    if cats != [] {
      var n := |cats|;
      var cs, ss := cats[..n - 1], scores[..n - 1];
      SectionsFollowOrder(cs, ss, details);
      var init := Sections(cs, ss, details);
      var last := SectionOf(cats[n - 1], scores[n - 1], details(cats[n - 1]));
      assert Sections(cats, scores, details) == init + [last];
      forall i | 0 <= i < n - 1
        ensures Sections(cats, scores, details)[i] == SectionOf(cats[i], scores[i], details(cats[i]))
      {
        assert cs[i] == cats[i] && ss[i] == scores[i];
        assert (init + [last])[i] == init[i];
      }
    }
  }

  /** A section quotes indicator phrases only for a score above 75 (the
      high ones) or at most 25 (the low ones), never in between, and lists
      the first proposals of the table, at most three of them. */
  lemma SectionContents(c: Category, score: real, d: Details)
    ensures var s := SectionOf(c, score, d);
      && (s.indicators != [] ==> score > 75.0 || score <= 25.0)
      && (score > 75.0 ==> s.indicators == LeadingPhrases(d.high))
      && (score <= 25.0 ==> s.indicators == LeadingPhrases(d.low))
      && (|d.high| >= 2 && score > 75.0 ==> s.indicators == [Lower(d.high[0]), Lower(d.high[1])])
      && s.proposals <= d.proposals
      && |s.proposals| == (if |d.proposals| < 3 then |d.proposals| else 3)
  {
  }

  /** In the report's sections, the i-th section quotes indicators only
      when the i-th score is above 75 or at most 25, and lists at most
      three proposals, a prefix of its category's. */
  lemma SectionsQuoteByScore(cats: seq<Category>, scores: seq<real>, details: Category -> Details)
    requires |cats| == |scores|
    ensures forall i :: 0 <= i < |cats| ==>
      var s := Sections(cats, scores, details)[i];
      && s.category == cats[i]
      && (s.indicators != [] ==> scores[i] > 75.0 || scores[i] <= 25.0)
      && s.proposals <= details(cats[i]).proposals
      && |s.proposals| <= 3
  {
    SectionsFollowOrder(cats, scores, details);
    forall i | 0 <= i < |cats| {
      SectionContents(cats[i], scores[i], details(cats[i]));
    }
  }

  /** The report's scores are the eight areas' percentages, each in
      [0, 100], in the order of the policy table. */
  lemma ReportScoresInRange(votes: Voting.VoteRecord, bills: seq<Voting.Bill>)
    ensures var p := Voting.PatternOf(votes, bills);
      && (forall c: Category :: c in p.categoryAlignment)
      && var s := ScoreList(p.categoryAlignment);
         && |s| == 8
         && forall i :: 0 <= i < |s| ==> 0.0 <= s[i] <= 100.0
  {
    Voting.PatternWellFormed(votes, bills);
  }

  /** The conclusion of a strongly aligned member names the highest score's
      category and then the highest of the rest, earlier categories first
      on ties, as a stable descending sort does. */
  lemma TopTwoAreHighest(s: seq<real>)
    requires |s| >= 2
    ensures var t := TopTwo(s, true);
      && (forall k :: 0 <= k < |s| ==> s[k] <= s[t.0])
      && (forall k :: 0 <= k < |s| && k != t.0 ==> s[k] <= s[t.1])
      && (forall k :: 0 <= k < t.0 ==> s[k] < s[t.0])
      && (forall k :: 0 <= k < t.1 && k != t.0 ==> s[k] < s[t.1])
  {
  }

  /** The conclusion of a strongly opposed member names the lowest score's
      category and then the lowest of the rest, earlier categories first
      on ties, as a stable ascending sort does. */
  lemma BottomTwoAreLowest(s: seq<real>)
    requires |s| >= 2
    ensures var t := TopTwo(s, false);
      && (forall k :: 0 <= k < |s| ==> s[t.0] <= s[k])
      && (forall k :: 0 <= k < |s| && k != t.0 ==> s[t.1] <= s[k])
      && (forall k :: 0 <= k < t.0 ==> s[t.0] < s[k])
      && (forall k :: 0 <= k < t.1 && k != t.0 ==> s[t.1] < s[k])
  {
  }

  /** The conclusion names two categories for the outer bands and one for
      the middle bands; the one named for a middle band, and the first one
      named for strong alignment, has the highest score. */
  lemma HighlightedMatchesBand(overall: real, scores: seq<real>)
    requires |scores| == |PolicyOrder|
    ensures var h := Highlighted(overall, scores);
      && |h| == (if BandOf(overall) in {Strong, StrongOpposition} then 2 else 1)
      && (BandOf(overall) != StrongOpposition ==>
            exists i :: 0 <= i < |scores| && h[0] == PolicyOrder[i] &&
              forall k :: 0 <= k < |scores| ==> scores[k] <= scores[i])
  {
    var first := FirstBest(scores, true, -1, |scores|).value;
    assert PolicyOrder[first] == Highlighted(overall, scores)[0] || BandOf(overall) == StrongOpposition;
  }
}
