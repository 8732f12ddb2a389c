/** The contribution correlator (`match_contributions_to_votes`,
    resist.py:637-754): classifies each contributor, sums the money per
    policy area (the full amount to every matching area), attaches the
    member's alignment in that area and weighs the alignments by money. */
module Correlation {
  import opened Outcomes
  import opened Taxonomy
  import opened Classifier
  import Voting

  /** One already-fetched contribution record. */
  datatype Contribution = Contribution(contributorName: string, employer: string, amount: real)

  /** The contribution provider's data: candidate id to contributions. */
  type ContributionStore = map<string, seq<Contribution>>

  const ContributionsUnavailable: string := "Failed to fetch contribution data"
  const VotingUnavailable: string := "Failed to analyze voting pattern"

  /** A contributor's entry: interests and amount. */
  datatype Donor = Donor(interests: seq<Interest>, amount: real)

  /** `contributor_interests`, a dictionary keyed by contributor name:
      `names` is its key order (order of first insertion), `donors` its
      entries. */
  datatype DonorTable = DonorTable(names: seq<string>, donors: map<string, Donor>) {
    ghost predicate Valid() {
      && (forall i, j :: 0 <= i < j < |names| ==> names[i] != names[j])
      && (forall n :: n in donors <==> n in names)
    }
  }

  function DonorOf(c: Contribution): Donor {
    Donor(DonorInterests(c.contributorName, c.employer), c.amount)
  }

  /** `contributor_interests[name] = {...}`: a new name is appended to the
      key order, a known name keeps its place and gets the new entry. */
  function Assign(t: DonorTable, c: Contribution): DonorTable {
    var n := c.contributorName;
    DonorTable(if n in t.donors then t.names else t.names + [n], t.donors[n := DonorOf(c)])
  }

  /** The table after all contributions, in order. */
  function DonorTableOf(contribs: seq<Contribution>): (t: DonorTable)
    ensures t.Valid()
    ensures forall n :: n in t.donors <==> exists i :: 0 <= i < |contribs| && contribs[i].contributorName == n
    decreases |contribs|
  {
    if contribs == [] then DonorTable([], map[])
    else
      var init := contribs[..|contribs| - 1];
      var t := DonorTableOf(init);
      var last := contribs[|contribs| - 1];
      assert forall i :: 0 <= i < |init| ==> contribs[i] == init[i];
      Assign(t, last)
  }

  /** The loop filling `contributor_interests` (resist.py:663-712). */
  method BuildDonorTable(contribs: seq<Contribution>) returns (t: DonorTable)
    ensures t == DonorTableOf(contribs)
  {
    t := DonorTable([], map[]);
    for i := 0 to |contribs|
      invariant t == DonorTableOf(contribs[..i])
    {
      assert contribs[..i + 1][..i] == contribs[..i];
      var contribution := contribs[i];
      var interests := MapDonorInterests(contribution.contributorName, contribution.employer);
      var name := contribution.contributorName;
      if name !in t.donors {
        t := t.(names := t.names + [name]);
      }
      t := t.(donors := t.donors[name := Donor(interests, contribution.amount)]);
    }
    assert contribs[..|contribs|] == contribs;
  }

  /** Because the table is keyed by name, a contributor's entry is made
      from the last contribution under that name: a later contribution
      replaces the earlier amount and interests. */
  lemma {:induction false} LaterContributionReplaces(contribs: seq<Contribution>, i: nat)
    requires i < |contribs|
    requires forall j :: i < j < |contribs| ==> contribs[j].contributorName != contribs[i].contributorName
    ensures contribs[i].contributorName in DonorTableOf(contribs).donors
    ensures DonorTableOf(contribs).donors[contribs[i].contributorName] == DonorOf(contribs[i])
    decreases |contribs|
  {
    if i < |contribs| - 1 {
      var init := contribs[..|contribs| - 1];
      LaterContributionReplaces(init, i);
    }
  }

  /** A contributor's name and amount as listed under a policy area. */
  datatype ContributorAmount = ContributorAmount(name: string, amount: real)

  predicate Covers(names: seq<string>, donors: map<string, Donor>) {
    forall n :: n in names ==> n in donors
  }

  /** Money of the listed contributors interested in `c`. */
  function CategoryTotal(names: seq<string>, donors: map<string, Donor>, c: Category): real
    requires Covers(names, donors)
    decreases |names|
  {
    if names == [] then 0.0
    else
      var n := names[|names| - 1];
      CategoryTotal(names[..|names| - 1], donors, c) + (if Area(c) in donors[n].interests then donors[n].amount else 0.0)
  }

  /** The listed contributors interested in `c`, in order, with amounts. */
  function Contributors(names: seq<string>, donors: map<string, Donor>, c: Category): seq<ContributorAmount>
    requires Covers(names, donors)
    decreases |names|
  {
    if names == [] then []
    else
      var n := names[|names| - 1];
      Contributors(names[..|names| - 1], donors, c)
        + (if Area(c) in donors[n].interests then [ContributorAmount(n, donors[n].amount)] else [])
  }

  function SumAmounts(list: seq<ContributorAmount>): real
    decreases |list|
  {
    if list == [] then 0.0 else SumAmounts(list[..|list| - 1]) + list[|list| - 1].amount
  }

  /** A category's contributor list names exactly the contributors whose
      interests include the category, with their amounts, and those
      amounts add up to the category's total. A "general" contributor is
      listed under no category. */
  lemma {:induction false} ContributorsMatchTotal(names: seq<string>, donors: map<string, Donor>, c: Category)
    requires Covers(names, donors)
    ensures SumAmounts(Contributors(names, donors, c)) == CategoryTotal(names, donors, c)
    ensures forall e :: e in Contributors(names, donors, c) <==>
      e.name in names && e.name in donors && Area(c) in donors[e.name].interests && e.amount == donors[e.name].amount
    decreases |names|
  {
    if names != [] {
      var init := names[..|names| - 1];
      var n := names[|names| - 1];
      ContributorsMatchTotal(init, donors, c);
      var l := Contributors(init, donors, c);
      if Area(c) in donors[n].interests {
        var e := ContributorAmount(n, donors[n].amount);
        assert (l + [e])[..|l|] == l;
      } else {
        assert l + [] == l;
      }
      assert forall x :: x in names <==> x in init || x == n;
    }
  }

  /** A category's part of the result. */
  datatype CategoryCorrelation =
    CategoryCorrelation(alignmentPercentage: real, totalContributions: real, contributors: seq<ContributorAmount>)

  function CategoryEntry(t: DonorTable, categoryAlignment: map<Category, real>, c: Category): CategoryCorrelation
    requires t.Valid()
  {
    var pct := if c in categoryAlignment then categoryAlignment[c] else 0.0;
    CategoryCorrelation(pct, CategoryTotal(t.names, t.donors, c), Contributors(t.names, t.donors, c))
  }

  /** `interest_alignment` (resist.py:715-733). The sum at resist.py:722
      reads `contrib["amount"]`, indexing the contributor's name; the
      evident intent, as at resist.py:730, is the entry's amount, which is
      what this sums (see `CategoryTotalAsWritten`). */
  function InterestAlignment(t: DonorTable, categoryAlignment: map<Category, real>): (ia: map<Category, CategoryCorrelation>)
    requires t.Valid()
    ensures Complete(ia)
  {
    OrdersListEveryCategoryOnce();
    map c | c in PolicyOrder :: CategoryEntry(t, categoryAlignment, c)
  }

  /** The loop of resist.py:715-733 over the categories `cats` (the policy
      table's keys at the call site), storing each category's entry. */
  method BuildInterestAlignment(t: DonorTable, categoryAlignment: map<Category, real>, cats: seq<Category>)
    returns (ia: map<Category, CategoryCorrelation>)
    requires t.Valid()
    ensures forall c :: c in ia <==> c in cats
    ensures forall c :: c in ia ==> ia[c] == CategoryEntry(t, categoryAlignment, c)
  {
    ia := map[];
    for i := 0 to |cats|
      invariant forall c :: c in ia <==> c in cats[..i]
      invariant forall c :: c in ia ==> ia[c] == CategoryEntry(t, categoryAlignment, c)
    {
      assert cats[..i + 1] == cats[..i] + [cats[i]];
      ia := ia[cats[i] := CategoryEntry(t, categoryAlignment, cats[i])];
    }
    assert cats[..|cats|] == cats;
  }

  /** A category's money weighted by its alignment. */
  function AlignedPart(e: CategoryCorrelation): real {
    e.totalContributions * e.alignmentPercentage / 100.0
  }

  /** Σ total × alignment / 100 over `cats`. */
  function AlignedMoney(ia: map<Category, CategoryCorrelation>, cats: seq<Category>): real
    requires forall c :: c in cats ==> c in ia
    decreases |cats|
  {
    if cats == [] then 0.0
    else
      AlignedMoney(ia, cats[..|cats| - 1]) + AlignedPart(ia[cats[|cats| - 1]])
  }

  /** Σ total over `cats`. */
  function Money(ia: map<Category, CategoryCorrelation>, cats: seq<Category>): real
    requires forall c :: c in cats ==> c in ia
    decreases |cats|
  {
    if cats == [] then 0.0 else Money(ia, cats[..|cats| - 1]) + ia[cats[|cats| - 1]].totalContributions
  }

  predicate Complete(ia: map<Category, CategoryCorrelation>) {
    forall c: Category :: c in ia
  }

  /** The money-weighted average alignment, 0 when no money is
      attributed to any category (resist.py:737-747). */
  function OverallCorrelation(ia: map<Category, CategoryCorrelation>): real
    requires Complete(ia)
  {
    OrdersListEveryCategoryOnce();
    var aligned, total := AlignedMoney(ia, PolicyOrder), Money(ia, PolicyOrder);
    if total > 0.0 then aligned / total * 100.0 else 0.0
  }

  /** The success result of the correlator. */
  datatype CorrelationReport = CorrelationReport(
    interestAlignment: map<Category, CategoryCorrelation>,
    overallCorrelation: real,
    contributorInterests: DonorTable)

  function ReportOf(contribs: seq<Contribution>, categoryAlignment: map<Category, real>): CorrelationReport {
    var t := DonorTableOf(contribs);
    var ia := InterestAlignment(t, categoryAlignment);
    OrdersListEveryCategoryOnce();
    CorrelationReport(ia, OverallCorrelation(ia), t)
  }

  /** The correlator's result: an error when the candidate has no
      contribution data or the member no vote record (checked in that
      order), the report otherwise. */
  function Matching(candidateId: string, memberId: string, contributions: ContributionStore,
                    votes: Voting.VoteStore, bills: seq<Voting.Bill>): (r: Result<CorrelationReport>)
    ensures r.Err? <==> candidateId !in contributions || memberId !in votes
    ensures candidateId !in contributions ==> r == Err(ContributionsUnavailable)
    ensures candidateId in contributions && memberId !in votes ==> r == Err(VotingUnavailable)
  {
    if candidateId !in contributions then Err(ContributionsUnavailable)
    else match Voting.Analysis(memberId, votes, bills)
      case Err(_) => Err(VotingUnavailable)
      case Ok(pattern) => Ok(ReportOf(contributions[candidateId], pattern.categoryAlignment))
  }

  method MatchContributionsToVotes(candidateId: string, memberId: string, contributions: ContributionStore,
                                   votes: Voting.VoteStore, bills: seq<Voting.Bill>)
    returns (r: Result<CorrelationReport>)
    ensures r == Matching(candidateId, memberId, contributions, votes, bills)
  {
    if candidateId !in contributions {
      return Err(ContributionsUnavailable);
    }
    var pattern := Voting.AnalyzeVotingPattern(memberId, votes, bills);
    if pattern.Err? {
      return Err(VotingUnavailable);
    }
    var table := BuildDonorTable(contributions[candidateId]);
    OrdersListEveryCategoryOnce();
    var ia := BuildInterestAlignment(table, pattern.value.categoryAlignment, PolicyOrder);
    assert ia == InterestAlignment(table, pattern.value.categoryAlignment);
    r := Ok(CorrelationReport(ia, OverallCorrelation(ia), table));
  }

  /** Both sums grow together over `cats`, and the aligned part never
      exceeds the whole when amounts are non-negative and percentages lie
      in [0, 100]. */
  lemma {:induction false} AlignedMoneyWithinMoney(ia: map<Category, CategoryCorrelation>, cats: seq<Category>)
    requires forall c :: c in cats ==> c in ia
    requires forall c :: c in cats ==> ia[c].totalContributions >= 0.0
    requires forall c :: c in cats ==> 0.0 <= ia[c].alignmentPercentage <= 100.0
    ensures 0.0 <= AlignedMoney(ia, cats) <= Money(ia, cats)
    decreases |cats|
  {
    if cats != [] {
      var init := cats[..|cats| - 1];
      assert forall c :: c in init ==> c in cats;
      AlignedMoneyWithinMoney(ia, init);
      AlignedPartWithin(ia[cats[|cats| - 1]]);
    }
  }

  lemma AlignedPartWithin(e: CategoryCorrelation)
    requires e.totalContributions >= 0.0 && 0.0 <= e.alignmentPercentage <= 100.0
    ensures 0.0 <= AlignedPart(e) <= e.totalContributions
  {
    var w, p := e.totalContributions, e.alignmentPercentage;
    assert w * p <= w * 100.0 by {
      assert w * (100.0 - p) >= 0.0;
    }
  }

  /** The overall correlation lies in [0, 100] when no category has a
      negative total and every alignment lies in [0, 100]; it is 0 when no
      money is attributed to any category. */
  lemma CorrelationInRange(ia: map<Category, CategoryCorrelation>)
    requires Complete(ia)
    requires forall c :: ia[c].totalContributions >= 0.0 && 0.0 <= ia[c].alignmentPercentage <= 100.0
    ensures 0.0 <= OverallCorrelation(ia) <= 100.0
    ensures Money(ia, PolicyOrder) == 0.0 ==> OverallCorrelation(ia) == 0.0
  {
    AlignedMoneyWithinMoney(ia, PolicyOrder);
    var aligned, total := AlignedMoney(ia, PolicyOrder), Money(ia, PolicyOrder);
    if total > 0.0 {
      assert aligned / total <= 1.0 by {
        assert aligned <= total;
      }
    }
  }

  /** A weighted average of equal values is that value: when every area
      has the same alignment `p` and some money is attributed, the overall
      correlation is `p`. */
  lemma {:induction false} UniformAlignedMoney(ia: map<Category, CategoryCorrelation>, cats: seq<Category>, p: real)
    requires forall c :: c in cats ==> c in ia && ia[c].alignmentPercentage == p
    ensures AlignedMoney(ia, cats) == Money(ia, cats) * p / 100.0
    decreases |cats|
  {
    if cats != [] {
      var init := cats[..|cats| - 1];
      assert forall c :: c in init ==> c in cats;
      UniformAlignedMoney(ia, init, p);
    }
  }

  lemma CorrelationOfUniformAlignment(ia: map<Category, CategoryCorrelation>, p: real)
    requires Complete(ia)
    requires forall c :: ia[c].alignmentPercentage == p
    requires Money(ia, PolicyOrder) > 0.0
    ensures OverallCorrelation(ia) == p
  {
    UniformAlignedMoney(ia, PolicyOrder, p);
  }

  /** The contributors' amounts are non-negative when every contribution's
      amount is. */
  lemma {:induction false} DonorAmountsNonNegative(contribs: seq<Contribution>)
    requires forall i :: 0 <= i < |contribs| ==> contribs[i].amount >= 0.0
    ensures forall n :: n in DonorTableOf(contribs).donors ==> DonorTableOf(contribs).donors[n].amount >= 0.0
    decreases |contribs|
  {
    if contribs != [] {
      DonorAmountsNonNegative(contribs[..|contribs| - 1]);
    }
  }

  lemma {:induction false} CategoryTotalNonNegative(names: seq<string>, donors: map<string, Donor>, c: Category)
    requires Covers(names, donors)
    requires forall n :: n in donors ==> donors[n].amount >= 0.0
    ensures CategoryTotal(names, donors, c) >= 0.0
    decreases |names|
  {
    if names != [] {
      CategoryTotalNonNegative(names[..|names| - 1], donors, c);
    }
  }

  /** End to end: whenever the correlator succeeds on non-negative
      amounts, its overall correlation lies in [0, 100]. */
  lemma MatchingInRange(candidateId: string, memberId: string, contributions: ContributionStore,
                        votes: Voting.VoteStore, bills: seq<Voting.Bill>)
    requires candidateId in contributions
    requires forall i :: 0 <= i < |contributions[candidateId]| ==> contributions[candidateId][i].amount >= 0.0
    ensures var r := Matching(candidateId, memberId, contributions, votes, bills);
      r.Ok? ==> 0.0 <= r.value.overallCorrelation <= 100.0
  {
    if memberId in votes {
      var pattern := Voting.PatternOf(votes[memberId], bills);
      Voting.PatternWellFormed(votes[memberId], bills);
      var contribs := contributions[candidateId];
      var t := DonorTableOf(contribs);
      DonorAmountsNonNegative(contribs);
      var ia := InterestAlignment(t, pattern.categoryAlignment);
      OrdersListEveryCategoryOnce();
      forall c ensures ia[c].totalContributions >= 0.0 && 0.0 <= ia[c].alignmentPercentage <= 100.0 {
        CategoryTotalNonNegative(t.names, t.donors, c);
      }
      CorrelationInRange(ia);
    }
  }

  /** The two sums written out over the eight areas. */
  lemma ExpandOverPolicyOrder(ia: map<Category, CategoryCorrelation>)
    requires Complete(ia)
    ensures Money(ia, PolicyOrder)
      == ia[Economy].totalContributions + ia[Immigration].totalContributions + ia[Healthcare].totalContributions
       + ia[Education].totalContributions + ia[Energy].totalContributions + ia[Defense].totalContributions
       + ia[Judiciary].totalContributions + ia[Elections].totalContributions
    ensures AlignedMoney(ia, PolicyOrder)
      == AlignedPart(ia[Economy]) + AlignedPart(ia[Immigration]) + AlignedPart(ia[Healthcare])
       + AlignedPart(ia[Education]) + AlignedPart(ia[Energy]) + AlignedPart(ia[Defense])
       + AlignedPart(ia[Judiciary]) + AlignedPart(ia[Elections])
  {
    var P := PolicyOrder;
    assert P[..1][..0] == P[..0] && P[..1][0] == Economy;
    assert Money(ia, P[..1]) == Money(ia, P[..0]) + ia[Economy].totalContributions;
    assert AlignedMoney(ia, P[..1]) == AlignedMoney(ia, P[..0]) + AlignedPart(ia[Economy]);
    assert P[..2][..1] == P[..1] && P[..2][1] == Immigration;
    assert Money(ia, P[..2]) == Money(ia, P[..1]) + ia[Immigration].totalContributions;
    assert AlignedMoney(ia, P[..2]) == AlignedMoney(ia, P[..1]) + AlignedPart(ia[Immigration]);
    assert P[..3][..2] == P[..2] && P[..3][2] == Healthcare;
    assert Money(ia, P[..3]) == Money(ia, P[..2]) + ia[Healthcare].totalContributions;
    assert AlignedMoney(ia, P[..3]) == AlignedMoney(ia, P[..2]) + AlignedPart(ia[Healthcare]);
    assert P[..4][..3] == P[..3] && P[..4][3] == Education;
    assert Money(ia, P[..4]) == Money(ia, P[..3]) + ia[Education].totalContributions;
    assert AlignedMoney(ia, P[..4]) == AlignedMoney(ia, P[..3]) + AlignedPart(ia[Education]);
    assert P[..5][..4] == P[..4] && P[..5][4] == Energy;
    assert Money(ia, P[..5]) == Money(ia, P[..4]) + ia[Energy].totalContributions;
    assert AlignedMoney(ia, P[..5]) == AlignedMoney(ia, P[..4]) + AlignedPart(ia[Energy]);
    assert P[..6][..5] == P[..5] && P[..6][5] == Defense;
    assert Money(ia, P[..6]) == Money(ia, P[..5]) + ia[Defense].totalContributions;
    assert AlignedMoney(ia, P[..6]) == AlignedMoney(ia, P[..5]) + AlignedPart(ia[Defense]);
    assert P[..7][..6] == P[..6] && P[..7][6] == Judiciary;
    assert Money(ia, P[..7]) == Money(ia, P[..6]) + ia[Judiciary].totalContributions;
    assert AlignedMoney(ia, P[..7]) == AlignedMoney(ia, P[..6]) + AlignedPart(ia[Judiciary]);
    assert P[..8][..7] == P[..7] && P[..8][7] == Elections;
    assert Money(ia, P[..8]) == Money(ia, P[..7]) + ia[Elections].totalContributions;
    assert AlignedMoney(ia, P[..8]) == AlignedMoney(ia, P[..7]) + AlignedPart(ia[Elections]);
    assert P[..8] == P;
  }

  /** A table with a single contributor. */
  function OneDonor(name: string, interests: seq<Interest>, amount: real): (t: DonorTable)
    ensures t.Valid()
  {
    DonorTable([name], map[name := Donor(interests, amount)])
  }

  /** $50,000 from a contributor classified as energy, energy alignment
      80%: the overall correlation is 80. */
  lemma SingleEnergyDonor(ca: map<Category, real>)
    requires Energy in ca && ca[Energy] == 80.0
    ensures OverallCorrelation(InterestAlignment(OneDonor("Oil Industry PAC", [Area(Energy)], 50000.0), ca)) == 80.0
  {
    var t := OneDonor("Oil Industry PAC", [Area(Energy)], 50000.0);
    var ia := InterestAlignment(t, ca);
    assert t.names[..0] == [];
    forall c ensures ia[c].totalContributions == (if c == Energy then 50000.0 else 0.0) {
      assert CategoryTotal(t.names, t.donors, c) == CategoryTotal([], t.donors, c)
        + (if Area(c) in [Area(Energy)] then 50000.0 else 0.0);
    }
    ExpandOverPolicyOrder(ia);
  }

  /** A table with two contributors. */
  function TwoDonors(first: string, firstDonor: Donor, second: string, secondDonor: Donor): (t: DonorTable)
    requires first != second
    ensures t.Valid()
  {
    DonorTable([first, second], map[first := firstDonor, second := secondDonor])
  }

  lemma TwoDonorTotal(first: string, firstDonor: Donor, second: string, secondDonor: Donor, c: Category)
    requires first != second
    ensures var t := TwoDonors(first, firstDonor, second, secondDonor);
      CategoryTotal(t.names, t.donors, c)
        == (if Area(c) in firstDonor.interests then firstDonor.amount else 0.0)
         + (if Area(c) in secondDonor.interests then secondDonor.amount else 0.0)
  {
    var t := TwoDonors(first, firstDonor, second, secondDonor);
    assert t.donors[first] == firstDonor && t.donors[second] == secondDonor;
    assert t.names[..1] == [first] && [first][..0] == [];
    assert CategoryTotal([first], t.donors, c)
      == (if Area(c) in firstDonor.interests then firstDonor.amount else 0.0);
  }

  /** $30,000 to an area with 100% alignment and $10,000 to an area with 0%:
      the overall correlation is 75. */
  lemma TwoWeightedAreas(ca: map<Category, real>)
    requires Energy in ca && ca[Energy] == 100.0 && Defense in ca && ca[Defense] == 0.0
    ensures OverallCorrelation(InterestAlignment(
              TwoDonors("Oil Co", Donor([Area(Energy)], 30000.0), "Arms Co", Donor([Area(Defense)], 10000.0)), ca)) == 75.0
  {
    var oil, arms := Donor([Area(Energy)], 30000.0), Donor([Area(Defense)], 10000.0);
    var t := TwoDonors("Oil Co", oil, "Arms Co", arms);
    var ia := InterestAlignment(t, ca);
    forall c ensures ia[c].totalContributions == (if c == Energy then 30000.0 else if c == Defense then 10000.0 else 0.0) {
      TwoDonorTotal("Oil Co", oil, "Arms Co", arms, c);
    }
    WeightedByMoney(ia);
  }

  lemma WeightedByMoney(ia: map<Category, CategoryCorrelation>)
    requires Complete(ia)
    requires forall c :: ia[c].totalContributions == (if c == Energy then 30000.0 else if c == Defense then 10000.0 else 0.0)
    requires ia[Energy].alignmentPercentage == 100.0 && ia[Defense].alignmentPercentage == 0.0
    ensures OverallCorrelation(ia) == 75.0
  {
    ExpandOverPolicyOrder(ia);
    assert Money(ia, PolicyOrder) == 40000.0;
    assert AlignedMoney(ia, PolicyOrder) == 30000.0;
  }

  /** The message Python gives for indexing a string with a string. */
  const StringIndexError: string := "TypeError: string indices must be integers"

  /** The category sum as written at resist.py:721-724: the generator walks
      the table in key order and, at the first entry whose interests
      include the category, evaluates `contrib["amount"]` on the
      contributor's name, a string, which raises. Only when no entry
      matches does it yield 0. */
  function CategoryTotalAsWritten(names: seq<string>, donors: map<string, Donor>, c: Category): Result<real>
    requires Covers(names, donors)
    decreases |names|
  {
    if names == [] then Ok(0.0)
    else if Area(c) in donors[names[0]].interests then Err(StringIndexError)
    else CategoryTotalAsWritten(names[1..], donors, c)
  }

  /** A category no listed contributor is interested in gets no money. */
  lemma {:induction false} NoMatchNoMoney(names: seq<string>, donors: map<string, Donor>, c: Category)
    requires Covers(names, donors)
    requires forall n :: n in names ==> Area(c) !in donors[n].interests
    ensures CategoryTotal(names, donors, c) == 0.0
    decreases |names|
  {
    if names != [] {
      var init := names[..|names| - 1];
      assert forall n :: n in init ==> n in names;
      NoMatchNoMoney(init, donors, c);
    }
  }

  /** The sum as written fails for every category that some contributor
      is interested in, and agrees with the intended sum (0) only for the
      categories nobody is. */
  lemma {:induction false} AsWrittenFailsOnAnyMatch(names: seq<string>, donors: map<string, Donor>, c: Category)
    requires Covers(names, donors)
    ensures CategoryTotalAsWritten(names, donors, c).Err?
            <==> exists n :: n in names && Area(c) in donors[n].interests
    ensures CategoryTotalAsWritten(names, donors, c).Ok? ==>
            CategoryTotalAsWritten(names, donors, c).value == 0.0 == CategoryTotal(names, donors, c)
    decreases |names|
  {
    if names != [] {
      var rest := names[1..];
      assert forall n :: n in names <==> n == names[0] || n in rest;
      AsWrittenFailsOnAnyMatch(rest, donors, c);
      if CategoryTotalAsWritten(names, donors, c).Ok? {
        NoMatchNoMoney(names, donors, c);
      }
    }
  }

  /** The input that shows it: one energy contributor of $50,000. The
      intended sum is 50,000; the sum as written raises. */
  lemma AsWrittenFailsOnEnergyDonor()
    ensures var t := OneDonor("Oil Industry PAC", [Area(Energy)], 50000.0);
      && CategoryTotalAsWritten(t.names, t.donors, Energy) == Err(StringIndexError)
      && CategoryTotal(t.names, t.donors, Energy) == 50000.0
  {
    var t := OneDonor("Oil Industry PAC", [Area(Energy)], 50000.0);
    assert t.names[..0] == [];
  }

  /** How many of `cats` are among the interests. */
  function AreaCount(cats: seq<Category>, interests: seq<Interest>): nat
    decreases |cats|
  {
    if cats == [] then 0
    else AreaCount(cats[..|cats| - 1], interests) + (if Area(cats[|cats| - 1]) in interests then 1 else 0)
  }

  /** Σ over `cats` of the category totals. */
  function SumOverAreas(cats: seq<Category>, names: seq<string>, donors: map<string, Donor>): real
    requires Covers(names, donors)
    decreases |cats|
  {
    if cats == [] then 0.0
    else SumOverAreas(cats[..|cats| - 1], names, donors) + CategoryTotal(names, donors, cats[|cats| - 1])
  }

  /** Σ over the contributors of amount × number of matching areas. */
  function CountedMoney(cats: seq<Category>, names: seq<string>, donors: map<string, Donor>): real
    requires Covers(names, donors)
    decreases |names|
  {
    if names == [] then 0.0
    else
      var n := names[|names| - 1];
      CountedMoney(cats, names[..|names| - 1], donors) + donors[n].amount * AreaCount(cats, donors[n].interests) as real
  }

  lemma {:induction false} SumOverAreasStep(cats: seq<Category>, names: seq<string>, donors: map<string, Donor>)
    requires Covers(names, donors) && names != []
    ensures var init, n := names[..|names| - 1], names[|names| - 1];
      SumOverAreas(cats, names, donors)
        == SumOverAreas(cats, init, donors) + donors[n].amount * AreaCount(cats, donors[n].interests) as real
    decreases |cats|
  {
    if cats != [] {
      SumOverAreasStep(cats[..|cats| - 1], names, donors);
      var n := names[|names| - 1];
      var k := AreaCount(cats[..|cats| - 1], donors[n].interests) as real;
      var a := donors[n].amount;
      assert a * (k + 1.0) == a * k + a;
    }
  }

  /** The correlator's attribution rule: a contributor's full amount is
      counted once in every area it matches, with no splitting, so the
      category totals add up to each amount times its number of matching
      areas ("general" contributors count nowhere). */
  lemma {:induction false} FullAmountToEveryArea(cats: seq<Category>, names: seq<string>, donors: map<string, Donor>)
    requires Covers(names, donors)
    ensures SumOverAreas(cats, names, donors) == CountedMoney(cats, names, donors)
    decreases |names|
  {
    if names == [] {
      ZeroOverAreas(cats, donors);
    } else {
      FullAmountToEveryArea(cats, names[..|names| - 1], donors);
      SumOverAreasStep(cats, names, donors);
    }
  }

  lemma {:induction false} ZeroOverAreas(cats: seq<Category>, donors: map<string, Donor>)
    ensures SumOverAreas(cats, [], donors) == 0.0
    decreases |cats|
  {
    if cats != [] {
      ZeroOverAreas(cats[..|cats| - 1], donors);
    }
  }
}
