/** The fixed policy taxonomy: the eight policy areas, their keys, the
    keyword lists the donor classifier uses and the descriptive data the
    narrative draws on (resist.py:47-237, 918-950). */
module Taxonomy {
  import opened Outcomes

  datatype Category =
    | Economy | Immigration | Healthcare | Education
    | Energy | Defense | Judiciary | Elections

  /** The key order of the policy table; every per-category result is
      produced in this order. */
  const PolicyOrder: seq<Category> :=
    [Economy, Immigration, Healthcare, Education, Energy, Defense, Judiciary, Elections]

  /** The order in which the donor classifier tests the categories. */
  const ClassifierOrder: seq<Category> :=
    [Energy, Economy, Defense, Healthcare, Education, Immigration, Judiciary, Elections]

  /** The dictionary key of a category. */
  function Key(c: Category): string {
    match c
    case Economy => "economy"
    case Immigration => "immigration"
    case Healthcare => "healthcare"
    case Education => "education"
    case Energy => "energy"
    case Defense => "defense"
    case Judiciary => "judiciary"
    case Elections => "elections"
  }

  /** The category a tag names, if it is one of the eight keys. */
  function CategoryOfKey(s: string): (r: Option<Category>)
    ensures r.Some? ==> Key(r.value) == s
    ensures r.None? ==> forall c: Category :: Key(c) != s
  {
    if s == "economy" then Some(Economy)
    else if s == "immigration" then Some(Immigration)
    else if s == "healthcare" then Some(Healthcare)
    else if s == "education" then Some(Education)
    else if s == "energy" then Some(Energy)
    else if s == "defense" then Some(Defense)
    else if s == "judiciary" then Some(Judiciary)
    else if s == "elections" then Some(Elections)
    else None
  }

  /** Position of a category in the classifier's test order. */
  function ClassifierRank(c: Category): (r: nat)
    ensures r < |ClassifierOrder| && ClassifierOrder[r] == c
  {
    match c
    case Energy => 0
    case Economy => 1
    case Defense => 2
    case Healthcare => 3
    case Education => 4
    case Immigration => 5
    case Judiciary => 6
    case Elections => 7
  }

  /** Lower-case keyword substrings per category (resist.py:918-950). */
  function Keywords(c: Category): seq<string> {
    match c
    case Energy => ["oil", "gas", "coal", "energy", "petroleum"]
    case Economy => ["bank", "invest", "financ", "capital", "fund"]
    case Defense => ["defense", "military", "security", "weapon"]
    case Healthcare => ["health", "pharma", "medical", "hospital"]
    case Education => ["school", "education", "teacher", "university"]
    case Immigration => ["immigration", "border", "patrol"]
    case Judiciary => ["court", "judicial", "legal", "law", "attorney"]
    case Elections => ["election", "vote", "ballot", "campaign"]
  }

  /** Key proposals of each policy area (resist.py:115-237). */
  function KeyProposals(c: Category): seq<string> {
    match c
    case Economy => ["Eliminate two regulations for every new one created", "Make Trump tax cuts permanent",
                     "Reduce non-defense discretionary spending by 10%", "Privatize government services",
                     "Dismantle the Consumer Financial Protection Bureau", "Reduce federal workforce by 20%"]
    case Immigration => ["Complete the border wall", "End DACA and other immigration programs",
                         "Implement mass deportations", "Restrict asylum claims",
                         "Reduce legal immigration quotas", "Challenge birthright citizenship"]
    case Healthcare => ["Repeal key provisions of the ACA", "Block grant Medicaid to states",
                        "Expand health savings accounts", "Reduce FDA regulations",
                        "Restrict abortion access", "Limit Medicare spending"]
    case Education => ["Eliminate Department of Education", "Expand school choice and vouchers",
                       "Ban critical race theory in schools", "End Title IX protections for transgender students",
                       "Eliminate federal student loan forgiveness", "Promote patriotic education"]
    case Energy => ["Withdraw from Paris Climate Agreement", "Expand oil and gas drilling on federal lands",
                    "Eliminate EPA's authority to regulate greenhouse gases", "Revoke clean energy subsidies",
                    "Fast-track pipeline approvals", "Eliminate fuel efficiency standards"]
    case Defense => ["Increase defense budget by 5% annually", "Reduce NATO commitments",
                     "Expand Space Force", "Withdraw from international organizations",
                     "Confront China militarily", "End 'woke' military policies"]
    case Judiciary => ["Appoint originalist judges", "Overturn Chevron deference",
                       "Expand religious liberty protections", "Strengthen Second Amendment rights",
                       "Limit federal agency rulemaking", "Restrict abortion rights"]
    case Elections => ["Implement nationwide voter ID", "Restrict mail-in voting",
                       "Purge voter rolls regularly", "Give state legislatures more control over elections",
                       "Challenge election results in court", "Limit early voting periods"]
  }

  /** The "high" alignment indicator phrases of each policy area. */
  function HighIndicators(c: Category): seq<string> {
    match c
    case Economy => ["Voted for tax cuts", "Supported deregulation", "Opposed minimum wage increases"]
    case Immigration => ["Supported border wall funding", "Opposed amnesty", "Voted for immigration restrictions"]
    case Healthcare => ["Voted to repeal ACA", "Supported abortion restrictions", "Opposed Medicare expansion"]
    case Education => ["Supported school choice", "Opposed student loan forgiveness", "Voted against DEI programs"]
    case Energy => ["Supported fossil fuel expansion", "Opposed climate regulations", "Voted against renewable subsidies"]
    case Defense => ["Supported defense increases", "Opposed international agreements", "Voted for military expansion"]
    case Judiciary => ["Supported conservative judges", "Voted for religious liberty protections", "Opposed gun control"]
    case Elections => ["Supported voter ID laws", "Opposed mail-in voting", "Questioned election results"]
  }

  /** The "low" alignment indicator phrases of each policy area. */
  function LowIndicators(c: Category): seq<string> {
    match c
    case Economy => ["Supported increased regulations", "Voted for tax increases", "Supported expanded government programs"]
    case Immigration => ["Supported path to citizenship", "Opposed border wall", "Voted for expanded immigration"]
    case Healthcare => ["Defended ACA", "Supported abortion access", "Voted for Medicare expansion"]
    case Education => ["Opposed school vouchers", "Supported student loan forgiveness", "Defended DEI initiatives"]
    case Energy => ["Supported climate action", "Voted for environmental protections", "Advocated for renewable energy"]
    case Defense => ["Supported defense cuts", "Advocated for international cooperation", "Opposed military buildups"]
    case Judiciary => ["Supported liberal judges", "Voted against religious exemptions", "Advocated for gun control"]
    case Elections => ["Opposed voter ID requirements", "Supported expanded voting access", "Defended election integrity"]
  }

  /** Every category is listed exactly once in each of the two orders. */
  lemma OrdersListEveryCategoryOnce()
    ensures forall c: Category :: c in PolicyOrder && c in ClassifierOrder
    ensures forall i, j :: 0 <= i < j < |PolicyOrder| ==> PolicyOrder[i] != PolicyOrder[j]
    ensures forall i, j :: 0 <= i < j < |ClassifierOrder| ==> ClassifierOrder[i] != ClassifierOrder[j]
  {
    forall c: Category ensures c in PolicyOrder && c in ClassifierOrder {
      match c
      case Economy => assert PolicyOrder[0] == c && ClassifierOrder[1] == c;
      case Immigration => assert PolicyOrder[1] == c && ClassifierOrder[5] == c;
      case Healthcare => assert PolicyOrder[2] == c && ClassifierOrder[3] == c;
      case Education => assert PolicyOrder[3] == c && ClassifierOrder[4] == c;
      case Energy => assert PolicyOrder[4] == c && ClassifierOrder[0] == c;
      case Defense => assert PolicyOrder[5] == c && ClassifierOrder[2] == c;
      case Judiciary => assert PolicyOrder[6] == c && ClassifierOrder[6] == c;
      case Elections => assert PolicyOrder[7] == c && ClassifierOrder[7] == c;
    }
  }

  /** Reading a category's key back gives the category. */
  lemma KeyRoundTrip(c: Category)
    ensures CategoryOfKey(Key(c)) == Some(c)
  {
  }

  /** No keyword is empty. */
  lemma KeywordsNonEmpty(c: Category)
    ensures forall w :: w in Keywords(c) ==> |w| > 0
  {
  }
}
