/** Voting-pattern analysis (`analyze_voting_pattern`, resist.py:569-635):
    counts the member's recorded votes on the bill list, classifies each as
    aligned with the policy stance or not, and turns the counts into
    overall and per-category percentages. */
module Voting {
  import opened Outcomes
  import opened Taxonomy

  /** A bill: its id, its category tags (keys of the policy table; other
      strings are ignored) and its polarity ("aligned" or "opposed"). */
  datatype Bill = Bill(billId: string, categories: seq<string>, polarity: string)

  /** One member's votes, bill id to vote ("yes", "no", ...). */
  type VoteRecord = map<string, string>

  /** The vote provider's data: member id to vote record. */
  type VoteStore = map<string, VoteRecord>

  /** The message of the provider's not-found result (resist.py:520). */
  const MemberNotFound: string := "Member not found"

  /** Aligned, opposed and total vote counters. */
  datatype Tally = Tally(aligned: nat, opposed: nat, total: nat) {
    predicate Balanced() { aligned + opposed == total }
  }

  const NoVotes: Tally := Tally(0, 0, 0)

  /** A vote matches the policy stance when the bill is "aligned" and the
      vote is "yes", or the bill is "opposed" and the vote is "no". */
  predicate IsAligned(polarity: string, vote: string) {
    (polarity == "aligned" && vote == "yes") || (polarity == "opposed" && vote == "no")
  }

  /** `n` more votes of one kind. */
  function Count(t: Tally, aligned: bool, n: nat): Tally {
    if aligned then Tally(t.aligned + n, t.opposed, t.total + n)
    else Tally(t.aligned, t.opposed + n, t.total + n)
  }

  /** How many of the tags name category `c`. */
  function TagCount(tags: seq<string>, c: Category): nat
    decreases |tags|
  {
    if tags == [] then 0
    else TagCount(tags[..|tags| - 1], c) + (if tags[|tags| - 1] == Key(c) then 1 else 0)
  }

  /** The overall counters after the bills, in order. */
  function OverallTally(votes: VoteRecord, bills: seq<Bill>): Tally
    decreases |bills|
  {
    if bills == [] then NoVotes
    else
      var b := bills[|bills| - 1];
      var t := OverallTally(votes, bills[..|bills| - 1]);
      if b.billId in votes then Count(t, IsAligned(b.polarity, votes[b.billId]), 1) else t
  }

  /** The counters of category `c` after the bills: a counted bill adds one
      vote per tag naming `c`. */
  function CategoryTally(votes: VoteRecord, bills: seq<Bill>, c: Category): Tally
    decreases |bills|
  {
    if bills == [] then NoVotes
    else
      var b := bills[|bills| - 1];
      var t := CategoryTally(votes, bills[..|bills| - 1], c);
      if b.billId in votes then Count(t, IsAligned(b.polarity, votes[b.billId]), TagCount(b.categories, c)) else t
  }

  /** `part / whole * 100`, or 0 when `whole` is 0. */
  function Percent(part: nat, whole: nat): (p: real)
    ensures whole == 0 ==> p == 0.0
    ensures part <= whole ==> 0.0 <= p <= 100.0
    ensures whole > 0 ==> (p == 100.0 <==> part == whole) && (p == 0.0 <==> part == 0)
  {
    if whole > 0 then part as real / whole as real * 100.0 else 0.0
  }

  /** The success result of the analysis. */
  datatype VotingPattern = VotingPattern(
    totalVotes: nat,
    alignedVotes: nat,
    opposedVotes: nat,
    overallAlignment: real,
    votesByCategory: map<Category, Tally>,
    categoryAlignment: map<Category, real>)

  function PatternOf(votes: VoteRecord, bills: seq<Bill>): VotingPattern {
    var t := OverallTally(votes, bills);
    var byCategory := map c | c in PolicyOrder :: CategoryTally(votes, bills, c);
    VotingPattern(t.total, t.aligned, t.opposed, Percent(t.aligned, t.total), byCategory,
                  map c | c in PolicyOrder :: Percent(byCategory[c].aligned, byCategory[c].total))
  }

  /** The analysis of a member: the not-found error when the provider has
      no vote record for the member, the voting pattern otherwise. */
  function Analysis(memberId: string, store: VoteStore, bills: seq<Bill>): (r: Result<VotingPattern>)
    ensures r.Err? <==> memberId !in store
    ensures r.Err? ==> r.message == MemberNotFound
  {
    if memberId in store then Ok(PatternOf(store[memberId], bills)) else Err(MemberNotFound)
  }

  /** A table holding counters for exactly the eight categories. */
  predicate Complete(byCategory: map<Category, Tally>) {
    forall c: Category :: c in byCategory
  }

  /** The loop over a counted bill's tags (resist.py:609-615): each tag
      that is a policy key adds one vote of the bill's kind to that
      category; other tags are skipped. */
  method CountTags(byCategory: map<Category, Tally>, tags: seq<string>, isAligned: bool)
    returns (updated: map<Category, Tally>)
    requires Complete(byCategory)
    ensures Complete(updated)
    ensures forall c :: c in updated ==> updated[c] == Count(byCategory[c], isAligned, TagCount(tags, c))
  {
    updated := byCategory;
    for j := 0 to |tags|
      invariant Complete(updated)
      invariant forall c :: c in updated ==> updated[c] == Count(byCategory[c], isAligned, TagCount(tags[..j], c))
    {
      assert tags[..j + 1][..j] == tags[..j];
      ghost var before := updated;
      var tag := CategoryOfKey(tags[j]);
      if tag.Some? {
        updated := updated[tag.value := Count(updated[tag.value], isAligned, 1)];
      }
      forall c | c in updated
        ensures updated[c] == Count(byCategory[c], isAligned, TagCount(tags[..j + 1], c))
      {
        KeyRoundTrip(c);
        if tags[j] == Key(c) {
          assert updated[c] == Count(before[c], isAligned, 1);
        } else {
          assert updated[c] == before[c];
        }
      }
    }
    assert tags[..|tags|] == tags;
  }

  /** The percentage loop (resist.py:620-625): every category gets an
      entry, 0 when it has no votes. */
  method CategoryPercentages(byCategory: map<Category, Tally>) returns (alignment: map<Category, real>)
    requires Complete(byCategory)
    ensures alignment == map c | c in PolicyOrder :: Percent(byCategory[c].aligned, byCategory[c].total)
  {
    alignment := map[];
    for k := 0 to |PolicyOrder|
      invariant forall c :: c in alignment <==> c in PolicyOrder[..k]
      invariant forall c :: c in alignment ==> alignment[c] == Percent(byCategory[c].aligned, byCategory[c].total)
    {
      var c := PolicyOrder[k];
      assert forall d :: d in PolicyOrder[..k + 1] <==> d in PolicyOrder[..k] || d == c;
      alignment := alignment[c := Percent(byCategory[c].aligned, byCategory[c].total)];
    }
    assert PolicyOrder[..|PolicyOrder|] == PolicyOrder;
  }

  /** The source's loop over the bills, updating the counters and the
      per-category table in place; then the percentages. */
  method AnalyzeVotingPattern(memberId: string, store: VoteStore, bills: seq<Bill>)
    returns (r: Result<VotingPattern>)
    ensures r == Analysis(memberId, store, bills)
  {
    if memberId !in store {
      return Err(MemberNotFound);
    }
    var votes := store[memberId];
    var total, aligned, opposed := 0, 0, 0;
    OrdersListEveryCategoryOnce();
    var byCategory: map<Category, Tally> := map c | c in PolicyOrder :: NoVotes;
    for i := 0 to |bills|
      invariant Tally(aligned, opposed, total) == OverallTally(votes, bills[..i])
      invariant Complete(byCategory)
      invariant forall c :: c in byCategory ==> byCategory[c] == CategoryTally(votes, bills[..i], c)
    {
      var bill := bills[i];
      assert bills[..i + 1][..i] == bills[..i];
      if bill.billId in votes {
        total := total + 1;
        var isAligned := IsAligned(bill.polarity, votes[bill.billId]);
        if isAligned {
          aligned := aligned + 1;
        } else {
          opposed := opposed + 1;
        }
        byCategory := CountTags(byCategory, bill.categories, isAligned);
      }
    }
    assert bills[..|bills|] == bills;
    assert byCategory == map c | c in PolicyOrder :: CategoryTally(votes, bills, c);
    var categoryAlignment := CategoryPercentages(byCategory);
    r := Ok(VotingPattern(total, aligned, opposed, Percent(aligned, total), byCategory, categoryAlignment));
  }

  /** The bills the member has a recorded vote on, in order. */
  function Recorded(votes: VoteRecord, bills: seq<Bill>): seq<Bill>
    decreases |bills|
  {
    if bills == [] then []
    else
      var b := bills[|bills| - 1];
      Recorded(votes, bills[..|bills| - 1]) + (if b.billId in votes then [b] else [])
  }

  /** Only bills with a recorded vote count: the tallies over all bills
      equal those over the recorded ones, and the total is their number. */
  lemma {:induction false} OnlyRecordedBillsCount(votes: VoteRecord, bills: seq<Bill>, c: Category)
    ensures OverallTally(votes, bills) == OverallTally(votes, Recorded(votes, bills))
    ensures CategoryTally(votes, bills, c) == CategoryTally(votes, Recorded(votes, bills), c)
    ensures OverallTally(votes, bills).total == |Recorded(votes, bills)|
    decreases |bills|
  {
    if bills != [] {
      var init, b := bills[..|bills| - 1], bills[|bills| - 1];
      OnlyRecordedBillsCount(votes, init, c);
      var r := Recorded(votes, init);
      if b.billId in votes {
        assert Recorded(votes, bills) == r + [b];
        assert (r + [b])[..|r|] == r && (r + [b])[|r|] == b;
      } else {
        assert Recorded(votes, bills) == r;
      }
    }
  }

  /** Every vote counted is either aligned or opposed, overall and in each
      category, and no more votes are counted than there are bills. */
  lemma {:induction false} TalliesBalanced(votes: VoteRecord, bills: seq<Bill>, c: Category)
    ensures OverallTally(votes, bills).Balanced() && OverallTally(votes, bills).total <= |bills|
    ensures CategoryTally(votes, bills, c).Balanced()
    decreases |bills|
  {
    if bills != [] {
      TalliesBalanced(votes, bills[..|bills| - 1], c);
    }
  }

  /** No tag appears twice on the bill. */
  predicate DistinctTags(tags: seq<string>) {
    forall i, j :: 0 <= i < j < |tags| ==> tags[i] != tags[j]
  }

  /** A category's tag count is zero exactly when the category is not
      tagged, and one when it is tagged on a bill without repeated tags. */
  lemma {:induction false} TagCountOfDistinct(tags: seq<string>, c: Category)
    ensures TagCount(tags, c) == 0 <==> Key(c) !in tags
    ensures DistinctTags(tags) && Key(c) in tags ==> TagCount(tags, c) == 1
    decreases |tags|
  {
    if tags != [] {
      var init := tags[..|tags| - 1];
      TagCountOfDistinct(init, c);
      assert forall t :: t in tags <==> t in init || t == tags[|tags| - 1];
      if DistinctTags(tags) {
        assert DistinctTags(init);
        if tags[|tags| - 1] == Key(c) {
          assert Key(c) !in init by {
            forall i | 0 <= i < |init| ensures init[i] != Key(c) {
              assert tags[i] != tags[|tags| - 1];
            }
          }
        }
      }
    }
  }

  /** A counted bill tagged with several categories adds exactly one vote
      to each of them, of the bill's kind, and nothing to the categories it
      is not tagged with. */
  lemma MultiTaggedBillCountsFully(votes: VoteRecord, bills: seq<Bill>, b: Bill, c: Category)
    requires b.billId in votes && DistinctTags(b.categories)
    ensures var before, after := CategoryTally(votes, bills, c), CategoryTally(votes, bills + [b], c);
      && (Key(c) in b.categories ==>
            after == Count(before, IsAligned(b.polarity, votes[b.billId]), 1) && after.total == before.total + 1)
      && (Key(c) !in b.categories ==> after == before)
    ensures OverallTally(votes, bills + [b]).total == OverallTally(votes, bills).total + 1
  {
    assert (bills + [b])[..|bills|] == bills;
    TagCountOfDistinct(b.categories, c);
  }

  /** When no bill repeats a tag, each category counts at most the votes
      counted overall, aligned and opposed alike. */
  lemma {:induction false} CategoryWithinOverall(votes: VoteRecord, bills: seq<Bill>, c: Category)
    requires forall b :: b in bills ==> DistinctTags(b.categories)
    ensures var t, tc := OverallTally(votes, bills), CategoryTally(votes, bills, c);
      tc.aligned <= t.aligned && tc.opposed <= t.opposed && tc.total <= t.total
    decreases |bills|
  {
    if bills != [] {
      var init, b := bills[..|bills| - 1], bills[|bills| - 1];
      assert forall x :: x in init ==> x in bills;
      CategoryWithinOverall(votes, init, c);
      TagCountOfDistinct(b.categories, c);
    }
  }

  /** The analysis result is well formed: the counters add up, every one
      of the eight categories has a percentage, and every percentage lies
      in [0, 100] and is 0 when there were no votes to count. */
  lemma PatternWellFormed(votes: VoteRecord, bills: seq<Bill>)
    ensures var p := PatternOf(votes, bills);
      && p.totalVotes == p.alignedVotes + p.opposedVotes
      && 0.0 <= p.overallAlignment <= 100.0
      && (p.totalVotes == 0 ==> p.overallAlignment == 0.0)
      && (forall c :: c in p.categoryAlignment && c in p.votesByCategory)
      && (forall c :: p.votesByCategory[c].aligned + p.votesByCategory[c].opposed == p.votesByCategory[c].total)
      && (forall c :: 0.0 <= p.categoryAlignment[c] <= 100.0)
      && (forall c :: p.votesByCategory[c].total == 0 ==> p.categoryAlignment[c] == 0.0)
  {
    OrdersListEveryCategoryOnce();
    TalliesBalanced(votes, bills, Economy);
    forall c ensures CategoryTally(votes, bills, c).Balanced() {
      TalliesBalanced(votes, bills, c);
    }
  }

  /** A single recorded vote counts once overall and once per matching tag
      in each category. */
  lemma OneRecordedBill(votes: VoteRecord, b: Bill, c: Category)
    requires b.billId in votes
    ensures var aligned := IsAligned(b.polarity, votes[b.billId]);
      && OverallTally(votes, [b]) == Count(NoVotes, aligned, 1)
      && CategoryTally(votes, [b], c) == Count(NoVotes, aligned, TagCount(b.categories, c))
  {
    assert [b][..0] == [];
  }

  /** A single tag counts for its own category only. */
  lemma SingleTagCount(c: Category, d: Category)
    ensures TagCount([Key(c)], d) == if d == c then 1 else 0
  {
    assert [Key(c)][..0] == [];
    KeyRoundTrip(c);
    KeyRoundTrip(d);
  }

  /** The fields of a pattern in terms of the tallies. */
  lemma PatternFields(votes: VoteRecord, bills: seq<Bill>)
    ensures var p, t := PatternOf(votes, bills), OverallTally(votes, bills);
      && p.totalVotes == t.total && p.alignedVotes == t.aligned
      && p.overallAlignment == Percent(t.aligned, t.total)
      && forall c :: c in p.categoryAlignment &&
           p.categoryAlignment[c] == Percent(CategoryTally(votes, bills, c).aligned, CategoryTally(votes, bills, c).total)
  {
    OrdersListEveryCategoryOnce();
  }

  /** One "yes" on an "aligned" bill tagged with one category as the only
      recorded vote: one vote, aligned, 100% overall and in that category,
      0% elsewhere. */
  lemma SingleAlignedVote(billId: string, c: Category)
    ensures var p := PatternOf(map[billId := "yes"], [Bill(billId, [Key(c)], "aligned")]);
      && p.totalVotes == 1 && p.alignedVotes == 1 && p.overallAlignment == 100.0
      && c in p.categoryAlignment && p.categoryAlignment[c] == 100.0
      && (forall d :: d != c ==> d in p.categoryAlignment && p.categoryAlignment[d] == 0.0)
  {
    var votes := map[billId := "yes"];
    var b := Bill(billId, [Key(c)], "aligned");
    PatternFields(votes, [b]);
    assert IsAligned(b.polarity, votes[b.billId]);
    OneRecordedBill(votes, b, c);
    SingleTagCount(c, c);
    var p := PatternOf(votes, [b]);
    forall d | d != c ensures d in p.categoryAlignment && p.categoryAlignment[d] == 0.0 {
      OneRecordedBill(votes, b, d);
      SingleTagCount(c, d);
      assert CategoryTally(votes, [b], d) == NoVotes;
    }
  }

  /** A recorded vote other than the matching "yes" or "no" (a "yes" on an
      "opposed" bill, "present", ...) adds one opposed vote overall and one
      per matching tag in each category, after any earlier bills. */
  lemma UnmatchedVoteCountsAsOpposed(votes: VoteRecord, bills: seq<Bill>, b: Bill, c: Category)
    requires b.billId in votes && !IsAligned(b.polarity, votes[b.billId])
    ensures var before, after := OverallTally(votes, bills), OverallTally(votes, bills + [b]);
      after == Tally(before.aligned, before.opposed + 1, before.total + 1)
    ensures var before, after := CategoryTally(votes, bills, c), CategoryTally(votes, bills + [b], c);
      var n := TagCount(b.categories, c);
      after == Tally(before.aligned, before.opposed + n, before.total + n)
  {
    assert (bills + [b])[..|bills|] == bills;
  }

  /** "present" is such a vote, whatever the bill's polarity. */
  lemma PresentCountsAsOpposed(votes: VoteRecord, bills: seq<Bill>, b: Bill)
    requires b.billId in votes && votes[b.billId] == "present"
    ensures var before := OverallTally(votes, bills);
      OverallTally(votes, bills + [b]) == Tally(before.aligned, before.opposed + 1, before.total + 1)
  {
    UnmatchedVoteCountsAsOpposed(votes, bills, b, Energy);
  }
}
