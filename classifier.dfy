/** The donor keyword classifier (`map_donor_interests_to_project2025`,
    resist.py:907-954, and its inline copy at resist.py:669-706): a
    contributor is interested in a policy area when one of the area's
    keywords occurs in the lower-cased contributor name or employer. */
module Classifier {
  import opened Taxonomy
  import opened Text

  /** A classifier label: one of the eight policy areas, or the fallback
      "general". */
  datatype Interest = Area(category: Category) | General

  /** `any(word in contributor or word in employer for word in keywords)`
      over already lower-cased fields. */
  function AnyKeyword(keywords: seq<string>, contributor: string, employer: string): (b: bool)
    ensures b <==> exists k :: 0 <= k < |keywords| && (Contains(contributor, keywords[k]) || Contains(employer, keywords[k]))
  {
    if keywords == [] then false
    else Contains(contributor, keywords[0]) || Contains(employer, keywords[0])
         || AnyKeyword(keywords[1..], contributor, employer)
  }

  /** The classifier's matching rule, stated on the raw fields: some
      keyword of the area is a substring of the lower-cased contributor or
      of the lower-cased employer. */
  ghost predicate Mentions(c: Category, contributor: string, employer: string) {
    exists w :: w in Keywords(c) && (Contains(Lower(contributor), w) || Contains(Lower(employer), w))
  }

  /** The areas among `cats` whose keywords match, in the order of `cats`. */
  function Matched(cats: seq<Category>, contributor: string, employer: string): seq<Interest>
    decreases |cats|
  {
    if cats == [] then []
    else
      var c := cats[|cats| - 1];
      Matched(cats[..|cats| - 1], contributor, employer)
        + (if AnyKeyword(Keywords(c), contributor, employer) then [Area(c)] else [])
  }

  /** The interests of a donor: the matching areas in classifier order, or
      exactly `["general"]` when none matches. */
  function DonorInterests(contributor: string, employer: string): seq<Interest> {
    var m := Matched(ClassifierOrder, Lower(contributor), Lower(employer));
    if m == [] then [General] else m
  }

  /** The eight if-blocks of the source, one per area in classifier order,
      each appending the area when its keywords match; then the fallback. */
  method MapDonorInterests(contributor: string, employer: string) returns (interests: seq<Interest>)
    ensures interests == DonorInterests(contributor, employer)
  {
    var lc, le := Lower(contributor), Lower(employer);
    interests := [];
    for k := 0 to |ClassifierOrder|
      invariant interests == Matched(ClassifierOrder[..k], lc, le)
    {
      var c := ClassifierOrder[k];
      assert ClassifierOrder[..k + 1][..k] == ClassifierOrder[..k];
      if AnyKeyword(Keywords(c), lc, le) {
        interests := interests + [Area(c)];
      }
    }
    assert ClassifierOrder[..|ClassifierOrder|] == ClassifierOrder;
    if interests == [] {
      interests := [General];
    }
  }

  predicate RankIncreasing(cats: seq<Category>) {
    forall i, j :: 0 <= i < j < |cats| ==> ClassifierRank(cats[i]) < ClassifierRank(cats[j])
  }

  /** An area is matched exactly when it is among `cats` and one of its
      keywords occurs; nothing else ever appears. */
  lemma {:induction false} MatchedMembership(cats: seq<Category>, contributor: string, employer: string)
    ensures forall x :: x in Matched(cats, contributor, employer) ==> x.Area? && x.category in cats
    ensures forall c :: Area(c) in Matched(cats, contributor, employer)
                    <==> c in cats && AnyKeyword(Keywords(c), contributor, employer)
    ensures |Matched(cats, contributor, employer)| <= |cats|
    decreases |cats|
  {
    if cats != [] {
      var init := cats[..|cats| - 1];
      MatchedMembership(init, contributor, employer);
      assert forall c :: c in cats <==> c in init || c == cats[|cats| - 1];
    }
  }

  /** `Matched` keeps the order of `cats`. */
  lemma {:induction false} MatchedOrdered(cats: seq<Category>, contributor: string, employer: string)
    requires RankIncreasing(cats)
    ensures var m := Matched(cats, contributor, employer);
      forall i, j :: 0 <= i < j < |m| ==>
        (m[i].Area? && m[j].Area? && ClassifierRank(m[i].category) < ClassifierRank(m[j].category))
    decreases |cats|
  {
    if cats != [] {
      var init := cats[..|cats| - 1];
      var last := cats[|cats| - 1];
      assert RankIncreasing(init);
      MatchedOrdered(init, contributor, employer);
      MatchedMembership(init, contributor, employer);
      forall x | x in Matched(init, contributor, employer)
        ensures x.Area? && ClassifierRank(x.category) < ClassifierRank(last)
      {
        var i :| 0 <= i < |init| && init[i] == x.category;
        assert cats[i] == x.category;
      }
    }
  }

  /** The computed keyword test is the matching rule. */
  lemma AnyKeywordIsMentions(c: Category, contributor: string, employer: string)
    ensures AnyKeyword(Keywords(c), Lower(contributor), Lower(employer)) <==> Mentions(c, contributor, employer)
  {
    var ks, lc, le := Keywords(c), Lower(contributor), Lower(employer);
    if AnyKeyword(ks, lc, le) {
      var k :| 0 <= k < |ks| && (Contains(lc, ks[k]) || Contains(le, ks[k]));
      assert ks[k] in ks;
    }
  }

  /** Membership: an area is among a donor's interests exactly when one of
      its keywords occurs in the lower-cased contributor name or employer;
      "general" is the whole result exactly when no area matched. */
  lemma DonorInterestsMembership(contributor: string, employer: string)
    ensures var r := DonorInterests(contributor, employer);
      && (forall c :: Area(c) in r <==> Mentions(c, contributor, employer))
      && (r == [General] <==> forall c :: !Mentions(c, contributor, employer))
      && (General in r ==> r == [General])
  {
    var lc, le := Lower(contributor), Lower(employer);
    var m := Matched(ClassifierOrder, lc, le);
    MatchedMembership(ClassifierOrder, lc, le);
    forall c ensures AnyKeyword(Keywords(c), lc, le) <==> Mentions(c, contributor, employer) {
      AnyKeywordIsMentions(c, contributor, employer);
    }
    OrdersListEveryCategoryOnce();
    if m != [] {
      assert m[0] in m;
      assert Mentions(m[0].category, contributor, employer);
    }
  }

  /** Order: the result is never empty, lists areas in classifier order
      and so repeats none, and has at most eight entries. */
  lemma DonorInterestsOrdered(contributor: string, employer: string)
    ensures var r := DonorInterests(contributor, employer);
      && 1 <= |r| <= |ClassifierOrder|
      && (|r| > 1 ==> forall i, j :: 0 <= i < j < |r| ==>
            (r[i].Area? && r[j].Area? && ClassifierRank(r[i].category) < ClassifierRank(r[j].category)))
      && (forall i, j :: 0 <= i < j < |r| ==> r[i] != r[j])
  {
    var lc, le := Lower(contributor), Lower(employer);
    var m := Matched(ClassifierOrder, lc, le);
    MatchedMembership(ClassifierOrder, lc, le);
    ClassifierOrderRanked();
    MatchedOrdered(ClassifierOrder, lc, le);
    assert DonorInterests(contributor, employer) == if m == [] then [General] else m;
  }

  lemma ClassifierOrderRanked()
    ensures RankIncreasing(ClassifierOrder)
  {
    forall i, j | 0 <= i < j < |ClassifierOrder|
      ensures ClassifierRank(ClassifierOrder[i]) < ClassifierRank(ClassifierOrder[j])
    {
      assert ClassifierRank(ClassifierOrder[i]) == i;
      assert ClassifierRank(ClassifierOrder[j]) == j;
    }
  }

  /** Two empty fields match no keyword, so they are "general". */
  lemma EmptyFieldsAreGeneral(contributor: string, employer: string)
    requires |contributor| == 0 && |employer| == 0
    ensures DonorInterests(contributor, employer) == [General]
  {
    DonorInterestsMembership(contributor, employer);
    forall c ensures !Mentions(c, contributor, employer) {
      KeywordsNonEmpty(c);
    }
  }
}
