/** The policy-area breakdown of the campaign-finance view (the loop at
    resist.py:1286-1302 inside `main`): each contribution's amount is
    split equally among its interests; an interest that is not a policy
    key ("general") goes to the "other" bucket. Unlike the correlator,
    this rule conserves money. */
module ProRata {
  import opened Taxonomy
  import opened Classifier

  /** A key of `policy_contributions`: a policy area or "other". */
  datatype Bucket = Policy(category: Category) | Other

  /** The keys of `policy_contributions`, in insertion order. */
  const Buckets: seq<Bucket> := [
    Policy(Economy), Policy(Immigration), Policy(Healthcare), Policy(Education),
    Policy(Energy), Policy(Defense), Policy(Judiciary), Policy(Elections), Other]

  lemma BucketsListEveryBucketOnce()
    ensures forall b: Bucket :: b in Buckets
    ensures forall i, j :: 0 <= i < j < |Buckets| ==> Buckets[i] != Buckets[j]
  {
    forall b: Bucket ensures b in Buckets {
      match b
      case Other => assert Buckets[8] == b;
      case Policy(c) =>
        match c
        case Economy => assert Buckets[0] == b;
        case Immigration => assert Buckets[1] == b;
        case Healthcare => assert Buckets[2] == b;
        case Education => assert Buckets[3] == b;
        case Energy => assert Buckets[4] == b;
        case Defense => assert Buckets[5] == b;
        case Judiciary => assert Buckets[6] == b;
        case Elections => assert Buckets[7] == b;
    }
  }

  /** The running totals per bucket. */
  type Breakdown = map<Bucket, real>

  ghost predicate Complete(m: Breakdown) {
    forall b: Bucket :: b in m
  }

  /** All buckets at 0 (resist.py:1286-1287). */
  function Zero(): (m: Breakdown)
    ensures Complete(m)
  {
    BucketsListEveryBucketOnce();
    map b | b in Buckets :: 0.0
  }

  /** Where an interest's share goes: its area's bucket, "other" for
      "general". */
  function BucketOf(i: Interest): Bucket {
    match i
    case Area(c) => Policy(c)
    case General => Other
  }

  /** The inner loop: `share` added to the bucket of each interest. */
  function Distribute(m: Breakdown, interests: seq<Interest>, share: real): (r: Breakdown)
    requires Complete(m)
    ensures Complete(r)
    decreases |interests|
  {
    if interests == [] then m
    else
      var d := Distribute(m, interests[..|interests| - 1], share);
      var b := BucketOf(interests[|interests| - 1]);
      d[b := d[b] + share]
  }

  /** One contribution: its amount split equally among its interests, or,
      if it has none, all of it to "other". */
  function AddContribution(m: Breakdown, interests: seq<Interest>, amount: real): (r: Breakdown)
    requires Complete(m)
    ensures Complete(r)
  {
    if |interests| > 0 then Distribute(m, interests, amount / |interests| as real)
    else m[Other := m[Other] + amount]
  }

  /** A contribution with the interests it is attributed to. */
  datatype Attributed = Attributed(interests: seq<Interest>, amount: real)

  /** The totals after the attributed contributions, in order. */
  function BreakdownOf(items: seq<Attributed>): (m: Breakdown)
    ensures Complete(m)
    decreases |items|
  {
    if items == [] then Zero()
    else
      var last := items[|items| - 1];
      AddContribution(BreakdownOf(items[..|items| - 1]), last.interests, last.amount)
  }

  /** The row built for each contribution at resist.py:1256-1263, with
      the columns "Contributor", "Amount" and "Employer" (the date is not
      used here). */
  datatype Row = Row(contributor: string, amount: real, employer: string)

  /** The intended attribution: each row classified by its own contributor
      and employer (as written, resist.py:1290 classifies every row as
      "general"; see `AsWrittenItems`). */
  function Classified(rows: seq<Row>): (items: seq<Attributed>)
    ensures |items| == |rows|
    ensures forall i :: 0 <= i < |rows| ==>
      items[i] == Attributed(DonorInterests(rows[i].contributor, rows[i].employer), rows[i].amount)
  {
    seq(|rows|, i requires 0 <= i < |rows| => Attributed(DonorInterests(rows[i].contributor, rows[i].employer), rows[i].amount))
  }

  /** The breakdown the view intends to show. */
  function PolicyContributions(rows: seq<Row>): Breakdown {
    BreakdownOf(Classified(rows))
  }

  /** The body of the loop for one contribution (resist.py:1293-1302):
      the amount divided by the number of interests, that share added to
      the bucket of each interest. */
  method AddShares(m: Breakdown, interests: seq<Interest>, amount: real) returns (r: Breakdown)
    requires Complete(m)
    ensures r == AddContribution(m, interests, amount)
  {
    if |interests| > 0 {
      var share := amount / |interests| as real;
      r := m;
      for j := 0 to |interests|
        invariant Complete(r)
        invariant r == Distribute(m, interests[..j], share)
      {
        assert interests[..j + 1][..j] == interests[..j];
        var b := BucketOf(interests[j]);
        r := r[b := r[b] + share];
      }
      assert interests[..|interests|] == interests;
    } else {
      r := m[Other := m[Other] + amount];
    }
  }

  /** The loop at resist.py:1289-1302 with the classifier call as intended:
      the row's own contributor and employer are classified. As written,
      the call finds neither field; `PolicyContributionsAsWritten` is that
      loop. */
  method ProRataBreakdown(rows: seq<Row>) returns (m: Breakdown)
    ensures m == PolicyContributions(rows)
  {
    m := Zero();
    ghost var items := Classified(rows);
    for i := 0 to |rows|
      invariant m == BreakdownOf(items[..i])
    {
      BreakdownStep(items, i);
      var interests := MapDonorInterests(rows[i].contributor, rows[i].employer);
      m := AddShares(m, interests, rows[i].amount);
    }
    assert items[..|rows|] == items;
  }

  lemma BreakdownStep(items: seq<Attributed>, i: nat)
    requires i < |items|
    ensures BreakdownOf(items[..i + 1]) == AddContribution(BreakdownOf(items[..i]), items[i].interests, items[i].amount)
  {
    assert items[..i + 1][..i] == items[..i];
  }

  /** Every row is attributed, with its own amount, to a non-empty list of
      distinct interests naming exactly the areas its contributor or
      employer mentions, or to "general" alone when it mentions none. */
  lemma ClassifiedInterests(rows: seq<Row>)
    ensures |Classified(rows)| == |rows|
    ensures forall i :: 0 <= i < |rows| ==>
      var item, row := Classified(rows)[i], rows[i];
      && item.amount == row.amount
      && |item.interests| >= 1
      && (forall j, k :: 0 <= j < k < |item.interests| ==> item.interests[j] != item.interests[k])
      && (forall c :: Area(c) in item.interests <==> Mentions(c, row.contributor, row.employer))
      && (item.interests == [General] <==> forall c :: !Mentions(c, row.contributor, row.employer))
  {
    forall i | 0 <= i < |rows|
      ensures var item, row := Classified(rows)[i], rows[i];
        && item.amount == row.amount
        && |item.interests| >= 1
        && (forall j, k :: 0 <= j < k < |item.interests| ==> item.interests[j] != item.interests[k])
        && (forall c :: Area(c) in item.interests <==> Mentions(c, row.contributor, row.employer))
        && (item.interests == [General] <==> forall c :: !Mentions(c, row.contributor, row.employer))
    {
      DonorInterestsMembership(rows[i].contributor, rows[i].employer);
      DonorInterestsOrdered(rows[i].contributor, rows[i].employer);
    }
  }

  /** Σ of the buckets listed in `bs`. */
  function SumOver(m: Breakdown, bs: seq<Bucket>): real
    requires forall b :: b in bs ==> b in m
    decreases |bs|
  {
    if bs == [] then 0.0 else SumOver(m, bs[..|bs| - 1]) + m[bs[|bs| - 1]]
  }

  /** The sum over all nine buckets. */
  function Total(m: Breakdown): real
    requires Complete(m)
  {
    BucketsListEveryBucketOnce();
    SumOver(m, Buckets)
  }

  function AmountSum(items: seq<Attributed>): real
    decreases |items|
  {
    if items == [] then 0.0 else AmountSum(items[..|items| - 1]) + items[|items| - 1].amount
  }

  /** Adding `x` to one listed bucket adds `x` to the sum, when no bucket
      is listed twice. */
  lemma {:induction false} SumOverUpdate(m: Breakdown, bs: seq<Bucket>, b: Bucket, x: real)
    requires forall k :: k in bs ==> k in m
    requires b in m
    requires forall i, j :: 0 <= i < j < |bs| ==> bs[i] != bs[j]
    ensures SumOver(m[b := m[b] + x], bs) == SumOver(m, bs) + (if b in bs then x else 0.0)
    decreases |bs|
  {
    if bs != [] {
      var init := bs[..|bs| - 1];
      assert forall k :: k in init ==> k in bs;
      SumOverUpdate(m, init, b, x);
      assert forall k :: k in bs <==> k in init || k == bs[|bs| - 1];
      if bs[|bs| - 1] == b {
        assert b !in init by {
          forall i | 0 <= i < |init| ensures init[i] != b { assert bs[i] != bs[|bs| - 1]; }
        }
      }
    }
  }

  lemma TotalUpdate(m: Breakdown, b: Bucket, x: real)
    requires Complete(m)
    ensures Total(m[b := m[b] + x]) == Total(m) + x
  {
    BucketsListEveryBucketOnce();
    SumOverUpdate(m, Buckets, b, x);
  }

  lemma {:induction false} DistributeTotal(m: Breakdown, interests: seq<Interest>, share: real)
    requires Complete(m)
    ensures Total(Distribute(m, interests, share)) == Total(m) + |interests| as real * share
    decreases |interests|
  {
    if interests != [] {
      var init := interests[..|interests| - 1];
      DistributeTotal(m, init, share);
      var d, b := Distribute(m, init, share), BucketOf(interests[|interests| - 1]);
      assert Distribute(m, interests, share) == d[b := d[b] + share];
      TotalUpdate(d, b, share);
      assert (|init| as real + 1.0) * share == |init| as real * share + share;
    }
  }

  /** One contribution adds exactly its amount to the total. */
  lemma AddContributionTotal(m: Breakdown, interests: seq<Interest>, amount: real)
    requires Complete(m)
    ensures Total(AddContribution(m, interests, amount)) == Total(m) + amount
  {
    if |interests| > 0 {
      var k := |interests| as real;
      DistributeTotal(m, interests, amount / k);
      assert k * (amount / k) == amount;
    } else {
      TotalUpdate(m, Other, amount);
    }
  }

  lemma ZeroTotal()
    ensures Total(Zero()) == 0.0
  {
    BucketsListEveryBucketOnce();
    ZeroSumOver(Buckets);
  }

  lemma {:induction false} ZeroSumOver(bs: seq<Bucket>)
    requires forall b :: b in bs ==> b in Zero()
    ensures SumOver(Zero(), bs) == 0.0
    decreases |bs|
  {
    if bs != [] {
      var init := bs[..|bs| - 1];
      assert forall k :: k in init ==> k in bs;
      ZeroSumOver(init);
    }
  }

  /** Money is conserved: the buckets add up to the sum of the amounts,
      whatever the interests. */
  lemma {:induction false} MoneyConserved(items: seq<Attributed>)
    ensures Total(BreakdownOf(items)) == AmountSum(items)
    decreases |items|
  {
    if items == [] {
      ZeroTotal();
    } else {
      var init, last := items[..|items| - 1], items[|items| - 1];
      MoneyConserved(init);
      AddContributionTotal(BreakdownOf(init), last.interests, last.amount);
    }
  }

  /** How many of the interests fall in bucket `b`. */
  function Hits(interests: seq<Interest>, b: Bucket): nat
    decreases |interests|
  {
    if interests == [] then 0
    else Hits(interests[..|interests| - 1], b) + (if BucketOf(interests[|interests| - 1]) == b then 1 else 0)
  }

  /** Each bucket receives one share per interest that falls in it. */
  lemma {:induction false} DistributeAt(m: Breakdown, interests: seq<Interest>, share: real, b: Bucket)
    requires Complete(m)
    ensures Distribute(m, interests, share)[b] == m[b] + Hits(interests, b) as real * share
    decreases |interests|
  {
    if interests != [] {
      DistributeAt(m, interests[..|interests| - 1], share, b);
      var k := Hits(interests[..|interests| - 1], b) as real;
      assert (k + 1.0) * share == k * share + share;
    }
  }

  /** Without repeated interests, a bucket is hit once if one of the
      interests falls in it and never otherwise. */
  lemma {:induction false} HitsOfDistinct(interests: seq<Interest>, b: Bucket)
    requires forall i, j :: 0 <= i < j < |interests| ==> interests[i] != interests[j]
    ensures Hits(interests, b) == if exists x :: x in interests && BucketOf(x) == b then 1 else 0
    decreases |interests|
  {
    if interests != [] {
      var init, last := interests[..|interests| - 1], interests[|interests| - 1];
      HitsOfDistinct(init, b);
      assert forall x :: x in interests <==> x in init || x == last;
      if BucketOf(last) == b {
        forall x | x in init ensures BucketOf(x) != b {
          var i :| 0 <= i < |init| && init[i] == x;
          assert interests[i] != last;
        }
      }
    }
  }

  /** Split among distinct interests: each area among them receives an
      equal share, and "other" receives one share if "general" is among
      them. */
  lemma SplitAmongDistinct(m: Breakdown, interests: seq<Interest>, amount: real)
    requires Complete(m) && |interests| > 0
    requires forall i, j :: 0 <= i < j < |interests| ==> interests[i] != interests[j]
    ensures var r, share := AddContribution(m, interests, amount), amount / |interests| as real;
      && (forall c :: r[Policy(c)] == m[Policy(c)] + (if Area(c) in interests then share else 0.0))
      && r[Other] == m[Other] + (if General in interests then share else 0.0)
  {
    var share := amount / |interests| as real;
    forall b ensures Distribute(m, interests, share)[b] == m[b] + Hits(interests, b) as real * share {
      DistributeAt(m, interests, share, b);
    }
    forall b ensures Hits(interests, b) == if exists x :: x in interests && BucketOf(x) == b then 1 else 0 {
      HitsOfDistinct(interests, b);
    }
    forall c ensures (exists x :: x in interests && BucketOf(x) == Policy(c)) <==> Area(c) in interests {
      if exists x :: x in interests && BucketOf(x) == Policy(c) {
        var x :| x in interests && BucketOf(x) == Policy(c);
        assert x == Area(c);
      }
    }
    if exists x :: x in interests && BucketOf(x) == Other {
      var x :| x in interests && BucketOf(x) == Other;
      assert x == General;
    }
  }

  /** The intended rule for one row: every area the contributor or
      employer mentions receives an equal share of the amount, every other
      area nothing, and "other" receives the whole amount exactly when no
      area is mentioned. */
  lemma RowShares(m: Breakdown, contributor: string, employer: string, amount: real)
    requires Complete(m)
    ensures var interests := DonorInterests(contributor, employer);
            var r := AddContribution(m, interests, amount);
      && (forall c :: r[Policy(c)] == m[Policy(c)] + (if Mentions(c, contributor, employer) then amount / |interests| as real else 0.0))
      && r[Other] == m[Other] + (if interests == [General] then amount else 0.0)
  {
    var interests := DonorInterests(contributor, employer);
    DonorInterestsMembership(contributor, employer);
    DonorInterestsOrdered(contributor, employer);
    SplitAmongDistinct(m, interests, amount);
  }

  /** `row.get(key, "")` on a row of the dataframe: only the row's own
      columns are found. */
  function RowGet(row: Row, key: string): string {
    if key == "Contributor" then row.contributor
    else if key == "Employer" then row.employer
    else ""
  }

  /** The breakdown as written at resist.py:1290: the classifier looks up
      the keys "contributor_name" and "contributor_employer" (resist.py:912-913)
      in a row whose columns are "Contributor" and "Employer", so both
      lookups fall back to "". */
  function AsWrittenItems(rows: seq<Row>): seq<Attributed> {
    seq(|rows|, i requires 0 <= i < |rows| =>
      Attributed(DonorInterests(RowGet(rows[i], "contributor_name"), RowGet(rows[i], "contributor_employer")), rows[i].amount))
  }

  function PolicyContributionsAsWritten(rows: seq<Row>): Breakdown {
    BreakdownOf(AsWrittenItems(rows))
  }

  function RowAmounts(rows: seq<Row>): real
    decreases |rows|
  {
    if rows == [] then 0.0 else RowAmounts(rows[..|rows| - 1]) + rows[|rows| - 1].amount
  }

  /** Contributions attributed to "general" alone leave every policy area
      at 0 and put all of their money in "other". */
  lemma {:induction false} AllGeneralGoesToOther(items: seq<Attributed>)
    requires forall i :: 0 <= i < |items| ==> items[i].interests == [General]
    ensures forall c :: BreakdownOf(items)[Policy(c)] == 0.0
    ensures BreakdownOf(items)[Other] == AmountSum(items)
    decreases |items|
  {
    if items == [] {
      BucketsListEveryBucketOnce();
    } else {
      var init, last := items[..|items| - 1], items[|items| - 1];
      AllGeneralGoesToOther(init);
      var m0 := BreakdownOf(init);
      assert BreakdownOf(items) == AddContribution(m0, [General], last.amount);
      SplitAmongDistinct(m0, [General], last.amount);
      assert forall c :: Area(c) !in [General];
    }
  }

  /** As written, every row is attributed to "general" alone. */
  lemma AsWrittenItemsAreGeneral(rows: seq<Row>)
    ensures |AsWrittenItems(rows)| == |rows|
    ensures forall i :: 0 <= i < |rows| ==> AsWrittenItems(rows)[i] == Attributed([General], rows[i].amount)
  {
    forall i | 0 <= i < |rows| ensures AsWrittenItems(rows)[i] == Attributed([General], rows[i].amount) {
      var contributor, employer := RowGet(rows[i], "contributor_name"), RowGet(rows[i], "contributor_employer");
      assert contributor == "" && employer == "";
      EmptyFieldsAreGeneral(contributor, employer);
    }
  }

  lemma {:induction false} RowAmountsOfItems(rows: seq<Row>, items: seq<Attributed>)
    requires |items| == |rows|
    requires forall i :: 0 <= i < |rows| ==> items[i].amount == rows[i].amount
    ensures AmountSum(items) == RowAmounts(rows)
    decreases |rows|
  {
    if rows != [] {
      RowAmountsOfItems(rows[..|rows| - 1], items[..|items| - 1]);
    }
  }

  /** As written, every policy area shows 0 and "other" shows all the
      money, whatever the contributors and employers are. */
  lemma AsWrittenAllToOther(rows: seq<Row>)
    ensures forall c :: PolicyContributionsAsWritten(rows)[Policy(c)] == 0.0
    ensures PolicyContributionsAsWritten(rows)[Other] == RowAmounts(rows)
  {
    var items := AsWrittenItems(rows);
    AsWrittenItemsAreGeneral(rows);
    AllGeneralGoesToOther(items);
    RowAmountsOfItems(rows, items);
  }

  lemma SingleItemBreakdown(item: Attributed)
    ensures BreakdownOf([item]) == AddContribution(Zero(), item.interests, item.amount)
  {
    assert [item][..0] == [];
  }

  /** A mentioned area's bucket grows by a positive amount. */
  lemma MentionedAreaGrows(m: Breakdown, contributor: string, employer: string, amount: real, c: Category)
    requires Complete(m) && amount > 0.0 && Mentions(c, contributor, employer)
    ensures AddContribution(m, DonorInterests(contributor, employer), amount)[Policy(c)] > m[Policy(c)]
  {
    RowShares(m, contributor, employer, amount);
    DonorInterestsOrdered(contributor, employer);
    assert amount / |DonorInterests(contributor, employer)| as real > 0.0;
  }

  /** The intended rule credits a mentioned area with part of a positive
      amount. */
  lemma IntendedCreditsMentionedArea(row: Row, c: Category)
    requires row.amount > 0.0 && Mentions(c, row.contributor, row.employer)
    ensures PolicyContributions([row])[Policy(c)] > 0.0
  {
    var item := Attributed(DonorInterests(row.contributor, row.employer), row.amount);
    assert Classified([row]) == [item];
    SingleItemBreakdown(item);
    MentionedAreaGrows(Zero(), row.contributor, row.employer, row.amount, c);
    assert Zero()[Policy(c)] == 0.0 by { BucketsListEveryBucketOnce(); }
  }

  /** The input that shows it: any row of positive amount whose contributor
      or employer mentions an area, such as an oil-industry donor, is
      credited to that area by the intended rule but to "other" as
      written. */
  lemma AsWrittenLosesMentionedArea(row: Row, c: Category)
    requires row.amount > 0.0 && Mentions(c, row.contributor, row.employer)
    ensures PolicyContributions([row])[Policy(c)] > 0.0
    ensures PolicyContributionsAsWritten([row])[Policy(c)] == 0.0
  {
    IntendedCreditsMentionedArea(row, c);
    AsWrittenAllToOther([row]);
  }
}
