/**
 * The data preparation of the electoral-vote chart's `update`: every record
 * gets its winning party, records are grouped by winner, each group is
 * sorted by the winner's own percentage (strongest first), the groups are
 * laid out independent, democrat, republican, and the electoral votes are
 * totalled.
 */
module ElectoralVoteChart {
  import opened Parties

  /** A record after the classification loop: `party` is set, nothing else changes. */
  function Classified(rec: Record): (r: Record)
    ensures r.party == Some(WinnerOf(rec))
    ensures r.(party := rec.party) == rec
  {
    rec.(party := Some(WinnerOf(rec)))
  }

  function ClassifyAll(s: seq<Record>): seq<Record>
  {
    seq(|s|, k requires 0 <= k < |s| => Classified(s[k]))
  }

  /**
   * The group the classification loop builds for party `p`: the records `p`
   * wins, classified, in input order.
   */
  function Bucket(s: seq<Record>, p: Party): (b: seq<Record>)
    ensures |b| <= |s|
  {
    if s == [] then []
    else
      var last := s[|s| - 1];
      Bucket(s[..|s| - 1], p) + (if WinnerOf(last) == p then [Classified(last)] else [])
  }

  /**
   * The classification loop (the second `forEach`): writes each record's
   * `Party` in place and pushes the record onto the group of its winner.
   */
  method Classify(electionResult: array<Record>)
    returns (republican: seq<Record>, democrat: seq<Record>, independent: seq<Record>)
    modifies electionResult
    ensures electionResult[..] == ClassifyAll(old(electionResult[..]))
    ensures republican == Bucket(old(electionResult[..]), R)
    ensures democrat == Bucket(old(electionResult[..]), D)
    ensures independent == Bucket(old(electionResult[..]), I)
  {
    ghost var s := electionResult[..];
    republican, democrat, independent := [], [], [];
    var i := 0;
    while i < electionResult.Length
      invariant 0 <= i <= electionResult.Length
      invariant electionResult[..i] == ClassifyAll(s[..i])
      invariant electionResult[i..] == s[i..]
      invariant republican == Bucket(s[..i], R)
      invariant democrat == Bucket(s[..i], D)
      invariant independent == Bucket(s[..i], I)
    {
      var d := electionResult[i];
      assert d == s[i];
      assert s[..i + 1][..i] == s[..i];
      var max := Max3(d.rPercentage, d.dPercentage, d.iPercentage);
      if d.rPercentage == max {
        d := d.(party := Some(R));
        republican := republican + [d];
      } else if d.dPercentage == max {
        d := d.(party := Some(D));
        democrat := democrat + [d];
      } else {
        d := d.(party := Some(I));
        independent := independent + [d];
      }
      electionResult[i] := d;
      i := i + 1;
    }
    assert s[..i] == s;
  }

  /** Every record pushed onto party `p`'s group carries party `p`. */
  lemma {:induction false} BucketCarriesParty(s: seq<Record>, p: Party)
    ensures forall x :: x in Bucket(s, p) ==> x.party == Some(p)
  {
    if s != [] {
      BucketCarriesParty(s[..|s| - 1], p);
    }
  }

  /** Every record lands in exactly one group: the group of its winner. */
  lemma {:induction false} BucketMembership(s: seq<Record>, k: nat, p: Party)
    requires k < |s|
    ensures Classified(s[k]) in Bucket(s, p) <==> WinnerOf(s[k]) == p
  {
    BucketCarriesParty(s, p);
    var n := |s| - 1;
    if k < n {
      assert s[..n][k] == s[k];
      BucketMembership(s[..n], k, p);
    }
  }

  /** The three group lengths add up to the number of records. */
  lemma {:induction false} BucketSizes(s: seq<Record>)
    ensures |Bucket(s, R)| + |Bucket(s, D)| + |Bucket(s, I)| == |s|
  {
    if s != [] {
      BucketSizes(s[..|s| - 1]);
    }
  }

  lemma ClassifyAllSnoc(s: seq<Record>)
    requires s != []
    ensures ClassifyAll(s) == ClassifyAll(s[..|s| - 1]) + [Classified(s[|s| - 1])]
  {
  }

  /** Together, the three groups hold exactly the classified records. */
  lemma {:induction false} BucketsPartition(s: seq<Record>)
    ensures multiset(Bucket(s, I)) + multiset(Bucket(s, D)) + multiset(Bucket(s, R))
         == multiset(ClassifyAll(s))
  {
    if s != [] {
      var n := |s| - 1;
      var c := Classified(s[n]);
      BucketsPartition(s[..n]);
      ClassifyAllSnoc(s);
      var before := multiset(Bucket(s[..n], I)) + multiset(Bucket(s[..n], D)) + multiset(Bucket(s[..n], R));
      BucketGrows(s, I);
      BucketGrows(s, D);
      BucketGrows(s, R);
      assert multiset(Bucket(s, I)) + multiset(Bucket(s, D)) + multiset(Bucket(s, R)) == before + multiset{c};
    }
  }

  /** The last record adds itself, classified, to its winner's group and to no other. */
  lemma BucketGrows(s: seq<Record>, p: Party)
    requires s != []
    ensures multiset(Bucket(s, p)) == multiset(Bucket(s[..|s| - 1], p))
      + (if WinnerOf(s[|s| - 1]) == p then multiset{Classified(s[|s| - 1])} else multiset{})
  {
  }


  /** A sequence ordered by party `p`'s percentage, largest first. */
  ghost predicate NonIncreasing(s: seq<Record>, p: Party)
  {
    forall i, j :: 0 <= i < j < |s| ==> Percentage(s[j], p) <= Percentage(s[i], p)
  }

  /** Putting in front an element no smaller than the rest keeps the order. */
  lemma PrependKeepsOrder(y: Record, t: seq<Record>, p: Party)
    requires NonIncreasing(t, p)
    requires forall z :: z in t ==> Percentage(z, p) <= Percentage(y, p)
    ensures NonIncreasing([y] + t, p)
  {
    var u := [y] + t;
    forall i, j | 0 <= i < j < |u| ensures Percentage(u[j], p) <= Percentage(u[i], p) {
      assert u[j] == t[j - 1];
      if i > 0 {
        assert u[i] == t[i - 1];
      }
    }
  }

  /**
   * Inserts `x` before the first element whose percentage is not larger, so
   * that `x` precedes the equal elements that come after it in the input.
   */
  function InsertByShare(x: Record, s: seq<Record>, p: Party): (r: seq<Record>)
    requires NonIncreasing(s, p)
    ensures NonIncreasing(r, p)
    ensures multiset(r) == multiset(s) + multiset{x}
  {
    if s == [] then [x]
    else if Percentage(s[0], p) <= Percentage(x, p) then
      PrependKeepsOrder(x, s, p);
      [x] + s
    else
      assert s == [s[0]] + s[1..];
      var rest := InsertByShare(x, s[1..], p);
      InsertedBelowHead(x, s, p, rest);
      PrependKeepsOrder(s[0], rest, p);
      [s[0]] + rest
  }

  /**
   * When `x` goes after the head of a sorted `s`, everything in the insertion
   * into the tail is at most the head.
   */
  lemma InsertedBelowHead(x: Record, s: seq<Record>, p: Party, rest: seq<Record>)
    requires s != [] && NonIncreasing(s, p)
    requires Percentage(x, p) < Percentage(s[0], p)
    requires multiset(rest) == multiset(s[1..]) + multiset{x}
    ensures forall z :: z in rest ==> Percentage(z, p) <= Percentage(s[0], p)
  {
    forall z | z in rest ensures Percentage(z, p) <= Percentage(s[0], p) {
      assert z in multiset(rest);
      if z != x {
        assert z in multiset(s[1..]);
        var k :| 0 <= k < |s[1..]| && s[1..][k] == z;
        assert s[k + 1] == z;
      }
    }
  }

  /**
   * `group.sort((a, b) => b.P - a.P)`: a stable sort by party `p`'s
   * percentage, descending.
   */
  function SortByShare(s: seq<Record>, p: Party): (r: seq<Record>)
    ensures NonIncreasing(r, p)
    ensures multiset(r) == multiset(s)
  {
    if s == [] then []
    else
      assert s == [s[0]] + s[1..];
      InsertByShare(s[0], SortByShare(s[1..], p), p)
  }

  /** `[].concat(independent, democrat, republican)` after the three sorts. */
  function Order(s: seq<Record>): seq<Record>
  {
    SortByShare(Bucket(s, I), I) + SortByShare(Bucket(s, D), D) + SortByShare(Bucket(s, R), R)
  }

  /** Position of a classified record's group in the chart, left to right. */
  function Rank(rec: Record): nat
  {
    match rec.party
    case Some(I) => 0
    case Some(D) => 1
    case Some(R) => 2
    case None => 3
  }

  /** The chart's records are the classified input, reordered. */
  lemma OrderIsPermutation(s: seq<Record>)
    ensures multiset(Order(s)) == multiset(ClassifyAll(s))
    ensures |Order(s)| == |s|
  {
    BucketsPartition(s);
    assert |ClassifyAll(s)| == |s|;
    assert |multiset(Order(s))| == |multiset(ClassifyAll(s))|;
  }

  /** A sorted group whose records all carry party `p`. */
  ghost predicate Group(g: seq<Record>, p: Party)
  {
    NonIncreasing(g, p) && forall x :: x in g ==> x.party == Some(p)
  }

  lemma SortedBucketIsGroup(s: seq<Record>, p: Party)
    ensures Group(SortByShare(Bucket(s, p), p), p)
  {
    var g := SortByShare(Bucket(s, p), p);
    BucketCarriesParty(s, p);
    forall x | x in g ensures x.party == Some(p) {
      assert x in multiset(g);
      assert x in multiset(Bucket(s, p));
    }
  }

  /** Records of a lower rank come first. */
  ghost predicate RankOrdered(o: seq<Record>)
  {
    forall i, j :: 0 <= i < j < |o| ==> Rank(o[i]) <= Rank(o[j])
  }

  /** Two records of the same party are ordered by that party's percentage, largest first. */
  ghost predicate SortedWithinParty(o: seq<Record>)
  {
    forall i, j :: 0 <= i < j < |o| && o[i].party == o[j].party && o[i].party.Some?
      ==> Percentage(o[j], o[i].party.value) <= Percentage(o[i], o[i].party.value)
  }

  /** Ordering facts about the concatenation of three groups, read block by block. */
  lemma ConcatOfGroups(o: seq<Record>, gi: seq<Record>, gd: seq<Record>, gr: seq<Record>)
    requires Group(gi, I) && Group(gd, D) && Group(gr, R)
    requires o == gi + gd + gr
    ensures RankOrdered(o) && SortedWithinParty(o)
  {
    var a, b := |gi|, |gi| + |gd|;
    assert forall k :: 0 <= k < a ==> o[k] == gi[k] && o[k].party == Some(I);
    assert forall k :: a <= k < b ==> o[k] == gd[k - a] && o[k].party == Some(D);
    assert forall k :: b <= k < |o| ==> o[k] == gr[k - b] && o[k].party == Some(R);
  }

  /**
   * Independent winners come first, then democrat winners, then republican
   * winners; inside a group the winner's percentage does not increase.
   */
  lemma OrderIsGrouped(s: seq<Record>)
    ensures RankOrdered(Order(s)) && SortedWithinParty(Order(s))
  {
    var gi, gd, gr := SortByShare(Bucket(s, I), I), SortByShare(Bucket(s, D), D), SortByShare(Bucket(s, R), R);
    SortedBucketIsGroup(s, I);
    SortedBucketIsGroup(s, D);
    SortedBucketIsGroup(s, R);
    ConcatOfGroups(Order(s), gi, gd, gr);
  }

  /** Electoral votes of a sequence of records, summed left to right (d3.sum). */
  function SumEV(s: seq<Record>): nat
  {
    if s == [] then 0 else SumEV(s[..|s| - 1]) + s[|s| - 1].totalEV
  }

  lemma {:induction false} SumEVAppend(a: seq<Record>, b: seq<Record>)
    ensures SumEV(a + b) == SumEV(a) + SumEV(b)
  {
    if b == [] {
      assert a + b == a;
    } else {
      assert (a + b)[..|a + b| - 1] == a + b[..|b| - 1];
      assert (a + b)[|a + b| - 1] == b[|b| - 1];
      SumEVAppend(a, b[..|b| - 1]);
    }
  }

  /** A record in the middle of a sequence adds its electoral votes to the sum of the rest. */
  lemma SumEVMiddle(front: seq<Record>, x: Record, back: seq<Record>)
    ensures SumEV(front + [x] + back) == SumEV(front + back) + x.totalEV
  {
    SumEVAppend(front + [x], back);
    SumEVAppend(front, back);
    assert (front + [x])[..|front|] == front;
  }

  /** Taking the same record out of two permutations of each other leaves permutations. */
  lemma RemoveKeepsPermutation(a: seq<Record>, b: seq<Record>, k: nat)
    requires multiset(a) == multiset(b)
    requires a != [] && k < |b| && b[k] == a[|a| - 1]
    ensures multiset(a[..|a| - 1]) == multiset(b[..k] + b[k + 1..])
  {
    var n, x, rest := |a| - 1, b[k], b[..k] + b[k + 1..];
    assert a == a[..n] + [x];
    assert b == b[..k] + [x] + b[k + 1..];
    assert multiset(a[..n]) + multiset{x} == multiset(rest) + multiset{x};
    forall y ensures multiset(a[..n])[y] == multiset(rest)[y] {
      assert (multiset(a[..n]) + multiset{x})[y] == (multiset(rest) + multiset{x})[y];
    }
  }

  /** Reordering records does not change their electoral-vote total. */
  lemma {:induction false} SumEVPermutation(a: seq<Record>, b: seq<Record>)
    requires multiset(a) == multiset(b)
    ensures SumEV(a) == SumEV(b)
  {
    if a != [] {
      var n := |a| - 1;
      assert a[n] in multiset(b) by {
        assert a[n] in multiset(a);
      }
      var k :| 0 <= k < |b| && b[k] == a[n];
      RemoveKeepsPermutation(a, b, k);
      SumEVPermutation(a[..n], b[..k] + b[k + 1..]);
      SumEVMiddle(b[..k], b[k], b[k + 1..]);
      assert b == b[..k] + [b[k]] + b[k + 1..];
    }
  }

  /** Classification leaves the electoral votes alone. */
  lemma {:induction false} SumEVClassifyAll(s: seq<Record>)
    ensures SumEV(ClassifyAll(s)) == SumEV(s)
  {
    if s != [] {
      var n := |s| - 1;
      assert ClassifyAll(s)[..n] == ClassifyAll(s[..n]);
      SumEVClassifyAll(s[..n]);
    }
  }

  /** The chart's electoral-vote total is the input's total. */
  lemma TotalIsInputTotal(s: seq<Record>)
    ensures SumEV(Order(s)) == SumEV(s)
  {
    OrderIsPermutation(s);
    SumEVPermutation(Order(s), ClassifyAll(s));
    SumEVClassifyAll(s);
  }

  /** d3.sum over the records' electoral votes. */
  method TotalEV(data: seq<Record>) returns (total: nat)
    ensures total == SumEV(data)
  {
    total := 0;
    var i := 0;
    while i < |data|
      invariant 0 <= i <= |data|
      invariant total == SumEV(data[..i])
    {
      assert data[..i + 1][..i] == data[..i];
      total := total + data[i].totalEV;
      i := i + 1;
    }
    assert data[..i] == data;
  }

  /**
   * The data part of `update`: classify in place, group, sort each group,
   * concatenate independent, democrat, republican, and total the electoral
   * votes.
   */
  method Update(electionResult: array<Record>) returns (data: seq<Record>, total: nat)
    modifies electionResult
    ensures electionResult[..] == ClassifyAll(old(electionResult[..]))
    ensures data == Order(old(electionResult[..]))
    ensures total == SumEV(data) == SumEV(old(electionResult[..]))
  {
    ghost var s := electionResult[..];
    var republican, democrat, independent := Classify(electionResult);
    republican := SortByShare(republican, R);
    democrat := SortByShare(democrat, D);
    independent := SortByShare(independent, I);
    data := independent + democrat + republican;
    total := TotalEV(data);
    TotalIsInputTotal(s);
  }
}
