/**
 * The popular-vote chart: the national vote totals per party, one bar
 * segment per party laid out left to right (independent, democrat,
 * republican) as percentages of the total, the label anchors, and the
 * chart's tooltip text.
 */
module VotePercentageChart {
  import opened Parties
  import opened Tooltip

  /** Votes for party `p` summed over the records, left to right. */
  function SumVotes(s: seq<Record>, p: Party): nat
  {
    if s == [] then 0 else SumVotes(s[..|s| - 1], p) + Votes(s[|s| - 1], p)
  }

  /** The accumulation loop: `rVotes += +d.R_Votes` and so on, per record. */
  method VoteTotals(electionResult: seq<Record>) returns (rVotes: nat, dVotes: nat, iVotes: nat)
    ensures rVotes == SumVotes(electionResult, R)
    ensures dVotes == SumVotes(electionResult, D)
    ensures iVotes == SumVotes(electionResult, I)
  {
    rVotes, dVotes, iVotes := 0, 0, 0;
    var i := 0;
    while i < |electionResult|
      invariant 0 <= i <= |electionResult|
      invariant rVotes == SumVotes(electionResult[..i], R)
      invariant dVotes == SumVotes(electionResult[..i], D)
      invariant iVotes == SumVotes(electionResult[..i], I)
    {
      var d := electionResult[i];
      assert electionResult[..i + 1][..i] == electionResult[..i];
      rVotes := rVotes + d.rVotes;
      dVotes := dVotes + d.dVotes;
      iVotes := iVotes + d.iVotes;
      i := i + 1;
    }
    assert electionResult[..i] == electionResult;
  }

  /** One bar segment: `{party: <class name>, votes: <total>}`. */
  datatype Segment = Segment(party: Party, votes: nat)

  /** `[].concat(ide, dem, rep)`. */
  function Bars(rVotes: nat, dVotes: nat, iVotes: nat): seq<Segment>
  {
    [Segment(I, iVotes), Segment(D, dVotes), Segment(R, rVotes)]
  }

  /** d3.sum over the segments' votes. */
  function Total(data: seq<Segment>): nat
  {
    if data == [] then 0 else Total(data[..|data| - 1]) + data[|data| - 1].votes
  }

  /** A segment's width, in percent of the bar: `votes / total * 100`. */
  function Width(seg: Segment, total: nat): real
    requires total > 0
  {
    seg.votes as real / total as real * 100.0
  }

  /** The widths of the segments, added up left to right. */
  function SumWidths(data: seq<Segment>, total: nat): real
    requires total > 0
  {
    if data == [] then 0.0 else SumWidths(data[..|data| - 1], total) + Width(data[|data| - 1], total)
  }

  /** Index of the first segment of party `p`. */
  function FirstIndex(data: seq<Segment>, p: Party): (k: Option<nat>)
    ensures k.Some? ==> k.value < |data| && data[k.value].party == p
    ensures k.Some? ==> forall j :: 0 <= j < k.value ==> data[j].party != p
    ensures k.None? ==> forall j :: 0 <= j < |data| ==> data[j].party != p
  {
    if data == [] then None
    else if data[0].party == p then Some(0)
    else match FirstIndex(data[1..], p)
      case Some(j) => Some(j + 1)
      case None => None
  }

  /** The x offset of the first segment of party `p`, if there is one. */
  function FirstOffset(data: seq<Segment>, p: Party, total: nat): Option<real>
    requires total > 0
  {
    match FirstIndex(data, p)
    case Some(k) => Some(SumWidths(data[..k], total))
    case None => None
  }

  /**
   * The `width` and `x` callbacks, run once per segment in order: each
   * segment starts where the previous ones end (`soFar`), and the first
   * democrat and first republican offsets are kept (`flagDe`, `flagRep`).
   */
  method Layout(data: seq<Segment>, total: nat)
    returns (widths: seq<real>, xs: seq<real>, xFirstDe: Option<real>, xFirstRep: Option<real>)
    requires total > 0
    ensures |widths| == |data| && |xs| == |data|
    ensures forall k :: 0 <= k < |data| ==> widths[k] == Width(data[k], total)
    ensures forall k :: 0 <= k < |data| ==> xs[k] == SumWidths(data[..k], total)
    ensures xFirstDe == FirstOffset(data, D, total)
    ensures xFirstRep == FirstOffset(data, R, total)
  {
    widths, xs := [], [];
    var soFar := 0.0;
    xFirstRep, xFirstDe := None, None;
    var flagRep, flagDe := true, true;
    var i := 0;
    while i < |data|
      invariant 0 <= i <= |data|
      invariant |widths| == i && |xs| == i
      invariant forall k :: 0 <= k < i ==> widths[k] == Width(data[k], total)
      invariant forall k :: 0 <= k < i ==> xs[k] == SumWidths(data[..k], total)
      invariant soFar == SumWidths(data[..i], total)
      invariant flagDe <==> forall k :: 0 <= k < i ==> data[k].party != D
      invariant flagDe ==> xFirstDe == None
      invariant !flagDe ==> FirstIndex(data, D).Some? && FirstIndex(data, D).value < i
                            && xFirstDe == Some(xs[FirstIndex(data, D).value])
      invariant flagRep <==> forall k :: 0 <= k < i ==> data[k].party != R
      invariant flagRep ==> xFirstRep == None
      invariant !flagRep ==> FirstIndex(data, R).Some? && FirstIndex(data, R).value < i
                             && xFirstRep == Some(xs[FirstIndex(data, R).value])
    {
      var d := data[i];
      widths := widths + [d.votes as real / total as real * 100.0];
      var prev := soFar;
      var current := d.votes as real / total as real * 100.0;
      soFar := soFar + current;
      if d.party == R && flagRep {
        xFirstRep := Some(prev);
        flagRep := false;
      }
      if d.party == D && flagDe {
        xFirstDe := Some(prev);
        flagDe := false;
      }
      xs := xs + [prev];
      assert data[..i + 1][..i] == data[..i];
      i := i + 1;
    }
  }

  /** The offsets in closed form: the share of the votes before a point, in percent. */
  lemma {:induction false} SumWidthsIsShare(data: seq<Segment>, total: nat)
    requires total > 0
    ensures SumWidths(data, total) == Total(data) as real / total as real * 100.0
  {
    if data != [] {
      var front := data[..|data| - 1];
      SumWidthsIsShare(front, total);
      PercentAdd(Total(front), data[|data| - 1].votes, total);
    }
  }

  /** Percentages of the same total add up like the votes they count. */
  lemma PercentAdd(a: nat, b: nat, total: nat)
    requires total > 0
    ensures a as real / total as real * 100.0 + b as real / total as real * 100.0
         == (a + b) as real / total as real * 100.0
  {
    var t := total as real;
    assert a as real / t + b as real / t == (a + b) as real / t;
  }

  /** A longer prefix holds at least as many votes. */
  lemma {:induction false} TotalOfPrefix(data: seq<Segment>, j: nat, k: nat)
    requires j <= k <= |data|
    ensures Total(data[..j]) <= Total(data[..k])
  {
    if j < k {
      assert data[..k][..k - 1] == data[..k - 1];
      TotalOfPrefix(data, j, k - 1);
    }
  }

  /** A percentage of the total grows with the votes it counts. */
  lemma PercentMonotone(a: nat, b: nat, total: nat)
    requires total > 0 && a <= b
    ensures a as real / total as real * 100.0 <= b as real / total as real * 100.0
  {
    var t := total as real;
    assert a as real / t <= b as real / t by {
      assert (b as real / t) - (a as real / t) == (b - a) as real / t;
    }
  }

  /** The first segment starts at 0 and no segment starts left of an earlier one. */
  lemma OffsetsNonDecreasing(data: seq<Segment>, total: nat, j: nat, k: nat)
    requires total > 0
    requires j <= k <= |data|
    ensures SumWidths(data[..0], total) == 0.0
    ensures SumWidths(data[..j], total) <= SumWidths(data[..k], total)
  {
    assert data[..0] == [];
    SumWidthsIsShare(data[..j], total);
    SumWidthsIsShare(data[..k], total);
    TotalOfPrefix(data, j, k);
    PercentMonotone(Total(data[..j]), Total(data[..k]), total);
  }

  /** With the total of all segments, the last segment ends at 100%. */
  lemma BarEndsAtHundred(data: seq<Segment>)
    requires Total(data) > 0
    ensures data != []
    ensures SumWidths(data[..|data| - 1], Total(data)) + Width(data[|data| - 1], Total(data)) == 100.0
  {
    var t := Total(data);
    SumWidthsIsShare(data, t);
    HundredPercent(t as real);
  }

  /** The whole is a hundred percent of itself. */
  lemma HundredPercent(t: real)
    requires t > 0.0
    ensures t / t * 100.0 == 100.0
  {
    assert t / t == 1.0;
  }

  /** The three party segments: Total is the sum of the three party totals. */
  lemma BarsTotal(rVotes: nat, dVotes: nat, iVotes: nat)
    ensures Total(Bars(rVotes, dVotes, iVotes)) == iVotes + dVotes + rVotes
  {
    var b := Bars(rVotes, dVotes, iVotes);
    assert b[..|b| - 1] == b[..2];
    assert b[..2][..1] == b[..1];
    assert b[..1][..0] == [];
    assert Total(b[..1]) == iVotes;
    assert Total(b[..2]) == iVotes + dVotes;
  }

  /**
   * For the three party segments, the democrat label anchors at the end of
   * the independent segment and the republican label at the end of the
   * democrat one.
   */
  lemma BarsFirstOffsets(rVotes: nat, dVotes: nat, iVotes: nat)
    requires iVotes + dVotes + rVotes > 0
    ensures FirstOffset(Bars(rVotes, dVotes, iVotes), D, iVotes + dVotes + rVotes)
         == Some(Width(Segment(I, iVotes), iVotes + dVotes + rVotes))
    ensures FirstOffset(Bars(rVotes, dVotes, iVotes), R, iVotes + dVotes + rVotes)
         == Some(Width(Segment(I, iVotes), iVotes + dVotes + rVotes) + Width(Segment(D, dVotes), iVotes + dVotes + rVotes))
  {
    var b := Bars(rVotes, dVotes, iVotes);
    var t := iVotes + dVotes + rVotes;
    assert b[1..] == [Segment(D, dVotes), Segment(R, rVotes)];
    assert b[1..][1..] == [Segment(R, rVotes)];
    assert FirstIndex(b, D) == Some(1);
    assert FirstIndex(b[1..][1..], R) == Some(0);
    assert FirstIndex(b, R) == Some(2);
    assert b[..1][..0] == [] && b[..2][..1] == b[..1];
    assert SumWidths(b[..1], t) == Width(b[0], t);
    assert SumWidths(b[..2], t) == Width(b[0], t) + Width(b[1], t);
  }

  /** A text label above the bar: `{party, votes, x, text, candidate}`. */
  datatype Label = Label(party: Party, votes: nat, x: real, share: real, candidate: string)

  /** The label's share of the votes, in percent: `votes * 100 / total`. */
  function Share(votes: nat, total: nat): real
    requires total > 0
  {
    votes as real * 100.0 / total as real
  }

  /** In exact arithmetic a label's share is its segment's width. */
  lemma ShareIsWidth(votes: nat, total: nat, p: Party)
    requires total > 0
    ensures Share(votes, total) == Width(Segment(p, votes), total)
  {
    var v, t := votes as real, total as real;
    assert v * 100.0 / t == (v / t) * 100.0;
  }

  /**
   * The data part of `update`: vote totals, the three segments with their
   * widths and offsets, and the label list (the independent label only when
   * independents received votes). Candidate names come from the first
   * record, so the records must not be empty; a zero total makes every
   * width NaN in the source and is excluded here.
   */
  method Update(electionResult: seq<Record>)
    returns (data: seq<Segment>, widths: seq<real>, xs: seq<real>, dataText: seq<Label>)
    requires |electionResult| > 0
    requires SumVotes(electionResult, R) + SumVotes(electionResult, D) + SumVotes(electionResult, I) > 0
    ensures data == Bars(SumVotes(electionResult, R), SumVotes(electionResult, D), SumVotes(electionResult, I))
    ensures Total(data) == data[0].votes + data[1].votes + data[2].votes
    ensures |widths| == 3 && |xs| == 3
    ensures forall k :: 0 <= k < 3 ==> widths[k] == Width(data[k], Total(data))
    ensures xs[0] == 0.0 && xs[1] == widths[0] && xs[2] == widths[0] + widths[1]
    ensures xs[2] + widths[2] == 100.0
    ensures |dataText| == if data[0].votes > 0 then 3 else 2
    ensures data[0].votes > 0 ==>
      dataText[0] == Label(I, data[0].votes, 0.0, widths[0], electionResult[0].iNominee)
    ensures dataText[|dataText| - 2] == Label(D, data[1].votes, xs[1], widths[1], electionResult[0].dNominee)
    ensures dataText[|dataText| - 1] == Label(R, data[2].votes, xs[2], widths[2], electionResult[0].rNominee)
  {
    var rVotes, dVotes, iVotes := VoteTotals(electionResult);
    var rep, dem, ide := Segment(R, rVotes), Segment(D, dVotes), Segment(I, iVotes);
    data := [ide, dem, rep];
    assert data == Bars(rVotes, dVotes, iVotes);
    BarsTotal(rVotes, dVotes, iVotes);
    var total := iVotes + dVotes + rVotes;
    var xFirstDe, xFirstRep;
    widths, xs, xFirstDe, xFirstRep := Layout(data, total);
    BarsFirstOffsets(rVotes, dVotes, iVotes);
    assert data[..0] == [];
    assert xs[1] == widths[0] && xs[2] == widths[0] + widths[1] by {
      assert xs[1] == xFirstDe.value && xs[2] == xFirstRep.value by {
        assert FirstIndex(data, D) == Some(1) && FirstIndex(data, R) == Some(2);
      }
    }
    BarEndsAtHundred(data);
    assert data[..|data| - 1] == data[..2];

    var demLabel := Label(D, dVotes, xFirstDe.value, Share(dVotes, total), electionResult[0].dNominee);
    var repLabel := Label(R, rVotes, xFirstRep.value, Share(rVotes, total), electionResult[0].rNominee);
    var ideLabel := Label(I, iVotes, 0.0, Share(iVotes, total), electionResult[0].iNominee);
    ShareIsWidth(iVotes, total, I);
    ShareIsWidth(dVotes, total, D);
    ShareIsWidth(rVotes, total, R);
    if ideLabel.votes > 0 {
      dataText := [ideLabel, demLabel, repLabel];
    } else {
      dataText := [demLabel, repLabel];
    }
  }

  /** Text colour of a label, keyed by the segment's class name. */
  function LabelFill(party: string): string
  {
    if party == "independent" then "green"
    else if party == "republican" then "red"
    else "blue"
  }

  /** The three parties' labels get three different colours. */
  lemma LabelFillsDiffer(p: Party, q: Party)
    requires p != q
    ensures LabelFill(ClassName(p)) != LabelFill(ClassName(q))
  {
  }

  /** `tooltip_render`: an opening `<ul>` and one item per row, in order. */
  method TooltipRender(result: seq<Row>) returns (text: string)
    ensures text == "<ul>" + Items(result)
  {
    text := "<ul>";
    var i := 0;
    while i < |result|
      invariant 0 <= i <= |result|
      invariant text == "<ul>" + Items(result[..i])
    {
      AppendItem("<ul>", result, i);
      text := text + Item(result[i]);
      i := i + 1;
    }
    assert result[..i] == result;
  }

  /**
   * The list is never closed: after the opening tag the text ends with the
   * last item's `</li>`, or is just `<ul>` when there are no rows.
   */
  lemma TooltipLeavesListOpen(result: seq<Row>)
    ensures ("<ul>" + Items(result))[..4] == "<ul>"
    ensures result == [] ==> "<ul>" + Items(result) == "<ul>"
    ensures result != [] ==> var t := "<ul>" + Items(result); t[|t| - 5..] == "</li>"
  {
    if result != [] {
      ItemsEndWithItem(result);
      var t := "<ul>" + Items(result);
      assert t[|t| - 5..] == Items(result)[|Items(result)| - 5..];
    }
  }
}
