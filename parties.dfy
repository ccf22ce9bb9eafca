/**
 * Parties, per-state election records, and the winner rule shared by the
 * electoral-vote chart and the tile chart.
 */
module Parties {

  /** JavaScript's `undefined` is `None`. */
  datatype Option<+T> = None | Some(value: T)

  /** The three party codes of the election data: "R", "D" and "I". */
  datatype Party = R | D | I

  /** The code string a record's `Party` field holds. */
  function Code(p: Party): string
  {
    match p
    case R => "R"
    case D => "D"
    case I => "I"
  }

  /** The CSS class of a party, as the charts name it. */
  function ClassName(p: Party): string
  {
    match p
    case R => "republican"
    case D => "democrat"
    case I => "independent"
  }

  /**
   * chooseClass: a party code to its CSS class; any other string falls
   * through every branch and yields `undefined`.
   */
  function ChooseClass(code: string): Option<string>
  {
    if code == "R" then Some("republican")
    else if code == "D" then Some("democrat")
    else if code == "I" then Some("independent")
    else None
  }

  /**
   * chooseClass is defined exactly on the three party codes, where it gives
   * the party's class.
   */
  lemma ChooseClassSpec(code: string)
    ensures ChooseClass(code).Some? <==> exists p :: code == Code(p)
    ensures forall p :: code == Code(p) ==> ChooseClass(code) == Some(ClassName(p))
  {
    if code == "R" {
      assert code == Code(R);
    } else if code == "D" {
      assert code == Code(D);
    } else if code == "I" {
      assert code == Code(I);
    }
  }

  /** Two codes with the same defined class are the same code. */
  lemma ChooseClassInjective(a: string, b: string)
    requires ChooseClass(a).Some? && ChooseClass(a) == ChooseClass(b)
    ensures a == b
  {
    ChooseClassSpec(a);
    ChooseClassSpec(b);
    var p :| a == Code(p);
    var q :| b == Code(q);
    assert ClassName(p) == ClassName(q);
  }

  /** What string concatenation makes of a class: `undefined` prints as "undefined". */
  function ClassText(cls: Option<string>): string
  {
    match cls
    case Some(c) => c
    case None => "undefined"
  }

  /** d3.max over three numbers. */
  function Max3(a: real, b: real, c: real): (m: real)
    ensures m == a || m == b || m == c
    ensures a <= m && b <= m && c <= m
  {
    if a >= b && a >= c then a else if b >= c then b else c
  }

  /**
   * The winner rule of both charts: take the maximum of the three
   * percentages and pick the first of R, D, I whose percentage equals it.
   */
  function Winner(r: real, d: real, i: real): (p: Party)
    ensures p == R <==> r >= d && r >= i
    ensures p == D <==> d > r && d >= i
    ensures p == I <==> i > r && i > d
  {
    var max := Max3(r, d, i);
    if r == max then R else if d == max then D else I
  }

  /** One row of an election-results file, with the fields the charts add. */
  datatype Record = Record(
    state: string,
    abbreviation: string,
    totalEV: nat,
    rVotes: nat,
    dVotes: nat,
    iVotes: nat,
    rPercentage: real,
    dPercentage: real,
    iPercentage: real,
    rNominee: string,
    dNominee: string,
    iNominee: string,
    // fields the chart updates attach
    party: Option<Party>,
    stateWinner: Option<string>,
    totalVotes: Option<nat>,
    row: Option<int>,
    column: Option<int>)

  function Percentage(rec: Record, p: Party): real
  {
    match p
    case R => rec.rPercentage
    case D => rec.dPercentage
    case I => rec.iPercentage
  }

  function Votes(rec: Record, p: Party): nat
  {
    match p
    case R => rec.rVotes
    case D => rec.dVotes
    case I => rec.iVotes
  }

  function Nominee(rec: Record, p: Party): string
  {
    match p
    case R => rec.rNominee
    case D => rec.dNominee
    case I => rec.iNominee
  }

  function WinnerOf(rec: Record): Party
  {
    Winner(rec.rPercentage, rec.dPercentage, rec.iPercentage)
  }

  /** Tie-break order of the winner rule: R first, then D, then I. */
  function Priority(p: Party): nat
  {
    match p
    case R => 0
    case D => 1
    case I => 2
  }

  /**
   * The winner has the largest percentage, and every party tried before it
   * has a strictly smaller one: ties go to the earlier party.
   */
  lemma WinnerIsFirstArgmax(rec: Record, q: Party)
    ensures Percentage(rec, q) <= Percentage(rec, WinnerOf(rec))
    ensures Priority(q) < Priority(WinnerOf(rec)) ==> Percentage(rec, q) < Percentage(rec, WinnerOf(rec))
  {
  }
}
