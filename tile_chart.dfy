/**
 * The tile chart: one tile per state, placed on a fixed grid, coloured by
 * the winner's share, labelled with the state's abbreviation and electoral
 * votes, and a tooltip listing every nominee.
 */
module TileChart {
  import opened Parties
  import opened Tooltip
  import opened TileGrid

  /** The side of a grid square. */
  const Sq: real := 50.0

  // The three stages `update` takes every record through, one loop each.

  /** First loop: the total number of votes cast. */
  function WithTotal(rec: Record): Record
  {
    rec.(totalVotes := Some(rec.dVotes + rec.rVotes + rec.iVotes))
  }

  /** Second loop: the winning party and its nominee. */
  function WithWinner(rec: Record): Record
  {
    var p := WinnerOf(rec);
    rec.(party := Some(p), stateWinner := Some(Nominee(rec, p)))
  }

  /** Third loop: the grid cell the table lists for the state. */
  function WithCell(rec: Record): Record
    requires rec.abbreviation in RowColumn()
  {
    rec.(row := Some(RowColumn()[rec.abbreviation].0), column := Some(RowColumn()[rec.abbreviation].1))
  }

  /** A record after all three loops of `update`. */
  function Placed(rec: Record): Record
    requires rec.abbreviation in RowColumn()
  {
    WithCell(WithWinner(WithTotal(rec)))
  }

  /**
   * What `update` attaches to a record: the vote total, the winning party
   * with its nominee, and the table's cell; every field of the data file is
   * left as it was.
   */
  lemma PlacedFields(rec: Record)
    requires rec.abbreviation in RowColumn()
    ensures Placed(rec).totalVotes == Some(rec.rVotes + rec.dVotes + rec.iVotes)
    ensures Placed(rec).party.Some? && Percentage(rec, Placed(rec).party.value) == Max3(rec.rPercentage, rec.dPercentage, rec.iPercentage)
    ensures Placed(rec).stateWinner == Some(Nominee(rec, Placed(rec).party.value))
    ensures (Placed(rec).row.value, Placed(rec).column.value) == RowColumn()[rec.abbreviation]
    ensures Placed(rec).(party := rec.party, stateWinner := rec.stateWinner, totalVotes := rec.totalVotes,
                         row := rec.row, column := rec.column) == rec
  {
  }

  /** A rectangle of the SVG. */
  datatype Rect = Rect(x: real, y: real, width: real, height: real)

  /** An anchor point of a text element. */
  datatype Point = Point(x: real, y: real)

  /** Everything drawn for one state. */
  datatype Tile = Tile(rect: Rect, fill: string, stateLabel: Point, stateText: string, evLabel: Point, evText: nat)

  /** The rectangle of the tile at a cell: the row gives x, the column gives y. */
  function TileRect(cell: Cell): Rect
  {
    Rect(cell.0 as real * Sq * 1.3, cell.1 as real * Sq, Sq * 1.3, Sq)
  }

  /** Where the abbreviation is anchored. */
  function StateLabelAt(cell: Cell): Point
  {
    Point(cell.0 as real * Sq * 1.3 + Sq / 2.0, cell.1 as real * Sq + Sq / 2.0)
  }

  /** Where the electoral-vote count is anchored, one line below the abbreviation. */
  function EVLabelAt(cell: Cell): Point
  {
    Point(cell.0 as real * Sq * 1.3 + Sq / 2.0, cell.1 as real * Sq + Sq / 2.0 + 12.0)
  }

  /**
   * The tile's colour: the scale at minus the Democratic share for a
   * Democratic state, at the Republican share for a Republican one, and
   * green otherwise.
   */
  function TileFill(rec: Record, colorScale: real -> string): string
  {
    match rec.party
    case Some(D) => colorScale(-rec.dPercentage)
    case Some(R) => colorScale(rec.rPercentage)
    case _ => "green"
  }

  /** The tile of a placed record. */
  function TileOf(rec: Record, colorScale: real -> string): Tile
    requires rec.row.Some? && rec.column.Some?
  {
    var cell := (rec.row.value, rec.column.value);
    Tile(TileRect(cell), TileFill(rec, colorScale), StateLabelAt(cell), rec.abbreviation, EVLabelAt(cell), rec.totalEV)
  }

  /** The interiors of two rectangles do not meet. */
  predicate Apart(a: Rect, b: Rect)
  {
    a.x + a.width <= b.x || b.x + b.width <= a.x || a.y + a.height <= b.y || b.y + b.height <= a.y
  }

  /** A point lies strictly inside a rectangle. */
  predicate Inside(p: Point, r: Rect)
  {
    r.x < p.x < r.x + r.width && r.y < p.y < r.y + r.height
  }

  /** Tiles at different cells do not overlap. */
  lemma TilesAtDistinctCellsApart(c1: Cell, c2: Cell)
    requires c1 != c2
    ensures Apart(TileRect(c1), TileRect(c2))
  {
    if c1.0 != c2.0 {
      if c1.0 < c2.0 {
        assert c1.0 as real + 1.0 <= c2.0 as real;
      } else {
        assert c2.0 as real + 1.0 <= c1.0 as real;
      }
    } else {
      if c1.1 < c2.1 {
        assert c1.1 as real + 1.0 <= c2.1 as real;
      } else {
        assert c2.1 as real + 1.0 <= c1.1 as real;
      }
    }
  }

  /** Both labels of a tile sit inside it. */
  lemma LabelsInsideTile(cell: Cell)
    ensures Inside(StateLabelAt(cell), TileRect(cell))
    ensures Inside(EVLabelAt(cell), TileRect(cell))
  {
  }

  /** The tiles of two different states never overlap. */
  lemma StateTilesApart(a: Record, b: Record, colorScale: real -> string)
    requires a.abbreviation in RowColumn() && b.abbreviation in RowColumn()
    requires a.abbreviation != b.abbreviation
    ensures Apart(TileOf(Placed(a), colorScale).rect, TileOf(Placed(b), colorScale).rect)
  {
    CellsDistinct(a.abbreviation, b.abbreviation);
    TilesAtDistinctCellsApart(RowColumn()[a.abbreviation], RowColumn()[b.abbreviation]);
  }

  /**
   * The colour encodes the winning share, signed by party: a Democratic
   * state gets the scale at minus its largest share, a Republican one at
   * plus its largest share, and an independent one is green.
   */
  lemma FillFollowsWinner(rec: Record, colorScale: real -> string)
    requires rec.abbreviation in RowColumn()
    ensures var top := Max3(rec.rPercentage, rec.dPercentage, rec.iPercentage);
      && (WinnerOf(rec) == D ==> TileFill(Placed(rec), colorScale) == colorScale(-top))
      && (WinnerOf(rec) == R ==> TileFill(Placed(rec), colorScale) == colorScale(top))
      && (WinnerOf(rec) == I ==> TileFill(Placed(rec), colorScale) == "green")
  {
  }

  /** The first loop: every record gets its vote total. */
  method AddTotals(electionResult: array<Record>)
    modifies electionResult
    ensures forall k :: 0 <= k < electionResult.Length ==> electionResult[k] == WithTotal(old(electionResult[k]))
  {
    var i := 0;
    while i < electionResult.Length
      invariant 0 <= i <= electionResult.Length
      invariant forall k :: 0 <= k < i ==> electionResult[k] == WithTotal(old(electionResult[k]))
      invariant forall k :: i <= k < electionResult.Length ==> electionResult[k] == old(electionResult[k])
    {
      var d := electionResult[i];
      electionResult[i] := d.(totalVotes := Some(d.dVotes + d.rVotes + d.iVotes));
      i := i + 1;
    }
  }

  /** The second loop: every record gets its winning party and that party's nominee. */
  method AddWinners(electionResult: array<Record>)
    modifies electionResult
    ensures forall k :: 0 <= k < electionResult.Length ==> electionResult[k] == WithWinner(old(electionResult[k]))
  {
    var i := 0;
    while i < electionResult.Length
      invariant 0 <= i <= electionResult.Length
      invariant forall k :: 0 <= k < i ==> electionResult[k] == WithWinner(old(electionResult[k]))
      invariant forall k :: i <= k < electionResult.Length ==> electionResult[k] == old(electionResult[k])
    {
      var d := electionResult[i];
      var max := Max3(d.rPercentage, d.dPercentage, d.iPercentage);
      if d.rPercentage == max {
        d := d.(party := Some(R), stateWinner := Some(d.rNominee));
      } else if d.dPercentage == max {
        d := d.(party := Some(D), stateWinner := Some(d.dNominee));
      } else {
        d := d.(party := Some(I), stateWinner := Some(d.iNominee));
      }
      electionResult[i] := d;
      i := i + 1;
    }
  }

  /** The third loop: every record gets the row and column the table lists for it. */
  method AddCells(electionResult: array<Record>)
    requires forall k :: 0 <= k < electionResult.Length ==> electionResult[k].abbreviation in RowColumn()
    modifies electionResult
    ensures forall k :: 0 <= k < electionResult.Length ==>
      old(electionResult[k]).abbreviation in RowColumn() && electionResult[k] == WithCell(old(electionResult[k]))
  {
    var i := 0;
    while i < electionResult.Length
      invariant 0 <= i <= electionResult.Length
      invariant forall k :: 0 <= k < i ==>
        old(electionResult[k]).abbreviation in RowColumn() && electionResult[k] == WithCell(old(electionResult[k]))
      invariant forall k :: i <= k < electionResult.Length ==> electionResult[k] == old(electionResult[k])
    {
      var d := electionResult[i];
      var cell := RowColumn()[d.abbreviation];
      electionResult[i] := d.(row := Some(cell.0), column := Some(cell.1));
      i := i + 1;
    }
  }

  /** The drawing pass: one tile per placed record, in order. */
  method DrawTiles(placed: seq<Record>, colorScale: real -> string) returns (tiles: seq<Tile>)
    requires forall k :: 0 <= k < |placed| ==> placed[k].row.Some? && placed[k].column.Some?
    ensures |tiles| == |placed|
    ensures forall k :: 0 <= k < |placed| ==> tiles[k] == TileOf(placed[k], colorScale)
  {
    tiles := [];
    var i := 0;
    while i < |placed|
      invariant 0 <= i <= |placed|
      invariant |tiles| == i
      invariant forall k :: 0 <= k < i ==> tiles[k] == TileOf(placed[k], colorScale)
    {
      var d := placed[i];
      var cell := (d.row.value, d.column.value);
      var fill := if d.party == Some(D) then colorScale(-d.dPercentage)
                  else if d.party == Some(R) then colorScale(d.rPercentage)
                  else "green";
      tiles := tiles + [Tile(TileRect(cell), fill, StateLabelAt(cell), d.abbreviation, EVLabelAt(cell), d.totalEV)];
      i := i + 1;
    }
  }

  /**
   * update's three record loops, run one after another over the whole
   * array, and the tiles drawn from the result.
   */
  method Update(electionResult: array<Record>, colorScale: real -> string) returns (tiles: seq<Tile>)
    requires forall k :: 0 <= k < electionResult.Length ==> electionResult[k].abbreviation in RowColumn()
    modifies electionResult
    ensures forall k :: 0 <= k < electionResult.Length ==>
      old(electionResult[k]).abbreviation in RowColumn() && electionResult[k] == Placed(old(electionResult[k]))
    ensures |tiles| == electionResult.Length
    ensures forall k :: 0 <= k < |tiles| ==>
      old(electionResult[k]).abbreviation in RowColumn() && tiles[k] == TileOf(Placed(old(electionResult[k])), colorScale)
  {
    ghost var s := electionResult[..];
    AddTotals(electionResult);
    AddWinners(electionResult);
    AddCells(electionResult);
    assert forall k :: 0 <= k < electionResult.Length ==> electionResult[k] == Placed(s[k]);
    tiles := DrawTiles(electionResult[..], colorScale);
  }

  /** The object the tooltip callback builds for a state. */
  datatype TooltipData = TooltipData(state: string, winner: string, electoralVotes: string, result: seq<Row>)

  /**
   * The tooltip object for a placed record: the winner is the nominee's
   * name, and the rows list the Democrat, the Republican and the
   * independent in that order. `show` is how a number turns into text.
   */
  function TooltipFor(rec: Record, show: real -> string): TooltipData
    requires rec.stateWinner.Some?
  {
    TooltipData(rec.state, rec.stateWinner.value, show(rec.totalEV as real), [
      Row(rec.dNominee, show(rec.dVotes as real), show(rec.dPercentage), "D"),
      Row(rec.rNominee, show(rec.rVotes as real), show(rec.rPercentage), "R"),
      Row(rec.iNominee, show(rec.iVotes as real), show(rec.iPercentage), "I")])
  }

  /** The heading: the state in an `<h2>` whose class is chosen from the winner, then the electoral votes. */
  function Heading(data: TooltipData): string
  {
    "<h2 class =" + ClassText(ChooseClass(data.winner)) + " >" + data.state + "</h2>"
      + "Electoral Votes: " + data.electoralVotes
  }

  /** tooltip_render: the heading, then the rows' items inside a closed `<ul>`. */
  method TooltipRender(tooltipData: TooltipData) returns (text: string)
    ensures text == Heading(tooltipData) + "<ul>" + Items(tooltipData.result) + "</ul>"
  {
    text := "<h2 class =" + ClassText(ChooseClass(tooltipData.winner)) + " >" + tooltipData.state + "</h2>";
    text := text + "Electoral Votes: " + tooltipData.electoralVotes;
    text := text + "<ul>";
    ghost var prefix := text;
    var rows := tooltipData.result;
    var i := 0;
    while i < |rows|
      invariant 0 <= i <= |rows|
      invariant text == prefix + Items(rows[..i])
    {
      AppendItem(prefix, rows, i);
      text := text + Item(rows[i]);
      i := i + 1;
    }
    assert rows[..i] == rows;
    text := text + "</ul>";
  }

  /**
   * The heading's class comes from the winner's name, which is never a
   * party code for a real nominee, so the heading's class is "undefined".
   */
  lemma HeadingClassUndefined(rec: Record, show: real -> string)
    requires forall p: Party :: Nominee(rec, WinnerOf(rec)) != Code(p)
    ensures Heading(TooltipFor(WithWinner(rec), show))
      == "<h2 class =undefined >" + rec.state + "</h2>Electoral Votes: " + show(rec.totalEV as real)
  {
    ChooseClassSpec(Nominee(rec, WinnerOf(rec)));
  }

  /** The rows carry the democrat, republican and independent classes, in that order. */
  lemma TooltipRowClasses(rec: Record, show: real -> string)
    requires rec.stateWinner.Some?
    ensures var rows := TooltipFor(rec, show).result;
      |rows| == 3
      && ChooseClass(rows[0].party) == Some(ClassName(D))
      && ChooseClass(rows[1].party) == Some(ClassName(R))
      && ChooseClass(rows[2].party) == Some(ClassName(I))
  {
  }

  /** The tile tooltip opens with its heading and, unlike the vote chart's, closes its list. */
  lemma TooltipIsClosed(tooltipData: TooltipData)
    ensures var text := Heading(tooltipData) + "<ul>" + Items(tooltipData.result) + "</ul>";
      text[..11] == "<h2 class =" && text[|text| - 5..] == "</ul>"
  {
    var open := "<h2 class =";
    var heading := Heading(tooltipData);
    var h := open + ClassText(ChooseClass(tooltipData.winner));
    KeepsPrefix(open, h, " >");
    h := h + " >";
    KeepsPrefix(open, h, tooltipData.state);
    h := h + tooltipData.state;
    KeepsPrefix(open, h, "</h2>");
    h := h + "</h2>";
    KeepsPrefix(open, h, "Electoral Votes: ");
    h := h + "Electoral Votes: ";
    KeepsPrefix(open, h, tooltipData.electoralVotes);
    h := h + tooltipData.electoralVotes;
    assert h == heading;
    KeepsPrefix(open, h, "<ul>");
    h := h + "<ul>";
    KeepsPrefix(open, h, Items(tooltipData.result));
    h := h + Items(tooltipData.result);
    KeepsPrefix(open, h, "</ul>");
    EndsWith(h, "</ul>");
  }

  /** Appending keeps a prefix. */
  lemma KeepsPrefix(prefix: string, a: string, b: string)
    requires |prefix| <= |a| && a[..|prefix|] == prefix
    ensures |prefix| <= |a + b| && (a + b)[..|prefix|] == prefix
  {
    assert (a + b)[..|prefix|] == a[..|prefix|];
  }

  /** A concatenation ends with its last part. */
  lemma EndsWith(a: string, b: string)
    ensures (a + b)[|a + b| - |b|..] == b
  {
  }
}
