# Election charts: data preparation, layout and tooltips

This project models the data side of three charts from a US presidential election
visualisation. Each chart receives one year's election results, with one record per
state, and draws them with d3:

- **Electoral-vote chart** (`electoralVoteChart.js`). The chart tags each state with
  its winning party. Republican wins ties with either other party, then Democrat,
  then independent. It groups the states by winner and sorts each group so the
  winner's largest share comes first. It then lays the groups out in the order
  independent, Democrat, Republican and totals the electoral votes.
- **Popular-vote chart** (`votePercentageChart.js`). The chart sums the national
  votes per party. It splits one bar into three segments (independent, Democrat,
  Republican) with widths as percentages of the total. It places each segment
  where the previous ones end, and keeps the offsets of the first Democratic and
  first Republican segments for the labels. The label list includes the
  independent only when independents received votes. The chart's
  `tooltip_render` opens a `<ul>`, adds one `<li>` per nominee, and never closes
  the list.
- **Tile chart** (`tileChart.js`). The chart totals each state's votes, picks the
  winner with the same rule, and stores the winning nominee. It places the state
  on a fixed grid from the `rowColum` object literal. That literal lists Maine
  twice, and the later entry, (11, 0), wins. Each state gets a 65×50 tile with its
  abbreviation and its electoral-vote count. The tile's colour is
  `colorScale(-D%)` for Democratic states, `colorScale(R%)` for Republican
  states, and green otherwise. Its tooltip has an `<h2>` heading whose class comes
  from the winner's *name*, so it is `undefined` for any real nominee. Then comes
  "Electoral Votes: " and a closed list of the three nominees.

`chooseClass` is identical in all three files and is defined once, in `Parties`.

Modules:

- `Parties` (`parties.dfy`) holds the record, the party codes, `chooseClass`, and
  the winner rule.
- `Tooltip` (`tooltip.dfy`) holds the `<li>` items both tooltips share.
- `ElectoralVoteChart`, `VotePercentageChart`, `TileGrid` and `TileChart` hold the
  rest.

The forEach loops that update records in place are methods on `array<Record>`. The
accumulating loops (vote totals, electoral-vote sum, bar layout, tooltip text) are
methods with loop invariants. Each is proved against a specification function, and
lemmas state the properties of those functions.

Modelling choices:

- Percentages are `real` and vote counts are `nat`.
- The quantile colour scale is a parameter `colorScale: real -> string`.
- Turning numbers into tooltip text is a parameter `show: real -> string`.
- JavaScript's `undefined` is `None`, and it prints as "undefined" when
  concatenated.

## Model

| member | source | states |
|---|---|---|
| Parties.ChooseClassSpec | assignment2/public/js/electoralVoteChart.js:37-48 | chooseClass gives a class exactly when the code is one of "R", "D" or "I", and for each code it gives that party's class: republican, democrat or independent. Every other string gives undefined. |
| Parties.ChooseClassInjective | assignment2/public/js/votePercentageChart.js:34-45 | Two codes that get the same defined class are the same code. |
| Parties.Max3 | assignment2/public/js/tileChart.js:103 | d3.max of the three percentages is one of them and at least each of them. |
| Parties.Winner | assignment2/public/js/electoralVoteChart.js:74-84 | R wins iff its share is at least both others. D wins iff its share is strictly above R's and at least I's. I wins iff its share is strictly above both others. |
| Parties.WinnerIsFirstArgmax | assignment2/public/js/tileChart.js:102-114 | The winner has the largest percentage. Every party tried earlier in the order R, D, I has a strictly smaller one, so ties go to the earlier party. |
| ElectoralVoteChart.Classified | assignment2/public/js/electoralVoteChart.js:73-85 | The classification loop sets `Party` to the winner and changes no other field. |
| ElectoralVoteChart.BucketCarriesParty | assignment2/public/js/electoralVoteChart.js:63-85 | Every record pushed onto a party's group carries that party as its `Party`. |
| ElectoralVoteChart.Classify | assignment2/public/js/electoralVoteChart.js:73-85 | After the loop the array holds the classified records in place, and the three groups are the records each party won, in input order. |
| ElectoralVoteChart.BucketMembership | assignment2/public/js/electoralVoteChart.js:75-84 | A record is pushed onto party p's group iff p is its winner. |
| ElectoralVoteChart.BucketSizes | assignment2/public/js/electoralVoteChart.js:63-85 | The three group sizes add up to the number of records. |
| ElectoralVoteChart.BucketsPartition | assignment2/public/js/electoralVoteChart.js:63-85 | Together the three groups hold exactly the classified records, as a multiset. |
| ElectoralVoteChart.InsertByShare | assignment2/public/js/electoralVoteChart.js:87-89 | Inserting into a group sorted by descending share keeps it sorted and adds exactly the new record. |
| ElectoralVoteChart.SortByShare | assignment2/public/js/electoralVoteChart.js:87-89 | Each group's sort returns a permutation of the group, ordered by the party's percentage, largest first. |
| ElectoralVoteChart.OrderIsPermutation | assignment2/public/js/electoralVoteChart.js:90 | The concatenated chart data is the classified input, reordered. It has the same multiset and the same length. |
| ElectoralVoteChart.OrderIsGrouped | assignment2/public/js/electoralVoteChart.js:87-90 | In the chart data, independent winners come before Democratic winners, who come before Republican winners. Within a party the winner's percentage does not increase. |
| ElectoralVoteChart.SumEVPermutation | assignment2/public/js/electoralVoteChart.js:98 | Reordering records does not change their electoral-vote sum. |
| ElectoralVoteChart.TotalIsInputTotal | assignment2/public/js/electoralVoteChart.js:90-98 | The electoral-vote total of the chart data equals the total over the input records. |
| ElectoralVoteChart.TotalEV | assignment2/public/js/electoralVoteChart.js:98 | The summing loop returns the sum of the records' electoral votes. |
| ElectoralVoteChart.Update | assignment2/public/js/electoralVoteChart.js:57-98 | `update` leaves the input array classified. The data is the grouped and sorted order. `total` is the electoral-vote sum of both the data and the input. |
| VotePercentageChart.VoteTotals | assignment2/public/js/votePercentageChart.js:99-106 | The accumulation loop returns, per party, the sum of that party's votes over all records. |
| VotePercentageChart.FirstIndex | assignment2/public/js/votePercentageChart.js:140-147 | Gives the index of the first segment of a party with none of that party before it, or None when the party has no segment. |
| VotePercentageChart.Layout | assignment2/public/js/votePercentageChart.js:119-151 | Each width is votes/total·100, and each x is the sum of the widths before it. xFirstDe and xFirstRep are the offsets of the first Democratic and first Republican segment, or undefined when there is none. |
| VotePercentageChart.SumWidthsIsShare | assignment2/public/js/votePercentageChart.js:133-139 | The running offset is the share of the total, in percent, held by the votes before that point. |
| VotePercentageChart.OffsetsNonDecreasing | assignment2/public/js/votePercentageChart.js:136-139 | The first segment starts at 0%, and no segment starts left of an earlier one. |
| VotePercentageChart.BarEndsAtHundred | assignment2/public/js/votePercentageChart.js:114-139 | With the total taken over the segments, the last segment ends exactly at 100%. |
| VotePercentageChart.BarsTotal | assignment2/public/js/votePercentageChart.js:108-114 | The total over the three party segments is the sum of the three party totals. |
| VotePercentageChart.BarsFirstOffsets | assignment2/public/js/votePercentageChart.js:140-147 | For the segments in the order independent, Democrat, Republican, the Democratic label anchors at the end of the independent segment. The Republican label anchors at the end of the Democratic segment. |
| VotePercentageChart.ShareIsWidth | assignment2/public/js/votePercentageChart.js:167 | In exact arithmetic a label's votes·100/total equals its segment's width. |
| VotePercentageChart.Update | assignment2/public/js/votePercentageChart.js:99-184 | The segments hold the national totals in the order independent, Democrat, Republican, and the widths add to 100%. The offsets are 0, w0 and w0+w1. The labels are independent (only when it has votes), Democrat and Republican. Each label sits at its segment's offset, carries its share, and names the first record's nominee. |
| VotePercentageChart.LabelFillsDiffer | assignment2/public/js/votePercentageChart.js:195-201 | The three parties' labels get three different text colours. |
| VotePercentageChart.TooltipRender | assignment2/public/js/votePercentageChart.js:53-61 | The tooltip text is "<ul>" followed by one item per row, in row order. |
| VotePercentageChart.TooltipLeavesListOpen | assignment2/public/js/votePercentageChart.js:53-61 | The tooltip opens a list it never closes. The text is just "<ul>" with no rows, and otherwise ends with the last item's "</li>". |
| Tooltip.ItemShape | assignment2/public/js/votePercentageChart.js:57 | Each row's item starts with "<li class = " and ends with "</li>". |
| Tooltip.ItemsAppend | assignment2/public/js/tileChart.js:70-72 | The items of a concatenation of rows are the concatenated items. |
| TileGrid.ObjectLiteralKeys | assignment2/public/js/tileChart.js:154-207 | The object's keys are exactly the keys its entries list. |
| TileGrid.ObjectLiteralValue | assignment2/public/js/tileChart.js:154-207 | Every key's value is the cell of some entry that lists that key. |
| TileGrid.LastEntryWins | assignment2/public/js/tileChart.js:154-207 | An entry that no later entry overrides supplies its key's value. |
| TileGrid.MaineIsOverwritten | assignment2/public/js/tileChart.js:206 | Maine's cell is (11, 0), its second listing. |
| TileGrid.FirstMaineCellUnused | assignment2/public/js/tileChart.js:173 | Maine's first listing is dead: no state lands on (0, 11). |
| TileGrid.CellsDistinct | assignment2/public/js/tileChart.js:154-207 | Distinct states get distinct cells. |
| TileGrid.KeyCount | assignment2/public/js/tileChart.js:154-207 | The table holds 51 keys (50 states and DC): its 52 entries contain one duplicate. |
| TileChart.PlacedFields | assignment2/public/js/tileChart.js:98-212 | After the three loops a record carries the sum of its three vote counts and the winning party, whose percentage is the maximum. It also carries that party's nominee as the state winner and the table's row and column, and every field of the data file is unchanged. |
| TileChart.TilesAtDistinctCellsApart | assignment2/public/js/tileChart.js:214-226 | Tiles at different cells do not overlap: each is sq·1.3 wide and sq high, at x = row·sq·1.3 and y = column·sq. |
| TileChart.StateTilesApart | assignment2/public/js/tileChart.js:154-226 | The tiles of two different states never overlap. |
| TileChart.LabelsInsideTile | assignment2/public/js/tileChart.js:249-265 | The abbreviation anchor (+sq/2, +sq/2) and the electoral-vote anchor (+sq/2, +sq/2+12) both lie strictly inside their tile. |
| TileChart.FillFollowsWinner | assignment2/public/js/tileChart.js:232-239 | A Democratic state is filled with colorScale at minus its largest share, and a Republican state with colorScale at its largest share. An independent state is green. |
| TileChart.AddTotals | assignment2/public/js/tileChart.js:98-100 | The first loop sets each record's `totalVotes` to the sum of its three vote counts and changes nothing else. |
| TileChart.AddWinners | assignment2/public/js/tileChart.js:102-114 | The second loop sets each record's `Party` and `State_Winner` from its winner and changes nothing else. |
| TileChart.AddCells | assignment2/public/js/tileChart.js:209-212 | The third loop sets each record's row and column to the table's cell for its abbreviation. |
| TileChart.DrawTiles | assignment2/public/js/tileChart.js:218-268 | One tile per record, in order: the rectangle, the fill, and the two labels computed from the record. |
| TileChart.Update | assignment2/public/js/tileChart.js:98-268 | Every record in the array is placed in the grid, and the tiles are those of the placed records, in order. |
| TileChart.TooltipRender | assignment2/public/js/tileChart.js:65-75 | The tooltip is the heading, then "<ul>", the rows' items in order, and "</ul>". |
| TileChart.HeadingClassUndefined | assignment2/public/js/tileChart.js:122-124 | Because the tooltip's winner is the nominee's name, the heading's class is "undefined" whenever that name is not a party code. |
| TileChart.TooltipRowClasses | assignment2/public/js/tileChart.js:126-130 | The three tooltip rows get the democrat, republican and independent classes, in that order. |
| TileChart.TooltipIsClosed | assignment2/public/js/tileChart.js:65-75 | The tile tooltip starts with "<h2 class =" and, unlike the popular-vote chart's, ends with a closing "</ul>". |

## Left out

- Everything d3 draws or wires is not modelled: selections, enter/merge/exit, transitions, the legend, d3-tip's show and hide, `init` and the SVG sizes from the page layout. The model stops at the numeric value each attribute callback computes before any "%" is appended.
- The quantile colour scale is a parameter `colorScale`. Turning numbers into text for tooltips is a parameter `show`.
- `toFixed(2)` and the "%" suffixes of the popular-vote labels are not modelled. A label keeps its share as a `real`.
- The popular-vote chart's positions are kept as bare percentages, without their "%" suffix. In the source a segment's width (votePercentageChart.js:135) and x (line 149) are strings such as "37.5%". The same goes for xFirstDe and xFirstRep (lines 141 and 145), the label x taken from them (lines 166 and 170), and the independent label's x, the string "0%" (line 174). `VotePercentageChart.Layout` and `VotePercentageChart.Update` return the number before the suffix as a `real`.
- All arithmetic is exact, with no floating-point rounding. `ShareIsWidth` and `BarEndsAtHundred` hold in exact arithmetic.
- JavaScript coercion is not modelled. The fields are numbers from the start, and the `+d.X` conversions (electoralVoteChart.js:67-71, votePercentageChart.js:103-105) are identities.
- TileChart.WithTotal: adds the three vote counts as numbers. The source's `d.D_Votes + d.R_Votes + d.I_Votes` has no conversion, so on the string fields of a CSV row it concatenates digits instead.
- VotePercentageChart.Update: requires a non-empty input, because the source reads `electionResult[0]` and fails without it. It also requires a positive vote total: with a zero total every width and offset is NaN in the source.
- TileChart.Update: requires every abbreviation to be a key of the table. The source fails with a TypeError on any other abbreviation.
- The electoral-vote chart's bar geometry (electoralVoteChart.js:123-134) is not modelled. Its `x` callback returns nothing and its width is a constant, so the chart draws no meaningful layout. The 50% marker and the popular-vote note text are not modelled either.
- `maxColumns` and `maxRows` in the tile chart are not modelled, because they are computed and never used. The `console.log` calls are not modelled.
- The model does not capture aliasing. Records are values: the electoral groups hold copies of the classified records, while in the source they share the objects of `electionResult`. The groups' in-place `sort` is modelled as a function on sequences.
- ElectoralVoteChart.SortByShare: the contract states order and permutation but not stability. The insertion sort keeps equal shares in input order, and so does `Array.prototype.sort`, but no lemma states it.
- The popular-vote chart's tip callback returns nothing (votePercentageChart.js:78-91), so its tooltip is never shown. `VotePercentageChart.TooltipRender` models the render function by itself.
- The tile chart's tooltip object is modelled by `TileChart.TooltipFor`. Its electoral-vote count and the rows' numbers pass through `show`.
- `yearChart.js` and the page that wires the charts together are not part of this model.
