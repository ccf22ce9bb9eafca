/**
 * The per-party list items that both tooltip renderers (the vote-percentage
 * chart's and the tile chart's `tooltip_render`) emit, one per row of
 * `tooltip_data.result`.
 */
module Tooltip {
  import opened Parties

  /**
   * One entry of `tooltip_data.result`. The vote count and the percentage
   * are numbers in the source; here they arrive already as their text.
   */
  datatype Row = Row(nominee: string, votecount: string, percentage: string, party: string)

  /** The `<li>` element emitted for one row. */
  function Item(row: Row): string
  {
    "<li class = " + ClassText(ChooseClass(row.party)) + ">" + row.nominee + ":\t\t"
      + row.votecount + "(" + row.percentage + "%)" + "</li>"
  }

  /** The strings `f` makes of the elements of `xs`, concatenated in order. */
  function ConcatMap<T>(f: T -> string, xs: seq<T>): string
  {
    if xs == [] then "" else ConcatMap(f, xs[..|xs| - 1]) + f(xs[|xs| - 1])
  }

  /** The items of all rows, in row order. */
  function Items(rows: seq<Row>): string
  {
    ConcatMap(Item, rows)
  }

  /** Mapping a concatenation gives the concatenated results. */
  lemma {:induction false} ConcatMapAppend<T>(f: T -> string, a: seq<T>, b: seq<T>)
    ensures ConcatMap(f, a + b) == ConcatMap(f, a) + ConcatMap(f, b)
  {
    if b == [] {
      assert a + b == a;
    } else {
      var front := b[..|b| - 1];
      assert (a + b)[..|a + b| - 1] == a + front;
      assert (a + b)[|a + b| - 1] == b[|b| - 1];
      ConcatMapAppend(f, a, front);
    }
  }

  /** One more row adds its item at the end. */
  lemma ItemsSnoc(rows: seq<Row>, i: nat)
    requires i < |rows|
    ensures Items(rows[..i + 1]) == Items(rows[..i]) + Item(rows[i])
  {
    assert rows[..i + 1][..i] == rows[..i];
  }

  /** Appending one more item to a text that ends with the first `i` items. */
  lemma AppendItem(prefix: string, rows: seq<Row>, i: nat)
    requires i < |rows|
    ensures (prefix + Items(rows[..i])) + Item(rows[i]) == prefix + Items(rows[..i + 1])
  {
    ItemsSnoc(rows, i);
  }

  /** Items of a concatenation are the concatenated items. */
  lemma ItemsAppend(a: seq<Row>, b: seq<Row>)
    ensures Items(a + b) == Items(a) + Items(b)
  {
    ConcatMapAppend(Item, a, b);
  }

  /** An item opens with the class attribute and closes its `<li>`. */
  lemma ItemShape(row: Row)
    ensures |Item(row)| >= 17
    ensures Item(row)[..12] == "<li class = "
    ensures Item(row)[|Item(row)| - 5..] == "</li>"
  {
    var rest := ClassText(ChooseClass(row.party)) + ">" + row.nominee + ":\t\t"
      + row.votecount + "(" + row.percentage + "%)";
    assert Item(row) == "<li class = " + rest + "</li>";
  }

  /** A non-empty list of items ends with the closing tag of its last item. */
  lemma ItemsEndWithItem(rows: seq<Row>)
    requires rows != []
    ensures |Items(rows)| >= 5 && Items(rows)[|Items(rows)| - 5..] == "</li>"
  {
    var last := Item(rows[|rows| - 1]);
    ItemShape(rows[|rows| - 1]);
    var prefix := Items(rows[..|rows| - 1]);
    assert Items(rows) == prefix + last;
    assert (prefix + last)[|prefix + last| - 5..] == last[|last| - 5..];
  }
}
