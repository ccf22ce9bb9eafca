/**
 * The tile chart's `rowColum` table: a JavaScript object literal from state
 * abbreviation to a (row, column) pair. The literal lists Maine twice, first
 * at (0, 11) and last at (11, 0); as in any object literal, the later entry
 * wins.
 *
 * Only `Entries` and `RowColumn` model the table. `Layout` (the same grid
 * drawn as a picture) and `ListingOf` (where each key's live entry sits)
 * are not part of `rowColum`: they restate its content so that the verifier
 * can check each entry by evaluation, and `EntriesChecked` proves them
 * consistent with `Entries`. The eight `Part*Front`/`Part*Back` lemmas run
 * that check half a block at a time, which keeps each one small.
 */
module TileGrid {

  /** A grid position: `.0` is the tile's row (its x slot), `.1` its column (its y slot). */
  type Cell = (int, int)

  // The entries of the literal in source order. They are split into four
  // blocks only so that the verifier can evaluate each block by itself.

  const Part1: seq<(string, Cell)> := [
    ("AL", (7, 6)), ("AK", (0, 0)), ("AZ", (2, 5)), ("AR", (5, 5)), ("CA", (1, 4)),
    ("CO", (3, 4)), ("CT", (10, 3)), ("DE", (9, 5)), ("FL", (9, 7)), ("GA", (8, 6)),
    ("HI", (1, 7)), ("ID", (2, 2)), ("IL", (6, 2))]
  const Part2: seq<(string, Cell)> := [
    ("IN", (6, 3)), ("IA", (5, 3)), ("KS", (4, 5)), ("KY", (6, 4)), ("LA", (5, 6)),
    ("ME", (0, 11)), ("MD", (8, 3)), ("MA", (11, 2)), ("MI", (8, 2)), ("MN", (5, 2)),
    ("MS", (6, 6)), ("MO", (5, 4)), ("MT", (3, 2))]
  const Part3: seq<(string, Cell)> := [
    ("NE", (4, 4)), ("NV", (2, 3)), ("NH", (11, 1)), ("NJ", (9, 4)), ("NM", (3, 5)),
    ("NY", (9, 2)), ("NC", (7, 5)), ("ND", (4, 2)), ("OH", (7, 3)), ("OK", (4, 6)),
    ("OR", (1, 3)), ("PA", (9, 3)), ("RI", (10, 2))]
  const Part4: seq<(string, Cell)> := [
    ("SC", (8, 5)), ("SD", (4, 3)), ("TN", (6, 5)), ("TX", (4, 7)), ("UT", (2, 4)),
    ("VT", (10, 1)), ("VA", (8, 4)), ("WA", (1, 2)), ("WV", (7, 4)), ("WI", (7, 2)),
    ("WY", (3, 3)), ("DC", (10, 4)), ("ME", (11, 0))]

  const Entries: seq<(string, Cell)> := Part1 + Part2 + Part3 + Part4

  /** The object an object literal builds: entries are stored in order, so a later duplicate key overwrites. */
  function ObjectLiteral(es: seq<(string, Cell)>): map<string, Cell>
  {
    if es == [] then map[] else ObjectLiteral(es[..|es| - 1])[es[|es| - 1].0 := es[|es| - 1].1]
  }

  /** The `rowColum` object. */
  function RowColumn(): map<string, Cell>
  {
    ObjectLiteral(Entries)
  }

  /**
   * The same map drawn as a picture: `Layout[row][column]` names the state
   * listed at that cell ("" where none is). Maine appears at both of its
   * listed cells.
   */
  const Layout: seq<seq<string>> := [
    ["AK", "", "", "", "", "", "", "", "", "", "", "ME"],
    ["", "", "WA", "OR", "CA", "", "", "HI"],
    ["", "", "ID", "NV", "UT", "AZ"],
    ["", "", "MT", "WY", "CO", "NM"],
    ["", "", "ND", "SD", "NE", "KS", "OK", "TX"],
    ["", "", "MN", "IA", "MO", "AR", "LA"],
    ["", "", "IL", "IN", "KY", "TN", "MS"],
    ["", "", "WI", "OH", "WV", "NC", "AL"],
    ["", "", "MI", "MD", "VA", "SC", "GA"],
    ["", "", "NY", "PA", "NJ", "DE", "", "FL"],
    ["", "VT", "RI", "CT", "DC"],
    ["ME", "NH", "MA"]]

  function TileAt(cell: Cell): string
  {
    if 0 <= cell.0 < |Layout| && 0 <= cell.1 < |Layout[cell.0]| then Layout[cell.0][cell.1] else ""
  }

  /** The keys of an object literal are the keys its entries list. */
  lemma {:induction false} ObjectLiteralKeys(es: seq<(string, Cell)>, k: string)
    ensures k in ObjectLiteral(es) <==> exists i :: 0 <= i < |es| && es[i].0 == k
  {
    if es != [] {
      var front := es[..|es| - 1];
      ObjectLiteralKeys(front, k);
      if exists i :: 0 <= i < |es| && es[i].0 == k {
        var i :| 0 <= i < |es| && es[i].0 == k;
        if i < |front| {
          assert front[i].0 == k;
        }
      }
      if exists i :: 0 <= i < |front| && front[i].0 == k {
        var i :| 0 <= i < |front| && front[i].0 == k;
        assert es[i].0 == k;
      }
    }
  }

  /** Every key's value comes from an entry that lists that key with that value. */
  lemma {:induction false} ObjectLiteralValue(es: seq<(string, Cell)>, k: string)
    requires k in ObjectLiteral(es)
    ensures exists i :: 0 <= i < |es| && es[i] == (k, ObjectLiteral(es)[k])
  {
    var front := es[..|es| - 1];
    if es[|es| - 1].0 != k {
      ObjectLiteralValue(front, k);
      var i :| 0 <= i < |front| && front[i] == (k, ObjectLiteral(front)[k]);
      assert es[i] == front[i];
    }
  }

  /** An entry no later entry overrides supplies its key's value. */
  lemma {:induction false} LastEntryWins(es: seq<(string, Cell)>, i: nat)
    requires i < |es|
    requires forall j :: i < j < |es| ==> es[j].0 != es[i].0
    ensures es[i].0 in ObjectLiteral(es) && ObjectLiteral(es)[es[i].0] == es[i].1
  {
    if i < |es| - 1 {
      var front := es[..|es| - 1];
      assert front[i] == es[i];
      LastEntryWins(front, i);
    }
  }

  /** Maine's second listing, (11, 0), is the one that holds. */
  lemma MaineIsOverwritten()
    ensures "ME" in RowColumn() && RowColumn()["ME"] == (11, 0)
  {
    assert Entries[|Entries| - 1] == ("ME", (11, 0));
  }

  /** Position of Maine's first entry in the literal, the one the second overrides. */
  const FirstMaine: nat := 18

  /**
   * For each abbreviation in the table, the position in the literal of the
   * entry whose cell it ends up with; -1 for any other string.
   */
  function ListingOf(k: string): int
  {
    if |k| != 2 then -1 else
    match (k[0], k[1])
    case ('A', 'K') => 1
    case ('A', 'L') => 0
    case ('A', 'R') => 3
    case ('A', 'Z') => 2
    case ('C', 'A') => 4
    case ('C', 'O') => 5
    case ('C', 'T') => 6
    case ('D', 'C') => 50
    case ('D', 'E') => 7
    case ('F', 'L') => 8
    case ('G', 'A') => 9
    case ('H', 'I') => 10
    case ('I', 'A') => 14
    case ('I', 'D') => 11
    case ('I', 'L') => 12
    case ('I', 'N') => 13
    case ('K', 'S') => 15
    case ('K', 'Y') => 16
    case ('L', 'A') => 17
    case ('M', 'A') => 20
    case ('M', 'D') => 19
    case ('M', 'E') => 51
    case ('M', 'I') => 21
    case ('M', 'N') => 22
    case ('M', 'O') => 24
    case ('M', 'S') => 23
    case ('M', 'T') => 25
    case ('N', 'C') => 32
    case ('N', 'D') => 33
    case ('N', 'E') => 26
    case ('N', 'H') => 28
    case ('N', 'J') => 29
    case ('N', 'M') => 30
    case ('N', 'V') => 27
    case ('N', 'Y') => 31
    case ('O', 'H') => 34
    case ('O', 'K') => 35
    case ('O', 'R') => 36
    case ('P', 'A') => 37
    case ('R', 'I') => 38
    case ('S', 'C') => 39
    case ('S', 'D') => 40
    case ('T', 'N') => 41
    case ('T', 'X') => 42
    case ('U', 'T') => 43
    case ('V', 'A') => 45
    case ('V', 'T') => 44
    case ('W', 'A') => 46
    case ('W', 'I') => 48
    case ('W', 'V') => 47
    case ('W', 'Y') => 49
    case _ => -1
  }

  /** A sequence without repeats has as many distinct elements as it has elements. */
  lemma {:induction false} DistinctCount(s: seq<string>)
    requires forall a, b :: 0 <= a < b < |s| ==> s[a] != s[b]
    ensures |set k | k in s| == |s|
  {
    if s != [] {
      var front := s[..|s| - 1];
      DistinctCount(front);
      assert (set k | k in s) == (set k | k in front) + {s[|s| - 1]};
    }
  }

  /**
   * What the proofs below need of entry `j` of the literal: the picture shows
   * its key at its cell, and, unless it is Maine's overridden first entry,
   * ListingOf names it as the entry for its key.
   */
  predicate EntryChecks(e: (string, Cell), j: nat)
  {
    TileAt(e.1) == e.0 && (j == FirstMaine || ListingOf(e.0) == j)
  }

  /** EntryChecks for entries `i` up to `hi` of a block starting at `offset` in the literal; written so that it evaluates on a literal. */
  function ChecksBetween(es: seq<(string, Cell)>, offset: nat, i: nat, hi: nat): bool
    decreases hi - i
  {
    i >= hi || i >= |es| || (EntryChecks(es[i], offset + i) && ChecksBetween(es, offset, i + 1, hi))
  }

  /** A passed range check gives the check of each entry in the range. */
  lemma {:induction false} ChecksAt(es: seq<(string, Cell)>, offset: nat, i: nat, hi: nat, j: nat)
    requires ChecksBetween(es, offset, i, hi)
    requires i <= j < hi && j < |es|
    ensures EntryChecks(es[j], offset + j)
    decreases j - i
  {
    if i < j {
      ChecksAt(es, offset, i + 1, hi, j);
    }
  }

  // The checks, half a block of the literal at a time.

  lemma Part1Front()
    ensures forall j :: 0 <= j < 7 ==> EntryChecks(Part1[j], 0 + j)
  {
    assert ChecksBetween(Part1, 0, 4, 7);
    assert ChecksBetween(Part1, 0, 0, 7);
    forall j | 0 <= j < 7
      ensures EntryChecks(Part1[j], 0 + j)
    {
      ChecksAt(Part1, 0, 0, 7, j);
    }
  }

  lemma Part1Back()
    ensures forall j :: 7 <= j < 13 ==> EntryChecks(Part1[j], 0 + j)
  {
    assert ChecksBetween(Part1, 0, 10, 13);
    assert ChecksBetween(Part1, 0, 7, 13);
    forall j | 7 <= j < 13
      ensures EntryChecks(Part1[j], 0 + j)
    {
      ChecksAt(Part1, 0, 7, 13, j);
    }
  }

  lemma Part2Front()
    ensures forall j :: 0 <= j < 7 ==> EntryChecks(Part2[j], 13 + j)
  {
    assert ChecksBetween(Part2, 13, 4, 7);
    assert ChecksBetween(Part2, 13, 0, 7);
    forall j | 0 <= j < 7
      ensures EntryChecks(Part2[j], 13 + j)
    {
      ChecksAt(Part2, 13, 0, 7, j);
    }
  }

  lemma Part2Back()
    ensures forall j :: 7 <= j < 13 ==> EntryChecks(Part2[j], 13 + j)
  {
    assert ChecksBetween(Part2, 13, 10, 13);
    assert ChecksBetween(Part2, 13, 7, 13);
    forall j | 7 <= j < 13
      ensures EntryChecks(Part2[j], 13 + j)
    {
      ChecksAt(Part2, 13, 7, 13, j);
    }
  }

  lemma Part3Front()
    ensures forall j :: 0 <= j < 7 ==> EntryChecks(Part3[j], 26 + j)
  {
    assert ChecksBetween(Part3, 26, 4, 7);
    assert ChecksBetween(Part3, 26, 0, 7);
    forall j | 0 <= j < 7
      ensures EntryChecks(Part3[j], 26 + j)
    {
      ChecksAt(Part3, 26, 0, 7, j);
    }
  }

  lemma Part3Back()
    ensures forall j :: 7 <= j < 13 ==> EntryChecks(Part3[j], 26 + j)
  {
    assert ChecksBetween(Part3, 26, 10, 13);
    assert ChecksBetween(Part3, 26, 7, 13);
    forall j | 7 <= j < 13
      ensures EntryChecks(Part3[j], 26 + j)
    {
      ChecksAt(Part3, 26, 7, 13, j);
    }
  }

  lemma Part4Front()
    ensures forall j :: 0 <= j < 7 ==> EntryChecks(Part4[j], 39 + j)
  {
    assert ChecksBetween(Part4, 39, 4, 7);
    assert ChecksBetween(Part4, 39, 0, 7);
    forall j | 0 <= j < 7
      ensures EntryChecks(Part4[j], 39 + j)
    {
      ChecksAt(Part4, 39, 0, 7, j);
    }
  }

  lemma Part4Back()
    ensures forall j :: 7 <= j < 13 ==> EntryChecks(Part4[j], 39 + j)
  {
    assert ChecksBetween(Part4, 39, 10, 13);
    assert ChecksBetween(Part4, 39, 7, 13);
    forall j | 7 <= j < 13
      ensures EntryChecks(Part4[j], 39 + j)
    {
      ChecksAt(Part4, 39, 7, 13, j);
    }
  }

  /** Every entry of the literal passes the checks. */
  lemma EntriesChecked()
    ensures forall j :: 0 <= j < |Entries| ==> EntryChecks(Entries[j], j)
  {
    Part1Front();
    Part1Back();
    Part2Front();
    Part2Back();
    Part3Front();
    Part3Back();
    Part4Front();
    Part4Back();
    forall j | 0 <= j < |Entries|
      ensures EntryChecks(Entries[j], j)
    {
      if j < 13 {
        assert Entries[j] == Part1[j];
      } else if j < 26 {
        assert Entries[j] == Part2[j - 13];
      } else if j < 39 {
        assert Entries[j] == Part3[j - 26];
      } else {
        assert Entries[j] == Part4[j - 39];
      }
    }
  }

  /** The picture shows every state at the cell the table gives it. */
  lemma KeyShownAtItsCell(k: string)
    requires k in RowColumn()
    ensures TileAt(RowColumn()[k]) == k
  {
    EntriesChecked();
    ObjectLiteralValue(Entries, k);
    var i :| 0 <= i < |Entries| && Entries[i] == (k, RowColumn()[k]);
    assert EntryChecks(Entries[i], i);
  }

  /** No two states share a cell, so no two tiles are drawn on top of each other. */
  lemma CellsDistinct(k1: string, k2: string)
    requires k1 in RowColumn() && k2 in RowColumn()
    requires k1 != k2
    ensures RowColumn()[k1] != RowColumn()[k2]
  {
    KeyShownAtItsCell(k1);
    KeyShownAtItsCell(k2);
  }

  /** Maine's first listing is dead: no state lands on (0, 11). */
  lemma FirstMaineCellUnused(k: string)
    requires k in RowColumn()
    ensures RowColumn()[k] != (0, 11)
  {
    KeyShownAtItsCell(k);
    MaineIsOverwritten();
    if k != "ME" {
      assert TileAt((0, 11)) == "ME";
    }
  }

  /** The keys of `es` with entry `m` dropped, in order. */
  function KeysWithout(es: seq<(string, Cell)>, m: nat): (keys: seq<string>)
    requires m < |es|
    ensures |keys| == |es| - 1
    ensures forall i :: 0 <= i < |keys| ==> keys[i] == es[if i < m then i else i + 1].0
  {
    var live := es[..m] + es[m + 1..];
    seq(|live|, i requires 0 <= i < |live| => live[i].0)
  }

  /** Every key of the object literal is still listed once the overridden entry `m` is dropped. */
  lemma {:induction false} OverriddenKeysKept(es: seq<(string, Cell)>, m: nat, k: string)
    requires m < |es| - 1 && es[m].0 == es[|es| - 1].0
    requires k in ObjectLiteral(es)
    ensures k in KeysWithout(es, m)
  {
    var keys := KeysWithout(es, m);
    ObjectLiteralKeys(es, k);
    var i :| 0 <= i < |es| && es[i].0 == k;
    var j := if i == m then |es| - 1 else i;
    var r := if j < m then j else j - 1;
    assert keys[r] == es[j].0 == k;
  }

  /** Every key listed without the overridden entry is a key of the object literal. */
  lemma {:induction false} OverriddenKeysListed(es: seq<(string, Cell)>, m: nat, k: string)
    requires m < |es|
    requires k in KeysWithout(es, m)
    ensures k in ObjectLiteral(es)
  {
    var keys := KeysWithout(es, m);
    var i :| 0 <= i < |keys| && keys[i] == k;
    var j := if i < m then i else i + 1;
    assert es[j].0 == k;
    ObjectLiteralKeys(es, k);
  }

  /** The entries other than Maine's first. */
  function LiveKeys(): seq<string>
  {
    KeysWithout(Entries, FirstMaine)
  }

  /** No key repeats among the live entries. */
  lemma LiveKeysDistinct()
    ensures forall a, b :: 0 <= a < b < |LiveKeys()| ==> LiveKeys()[a] != LiveKeys()[b]
  {
    EntriesChecked();
    var keys := LiveKeys();
    forall a, b | 0 <= a < b < |keys|
      ensures keys[a] != keys[b]
    {
      var ja := if a < FirstMaine then a else a + 1;
      var jb := if b < FirstMaine then b else b + 1;
      assert EntryChecks(Entries[ja], ja) && EntryChecks(Entries[jb], jb);
    }
  }

  /** The table holds 51 keys, 50 states and DC: 52 entries, one of them Maine's overridden first. */
  lemma KeyCount()
    ensures |RowColumn().Keys| == 51
  {
    LiveKeysDistinct();
    DistinctCount(LiveKeys());
    assert Entries[FirstMaine].0 == Entries[|Entries| - 1].0 == "ME";
    forall k
      ensures k in RowColumn() <==> k in LiveKeys()
    {
      if k in RowColumn() {
        OverriddenKeysKept(Entries, FirstMaine, k);
      }
      if k in LiveKeys() {
        OverriddenKeysListed(Entries, FirstMaine, k);
      }
    }
    assert RowColumn().Keys == set k | k in LiveKeys();
  }
}
