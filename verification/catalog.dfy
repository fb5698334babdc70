/**
 * The item master's display label (app.py:43): part number, " - ", item name.
 * The label is what the request form stores in the `item` column, so the
 * top-items report groups by it.
 */
module Catalog {
  import opened Wrappers

  const Separator: string := " - "

  function ItemDisplay(partNumber: string, itemName: string): string
  {
    partNumber + Separator + itemName
  }

  /** Position of the first `ch` in `s`. */
  function IndexOf(s: string, ch: char): (i: nat)
    requires ch in s
    ensures i < |s| && s[i] == ch
    ensures forall j :: 0 <= j < i ==> s[j] != ch
  {
    if s[0] == ch then 0 else 1 + IndexOf(s[1..], ch)
  }

  /** Reads a label back into part number and item name by splitting at its
      first space, which must start the separator. */
  function SplitLabel(display: string): Option<(string, string)>
  {
    if ' ' !in display then None
    else
      var i := IndexOf(display, ' ');
      if i + |Separator| > |display| || display[i..i + |Separator|] != Separator then None
      else Some((display[..i], display[i + |Separator|..]))
  }

  /** For part numbers without spaces the label is read back exactly. */
  lemma SplitItemDisplay(partNumber: string, itemName: string)
    requires ' ' !in partNumber
    ensures SplitLabel(ItemDisplay(partNumber, itemName)) == Some((partNumber, itemName))
  {
    var display := ItemDisplay(partNumber, itemName);
    var n := |partNumber|;
    assert display[n] == ' ';
    var i := IndexOf(display, ' ');
    assert forall j :: 0 <= j < n ==> display[j] == partNumber[j];
    assert i == n;
    assert display[n..n + 3] == Separator;
    assert display[..n] == partNumber;
    assert display[n + 3..] == itemName;
  }

  /** Hence distinct catalog entries whose part numbers contain no space get distinct labels. */
  lemma ItemDisplayInjective(p1: string, n1: string, p2: string, n2: string)
    requires ' ' !in p1 && ' ' !in p2
    requires ItemDisplay(p1, n1) == ItemDisplay(p2, n2)
    ensures p1 == p2 && n1 == n2
  {
    SplitItemDisplay(p1, n1);
    SplitItemDisplay(p2, n2);
  }

  /** Without that restriction two entries can share a display. */
  lemma ItemDisplayCollision()
    ensures ItemDisplay("A", "B - C") == ItemDisplay("A - B", "C")
  {
  }
}
