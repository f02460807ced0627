/**
 * The text the capture hook injects for a selected slice and a captured key
 * (Form1.DiacriticalHookCallback, the block that builds `output`), and its inverse
 * reading over the overlay's own output table.
 */
module Composition {
  import opened Wrappers
  import opened Slices

  /** Virtual-key codes of the letter keys: `Keys.A`, `Keys.D`, `Keys.Z`. */
  const VkA: int := 0x41
  const VkD: int := 0x44
  const VkZ: int := 0x5A

  /** The keys the capture hook accepts: `Keys.A` to `Keys.Z`. */
  predicate IsLetterKey(vk: int) {
    VkA <= vk <= VkZ
  }

  /**
   * `(char)vkCode`: the virtual-key code read as a UTF-16 unit. For a letter key this is
   * the upper-case ASCII letter, whatever the Shift state or keyboard layout.
   */
  function KeyChar(vk: int): (c: char)
    requires IsLetterKey(vk)
    ensures 'A' <= c <= 'Z'
    ensures c as int == vk
  {
    vk as char
  }

  /** The table the reflective field lookup yields: a missing table reads as empty. */
  function TableOrEmpty(table: Option<seq<string>>): (r: seq<string>)
    ensures table.None? ==> r == []
    ensures table.Some? ==> r == table.value
  {
    match table
    case None => []
    case Some(t) => t
  }

  /**
   * The composed text for slice `idx`, letter key `vk` and Shift state `shift`, looked up
   * in `table`. The stroke slice substitutes "đ"/"Đ" for the D key and otherwise echoes
   * the letter; any other slice within the table appends its entry to the letter; a slice
   * beyond the table yields nothing.
   */
  function Compose(idx: nat, vk: int, shift: bool, table: Option<seq<string>>): (r: string)
    requires IsLetterKey(vk)
    ensures r == [] <==> idx != StrokeSlice && idx >= |TableOrEmpty(table)|
    ensures idx == StrokeSlice && vk == VkD ==> r == (if shift then "\U{0110}" else "\U{0111}")
    ensures idx == StrokeSlice && vk != VkD ==> r == [KeyChar(vk)]
    ensures idx != StrokeSlice && r != [] ==> r[0] == KeyChar(vk) && r[1..] == TableOrEmpty(table)[idx]
  {
    var outputs := TableOrEmpty(table);
    if idx == StrokeSlice then
      if vk == VkD then (if shift then "\U{0110}" else "\U{0111}")
      else [KeyChar(vk)]
    else if idx < |outputs| then
      [KeyChar(vk)] + outputs[idx]
    else
      ""
  }

  /** How an injected text reads back: a letter with a slice's mark, a stroke glyph, a bare letter. */
  datatype Reading = Marked(base: char, slice: nat) | Stroke(upper: bool) | Bare(base: char) | Unreadable

  /** The first slice at or after `from`, other than the stroke slice, whose output is `mark`. */
  function FindSlice(mark: string, from: nat): (r: Option<nat>)
    requires from <= SliceCount
    ensures r.Some? ==> from <= r.value < SliceCount && r.value != StrokeSlice
    ensures r.Some? ==> SliceOutputs()[r.value] == mark
    decreases SliceCount - from
  {
    if from == SliceCount then None
    else if from != StrokeSlice && SliceOutputs()[from] == mark then Some(from)
    else FindSlice(mark, from + 1)
  }

  predicate IsUpperLetter(c: char) {
    'A' <= c <= 'Z'
  }

  /** Splits an injected text into what it was composed from, using the overlay's table. */
  function Decompose(text: string): Reading {
    if text == "\U{0111}" then Stroke(false)
    else if text == "\U{0110}" then Stroke(true)
    else if |text| == 1 && IsUpperLetter(text[0]) then Bare(text[0])
    else if |text| >= 1 && IsUpperLetter(text[0]) && FindSlice(text[1..], 0).Some? then
      Marked(text[0], FindSlice(text[1..], 0).value)
    else Unreadable
  }

  /** What the user meant by choosing slice `idx` and pressing `vk` with Shift `shift`. */
  function Intended(idx: nat, vk: int, shift: bool): Reading
    requires IsLetterKey(vk)
  {
    if idx != StrokeSlice then Marked(KeyChar(vk), idx)
    else if vk == VkD then Stroke(shift)
    else Bare(KeyChar(vk))
  }

  /** Searching from `from` finds a non-stroke slice's own output at that slice. */
  lemma {:induction false} FindSliceOfOutput(idx: nat, from: nat)
    requires from <= idx < SliceCount && idx != StrokeSlice
    ensures FindSlice(SliceOutputs()[idx], from) == Some(idx)
    decreases idx - from
  {
    SliceOutputsDistinct();
    if from < idx {
      FindSliceOfOutput(idx, from + 1);
    }
  }

  /**
   * Round trip: composing with the overlay's table and reading the text back recovers the
   * letter and the slice (or the stroke case and its Shift state).
   */
  lemma DecomposeCompose(idx: nat, vk: int, shift: bool)
    requires idx < SliceCount && IsLetterKey(vk)
    ensures Decompose(Compose(idx, vk, shift, Some(SliceOutputs()))) == Intended(idx, vk, shift)
  {
    var r := Compose(idx, vk, shift, Some(SliceOutputs()));
    if idx != StrokeSlice {
      FindSliceOfOutput(idx, 0);
      assert r[1..] == SliceOutputs()[idx];
      assert |r| == 2;
    }
  }

  /** With the overlay's table, different slices always inject different text for the same key. */
  lemma ComposeSeparatesSlices(i: nat, j: nat, vk: int, shift: bool, shift': bool)
    requires i < SliceCount && j < SliceCount && IsLetterKey(vk)
    requires Compose(i, vk, shift, Some(SliceOutputs())) == Compose(j, vk, shift', Some(SliceOutputs()))
    ensures i == j
  {
    DecomposeCompose(i, vk, shift);
    DecomposeCompose(j, vk, shift');
  }

  /** Shift only matters on the stroke slice with the D key. */
  lemma ShiftOnlyMattersForStroke(idx: nat, vk: int, table: Option<seq<string>>)
    requires IsLetterKey(vk)
    ensures Compose(idx, vk, true, table) != Compose(idx, vk, false, table)
        <==> idx == StrokeSlice && vk == VkD
  {
  }
}
