/**
 * The constant tables of the radial overlay (OverlayForm) and the slice index a click
 * inside the ring records.
 */
module Slices {
  /** Number of wedges the overlay is divided into (`sliceCount`). */
  const SliceCount: nat := 9

  /** The slice whose output entry is the stroke marker rather than a combining mark. */
  const StrokeSlice: nat := 2

  /** The stroke marker stored in the output table: U+0111, LATIN SMALL LETTER D WITH STROKE. */
  const StrokeMarker: string := "\U{0111}"

  /** A single code point of the Combining Diacritical Marks block, U+0300 to U+036F. */
  predicate IsCombiningMark(m: string) {
    |m| == 1 && '\U{0300}' <= m[0] <= '\U{036F}'
  }

  /** The glyphs painted on the wedges (`sliceLabels`), in their declared order. */
  function SliceLabels(): (r: seq<string>)
    ensures |r| == SliceCount
    ensures r[8] == StrokeMarker
  {
    ["\U{0301}", "\U{0300}", "\U{0309}", "\U{0303}", "\U{0323}",
     "\U{02D8}", "\U{02C6}", "\U{031B}", "\U{0111}"]
  }

  /**
   * What each slice contributes to the composed text (`sliceOutputs`): grave, acute,
   * the stroke marker, hook above, circumflex, breve, dot below, tilde, horn.
   */
  function SliceOutputs(): (r: seq<string>)
    ensures |r| == SliceCount
    ensures r[StrokeSlice] == StrokeMarker && !IsCombiningMark(r[StrokeSlice])
    ensures forall i :: 0 <= i < |r| && i != StrokeSlice ==> IsCombiningMark(r[i])
  {
    ["\U{0300}", "\U{0301}", "\U{0111}", "\U{0309}", "\U{0302}",
     "\U{0306}", "\U{0323}", "\U{0303}", "\U{031B}"]
  }

  /**
   * The index a click inside the ring stores: the wedge number reduced modulo the number
   * of labels. The hit-test only produces non-negative wedge numbers, so C#'s truncating
   * remainder agrees with Dafny's here.
   */
  function ClickedSlice(slice: nat): (r: nat)
    ensures r < SliceCount
    ensures slice < SliceCount ==> r == slice
    ensures (slice - r) % SliceCount == 0
  {
    slice % |SliceLabels()|
  }

  /** No two slices produce the same output, so the output identifies the slice. */
  lemma SliceOutputsDistinct()
    ensures forall i, j :: 0 <= i < j < SliceCount ==> SliceOutputs()[i] != SliceOutputs()[j]
  {
    var o := SliceOutputs();
    forall i, j | 0 <= i < j < SliceCount ensures o[i] != o[j] {
      assert o[i][0] != o[j][0];
    }
  }

  /**
   * The two tables are declared in different orders: at no index does the painted label
   * equal the output the slice produces (the stroke label sits at 8, its output at 2).
   */
  lemma LabelsDisagreeWithOutputs()
    ensures forall i :: 0 <= i < SliceCount ==> SliceLabels()[i] != SliceOutputs()[i]
  {
    var l, o := SliceLabels(), SliceOutputs();
    forall i | 0 <= i < SliceCount ensures l[i] != o[i] {
      assert l[i][0] != o[i][0];
    }
  }
}
