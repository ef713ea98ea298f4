/** Facts about sequences that the filter and field lemmas share. */
module Seqs {
  /** Concatenation is associative. */
  lemma AppendAssoc<T>(x: seq<T>, y: seq<T>, z: seq<T>)
    ensures x + (y + z) == x + y + z
  {
  }

  /** The same, for a three-part tail. */
  lemma AppendAssoc3<T>(w: seq<T>, x: seq<T>, y: seq<T>, z: seq<T>)
    ensures w + (x + y + z) == w + x + y + z
  {
    AppendAssoc(w, x + y, z);
    AppendAssoc(w, x, y);
  }
}
