/** C strings, compared as strcasecmp does, and values that may be missing. */
module Names {

  datatype Maybe<T> = Nothing | Just(value: T)

  type Byte = c: int | 0 < c < 256 witness 1
  type Name = seq<Byte>

  function Upper(c: Byte): Byte {
    if 0x61 <= c <= 0x7A then c - 0x20 else c
  }

  /** Two names are alike, but for case, when their folded forms are equal. */
  function Fold(name: Name): (f: Name)
    ensures |f| == |name|
  {
    seq(|name|, i requires 0 <= i < |name| => Upper(name[i]))
  }
}
