/** Vocabulary shared by both maps: keys, raw bytes, and what the persistent map
    needs from the type of the values it stores. */
module Base {

  /** None stands for Go's nil result of a lookup. */
  datatype Option<+T> = None | Some(value: T)

  /** Map keys are Go strings; the bucket stores them as their bytes. */
  type Key = string

  newtype byte = x: int | 0 <= x < 256

  /** A record's payload as the on-disk bucket holds it. */
  type Bytes = seq<byte>

  /** What a call of UnmarshalBaseObjectJSON on a fresh instance leaves behind:
      the (possibly partly) populated instance and the message it returned.
      The empty message means success. */
  datatype Decoded<V> = Decoded(value: V, message: string)
  {
    predicate Succeeded() { message == "" }
  }

  /** The stored value type, reduced to the two capabilities the persistent map
      uses: JSON encoding on write (json.Marshal, which may fail) and the
      type's own decoder on load. */
  datatype Codec<!V> = Codec(encode: V -> Option<Bytes>, decode: Bytes -> Decoded<V>)

  /** The codec gives back every value it managed to encode. */
  ghost predicate DecodesWhatItEncodes<V(!new)>(codec: Codec<V>)
  {
    forall v :: codec.encode(v).Some? ==> codec.decode(codec.encode(v).value) == Decoded(v, "")
  }
}
