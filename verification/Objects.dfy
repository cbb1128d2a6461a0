/** Bytes and the keys that identify them, shared by the object store and its caches. Of SHA-256
    (section 6.2 of FIPS 180-4) the stores only need that it is injective; it is a parameter. */
module Objects {
  type Byte = b: int | 0 <= b < 256
  type Bytes = seq<Byte>
  type Key = string
}
