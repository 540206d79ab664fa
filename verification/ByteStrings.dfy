/** Bytes and the machine integer they are counted in. */
module ByteStrings {
  type Byte = bv8
  type Bytes = seq<Byte>

  const U64_MAX: nat := 0xFFFF_FFFF_FFFF_FFFF
}
