/** The schema names of stored records: "pkcs11rs.public-key-material" and
    "pkcs11rs.data-object". */
module Schemas {
  import opened Common
  import opened Cbor

  const PUBLIC_KEY_SCHEMA: seq<byte> := [
    0x70, 0x6b, 0x63, 0x73, 0x31, 0x31, 0x72, 0x73, 0x2e, 0x70, 0x75, 0x62, 0x6c, 0x69,
    0x63, 0x2d, 0x6b, 0x65, 0x79, 0x2d, 0x6d, 0x61, 0x74, 0x65, 0x72, 0x69, 0x61, 0x6c]

  const DATA_OBJECT_SCHEMA: seq<byte> := [
    0x70, 0x6b, 0x63, 0x73, 0x31, 0x31, 0x72, 0x73, 0x2e, 0x64, 0x61, 0x74, 0x61, 0x2d,
    0x6f, 0x62, 0x6a, 0x65, 0x63, 0x74]

  predicate Ascii(s: seq<byte>) { Sized(s) && forall i | 0 <= i < |s| :: s[i] < 0x80 }

  lemma SchemasAreAscii()
    ensures Ascii(PUBLIC_KEY_SCHEMA) && Ascii(DATA_OBJECT_SCHEMA)
  {
  }
}
