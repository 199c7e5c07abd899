// Parsed JSON documents and digests.
//
// A digest function is always a parameter: nothing below assumes that it is
// injective, so every result holds for SHA-256 and for any other function into
// 64-digit lowercase hexadecimal strings.

module Json {

  /** Names of object fields. `Other` stands for every name the code never looks up. */
  datatype Key =
    | Schema | Status | Receipt | Terminal
    | CapabilityRef | Producer | Recipient | Action | ExpiresAt | CorrelationKey | SealDigest
    | DigestKey | Size | Assessment | Repair | Ref | Reason
    | ProjectId | Profile | SessionId | TaskId
    | Sequence | Stage | RecordedAt | PreviousHash | Evidence | ReceiptHash
    | EventId | PayloadHash
    | ManagedBy
    | Other(name: string)

  type Fields = map<Key, Value>

  datatype Value =
    | Null
    | Bool(b: bool)
    | Int(n: int)
    | Real(r: real)
    | Str(s: string)
    | Arr(items: seq<Value>)
    | Obj(fields: Fields)

  /** `dict.get(key)`: a missing field reads as None. */
  function Get(fields: Fields, key: Key): Value {
    if key in fields then fields[key] else Null
  }

  /** Python's `value == number`, where True equals 1, False equals 0 and 1.0 equals 1. */
  predicate EqualsInt(v: Value, number: int) {
    match v
    case Int(n) => n == number
    case Real(r) => r == number as real
    case Bool(b) => (if b then 1 else 0) == number
    case _ => false
  }

  predicate IsHexDigit(c: char) {
    '0' <= c <= '9' || 'a' <= c <= 'f'
  }

  predicate IsHex64(s: string) {
    |s| == 64 && forall i | 0 <= i < |s| :: IsHexDigit(s[i])
  }

  type Hex64 = s: string | IsHex64(s) witness seq(64, _ => '0')

  type Bytes = seq<bv8>

  /** The two uses of SHA-256: over the canonical encoding of a document, and over raw bytes. */
  datatype Sha256 = Sha256(document: Value -> Hex64, raw: Bytes -> Hex64)

  /** Two different documents with one digest. */
  ghost predicate Collide(sha: Sha256, a: Value, b: Value) {
    a != b && sha.document(a) == sha.document(b)
  }
}
