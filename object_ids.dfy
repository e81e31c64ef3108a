/**
 * MongoDB object identifiers as the job code sees them: a 12-byte value that
 * travels as a 24-character hexadecimal string (`ObjectID.Hex()` writes it,
 * `primitive.ObjectIDFromHex` reads it back). The model represents an
 * identifier by its canonical spelling, 24 lower-case hex digits, which is in
 * one-to-one correspondence with the 12 bytes.
 */
module ObjectIds {
  import opened Wrappers

  predicate IsHexDigit(c: char) {
    ('0' <= c <= '9') || ('a' <= c <= 'f') || ('A' <= c <= 'F')
  }

  predicate IsLowerHexDigit(c: char) {
    ('0' <= c <= '9') || ('a' <= c <= 'f')
  }

  predicate IsCanonical(s: string) {
    |s| == 24 && forall i :: 0 <= i < |s| ==> IsLowerHexDigit(s[i])
  }

  type ObjectId = s: string | IsCanonical(s) witness "000000000000000000000000"

  /** `primitive.NilObjectID`, the identifier of a job that has not been stored yet. */
  const NilObjectId: ObjectId := "000000000000000000000000"

  function ToLowerHex(c: char): (d: char)
    requires IsHexDigit(c)
    ensures IsLowerHexDigit(d)
    ensures IsLowerHexDigit(c) ==> d == c
  {
    if 'A' <= c <= 'F' then (c - 'A' + 'a') as char else c
  }

  /** `ObjectIDFromHex`: exactly 24 hex digits of either case, otherwise an error. */
  function FromHex(s: string): (r: Option<ObjectId>)
    ensures r.Some? <==> |s| == 24 && forall i :: 0 <= i < |s| ==> IsHexDigit(s[i])
    ensures IsCanonical(s) ==> r == Some(s)
  {
    if |s| == 24 && forall i :: 0 <= i < |s| ==> IsHexDigit(s[i]) then
      var t := seq(|s|, i requires 0 <= i < |s| => ToLowerHex(s[i]));
      assert IsCanonical(s) ==> t == s;
      Some(t)
    else
      None
  }

  /** `ObjectID.Hex()`: the canonical spelling. */
  function Hex(id: ObjectId): (s: string)
    ensures |s| == 24
  {
    id
  }

  /** Every identifier the system prints is read back as the same identifier. */
  lemma HexRoundTrip(id: ObjectId)
    ensures FromHex(Hex(id)) == Some(id)
  {
  }
}
