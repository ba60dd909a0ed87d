/**
 * MongoDB record identifiers (bson `ObjectId`).
 *
 * An identifier is twelve bytes; its text form, `str(oid)`, is 24 lower-case hex
 * digits. `ObjectId(s)` accepts a 24-character string of hex digits in either case
 * and raises `InvalidId` for anything else.
 */
module ObjectIds {
  import opened Values

  predicate IsHexDigit(c: char) {
    '0' <= c <= '9' || 'a' <= c <= 'f' || 'A' <= c <= 'F'
  }

  predicate IsLowerHexDigit(c: char) {
    '0' <= c <= '9' || 'a' <= c <= 'f'
  }

  /** The text form of an identifier, as `str(oid)` renders it. */
  predicate IsCanonical(s: string) {
    |s| == 24 && forall i :: 0 <= i < |s| ==> IsLowerHexDigit(s[i])
  }

  type Oid = s: string | IsCanonical(s) witness "000000000000000000000000"

  function LowerHex(c: char): (r: char)
    requires IsHexDigit(c)
    ensures IsLowerHexDigit(r)
  {
    if 'A' <= c <= 'F' then ((c as int) + 32) as char else c
  }

  predicate IsObjectIdText(s: string) {
    |s| == 24 && forall i :: 0 <= i < |s| ==> IsHexDigit(s[i])
  }

  /** `ObjectId(s)`: the identifier a string denotes, or None where bson raises InvalidId. */
  function ParseObjectId(s: string): Option<Oid> {
    if IsObjectIdText(s) then
      var t := seq(24, i requires 0 <= i < 24 => LowerHex(s[i]));
      assert IsCanonical(t);
      Some(t)
    else None
  }

  /** `ObjectId(str(oid)) == oid`: every identifier's text form parses back to it. */
  lemma ParseShow(o: Oid)
    ensures ParseObjectId(o) == Some(o)
  {
    var t := seq(24, i requires 0 <= i < 24 => LowerHex(o[i]));
    assert t == o;
  }

  /** A string is accepted exactly when it is 24 hex digits, and then denotes the identifier
      that agrees with it up to the case of the letters. */
  lemma ParseObjectIdSpec(s: string)
    ensures ParseObjectId(s).Some? <==> IsObjectIdText(s)
    ensures ParseObjectId(s).Some? ==>
      forall i :: 0 <= i < 24 ==> ParseObjectId(s).value[i] == LowerHex(s[i])
  {
  }
}
