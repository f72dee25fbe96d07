/** MongoDB document identifiers as they appear in requests and tokens. */
module ObjectIds {
  import opened JsString

  /** The hexadecimal text of an ObjectId, as `toString()` and `req.user.id` give it. */
  type ObjectId = string

  predicate IsLowerHexDigit(c: char) {
    '0' <= c <= '9' || 'a' <= c <= 'f'
  }

  predicate IsHexDigit(c: char) {
    IsLowerHexDigit(c) || 'A' <= c <= 'F'
  }

  /** The text of an ObjectId: 24 lower-case hexadecimal digits. */
  predicate WellFormedId(s: string) {
    |s| == 24 && forall i :: 0 <= i < |s| ==> IsLowerHexDigit(s[i])
  }

  /** The strings the ObjectId cast of `findById` accepts without a cast error:
      24 hexadecimal digits in either case. */
  predicate IsObjectIdText(s: string) {
    |s| == 24 && forall i :: 0 <= i < |s| ==> IsHexDigit(s[i])
  }

  /** The ObjectId a castable string denotes, as its text: the same digits in lower case. */
  function CastId(s: string): (id: ObjectId)
    ensures |id| == |s| && forall i :: 0 <= i < |s| ==> id[i] == LowerChar(s[i])
    ensures IsObjectIdText(s) ==> WellFormedId(id)
    ensures WellFormedId(s) ==> id == s
  {
    var id := LowerAscii(s);
    assert WellFormedId(s) ==> forall i :: 0 <= i < |s| ==> id[i] == s[i];
    id
  }

  /** The text of every ObjectId is castable, and casting it changes nothing. */
  lemma CastOfId(id: ObjectId)
    requires WellFormedId(id)
    ensures IsObjectIdText(id) && CastId(id) == id
  {
  }

  /** The cast ignores the case of the digits. */
  lemma CastIgnoresCase(s: string)
    requires IsObjectIdText(s)
    ensures IsObjectIdText(CastId(s)) && CastId(CastId(s)) == CastId(s)
  {
  }
}
