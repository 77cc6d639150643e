/** Errors thrown by database operations, and the classifier that decides
    whether one of them means the active backend ran out of quota. */
module QuotaErrors {

  datatype Option<T> = None | Some(value: T)

  /** The `code` property of a thrown error. Only a number can be strictly
      equal to 8, so string codes are kept apart from numeric ones. */
  datatype ErrorCode = NoCode | NumericCode(n: int) | OtherCode(text: string)

  /** A thrown error; its `message` may be missing. */
  datatype Error = Error(message: Option<string>, code: ErrorCode)

  /** The gRPC status RESOURCE_EXHAUSTED. */
  const ResourceExhaustedCode := 8

  /** `pat` occurs somewhere in `s`. */
  ghost predicate Occurs(pat: string, s: string) {
    exists i :: 0 <= i <= |s| && pat <= s[i..]
  }

  lemma OccursStep(pat: string, s: string)
    requires |s| > 0
    ensures Occurs(pat, s) <==> pat <= s || Occurs(pat, s[1..])
  {
    if Occurs(pat, s) && !(pat <= s) {
      var i :| 0 <= i <= |s| && pat <= s[i..];
      assert i != 0;
      assert s[1..][i - 1..] == s[i..];
    }
    if Occurs(pat, s[1..]) {
      var i :| 0 <= i <= |s[1..]| && pat <= s[1..][i..];
      assert s[1..][i..] == s[i + 1..];
    }
    if pat <= s {
      assert s[0..] == s;
    }
  }

  /** String.prototype.includes: whether `pat` is a substring of `s`. */
  function Includes(s: string, pat: string): (b: bool)
    ensures b <==> Occurs(pat, s)
    decreases |s|
  {
    if pat <= s then
      assert s[0..] == s;
      true
    else if |s| == 0 then
      false
    else
      OccursStep(pat, s);
      Includes(s[1..], pat)
  }

  /** The quota classifier of `executeWithFallback`: the message contains
      "quota" or "RESOURCE_EXHAUSTED" (case-sensitively), or the code is the
      number 8. A missing message matches neither substring. */
  function IsQuotaError(e: Error): (quota: bool)
    ensures quota <==>
      (e.message.Some? && (Occurs("quota", e.message.value) || Occurs("RESOURCE_EXHAUSTED", e.message.value)))
      || e.code == NumericCode(ResourceExhaustedCode)
  {
    (e.message.Some? && Includes(e.message.value, "quota"))
    || (e.message.Some? && Includes(e.message.value, "RESOURCE_EXHAUSTED"))
    || e.code == NumericCode(ResourceExhaustedCode)
  }

  /** A substring stays a substring when text is added on either side. */
  lemma OccursInContext(pat: string, s: string, before: string, after: string)
    requires Occurs(pat, s)
    ensures Occurs(pat, before + s + after)
  {
    var i :| 0 <= i <= |s| && pat <= s[i..];
    var t := before + s + after;
    assert t[|before| + i..] == s[i..] + after;
  }

  /** Wrapping the message of a quota error in more text (a status prefix,
      a context suffix) keeps it a quota error. */
  lemma {:induction false} QuotaSurvivesWrapping(e: Error, before: string, after: string)
    requires IsQuotaError(e)
    ensures IsQuotaError(Error(
      if e.message.Some? then Some(before + e.message.value + after) else e.message, e.code))
  {
    if e.message.Some? {
      var m := e.message.value;
      if Occurs("quota", m) {
        OccursInContext("quota", m, before, after);
      } else if Occurs("RESOURCE_EXHAUSTED", m) {
        OccursInContext("RESOURCE_EXHAUSTED", m, before, after);
      }
    }
  }

  /** A pattern whose first character never appears in `s` does not occur in it. */
  lemma AbsentFirstChar(pat: string, s: string)
    requires |pat| > 0 && forall k :: 0 <= k < |s| ==> s[k] != pat[0]
    ensures !Occurs(pat, s)
  {
    forall i | 0 <= i <= |s| ensures !(pat <= s[i..]) {
      if i < |s| {
        assert s[i..][0] == s[i];
      }
    }
  }

  /** The code alone decides the class of an error that has no message. */
  lemma MissingMessage(code: ErrorCode)
    ensures IsQuotaError(Error(None, code)) <==> code == NumericCode(ResourceExhaustedCode)
  {
  }

  /** Matching is case-sensitive: "Quota" is not "quota", so without code 8
      such a message is not a quota error. */
  lemma CapitalisedQuotaIsNotQuota()
    ensures !IsQuotaError(Error(Some("Quota exceeded"), NoCode))
  {
    AbsentFirstChar("quota", "Quota exceeded");
    AbsentFirstChar("RESOURCE_EXHAUSTED", "Quota exceeded");
  }

  /** A string code "8" is never strictly equal to the number 8. */
  lemma TextualCodeIsNotQuota()
    ensures !IsQuotaError(Error(None, OtherCode("8")))
  {
  }
}
