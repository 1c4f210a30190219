/**
 * The static string and pricing helpers of AIPRTest/CrossFunctionalHelper.cs.
 *
 * The timestamp that `AddTimestampAndSignature` reads from the clock is a parameter
 * here. `ToLowerInvariant` and `ToUpperInvariant` act on ASCII letters only (see module
 * Text). A thrown `ArgumentOutOfRangeException` is a `Failure(ArgumentOutOfRange)`.
 */
module CrossFunctionalHelper {
  import opened Wrappers
  import opened Text

  const ForbiddenWord: string := "forbidden_word"
  const ValidationFailed: string := "Error: Initial validation failed."
  const Signature: string := "SystemProcess"
  const Ellipsis: string := "..."

  /**
   * `ValidateInputString`: an input passes when it is non-empty, has at least five
   * characters in strict mode, and nowhere contains "forbidden_word".
   */
  function ValidateInputString(text: string, isStrict: bool): (ok: bool)
    ensures ok <==> |text| > 0 && (isStrict ==> |text| >= 5) && forall i :: !OccursAt(text, ForbiddenWord, i)
  {
    if |text| == 0 then false
    else if isStrict && |text| < 5 then false
    else if Contains(text, ForbiddenWord) then false
    else true
  }

  /** Five characters are enough in strict mode ("short" passes). */
  lemma ShortPassesStrictValidation()
    ensures ValidateInputString("short", true)
    ensures !ValidateInputString("shor", true)
  {
    assert forall i :: !OccursAt("short", ForbiddenWord, i);
  }

  /**
   * `ProcessText`: the first half (rounded down) stays in place, the rest is reversed,
   * and everything is lower-cased; the length never changes.
   */
  function ProcessText(text: string): (r: string)
    ensures |r| == |text|
    ensures forall i :: 0 <= i < |text| / 2 ==> r[i] == LowerChar(text[i])
    ensures forall i :: |text| / 2 <= i < |text| ==> r[i] == LowerChar(text[|text| / 2 + |text| - 1 - i])
  {
    var midPoint := |text| / 2;
    Lower(text[..midPoint] + Reverse(text[midPoint..]))
  }

  /** Processing only moves characters around and lowers them: the multiset of lowered characters is kept. */
  lemma ProcessTextPermutes(text: string)
    ensures multiset(ProcessText(text)) == multiset(Lower(text))
  {
    var m := |text| / 2;
    var front, back := text[..m], text[m..];
    assert text == front + back;
    ReverseSameMultiset(back);
    LowerMultisetAppend(front, Reverse(back));
    LowerMultisetAppend(front, back);
    LowerMultisetReverse(back);
  }

  lemma {:induction false} ReverseSameMultiset(s: string)
    ensures multiset(Reverse(s)) == multiset(s)
    decreases |s|
  {
    if |s| > 0 {
      ReverseSameMultiset(s[1..]);
      assert Reverse(s) == Reverse(s[1..]) + [s[0]];
      assert s == [s[0]] + s[1..];
    }
  }

  lemma LowerMultisetAppend(a: string, b: string)
    ensures Lower(a + b) == Lower(a) + Lower(b)
  {
  }

  lemma LowerMultisetReverse(s: string)
    ensures multiset(Lower(Reverse(s))) == multiset(Lower(s))
  {
    assert Lower(Reverse(s)) == Reverse(Lower(s));
    ReverseSameMultiset(Lower(s));
  }

  /** The example the source gives: "important_data" becomes "importaatad_tn". */
  lemma ProcessTextExample()
    ensures ProcessText("important_data") == "importaatad_tn"
  {
    var s := "important_data";
    var back := s[7..];
    assert back == "nt_data";
    var moved := s[..7] + Reverse(back);
    assert moved == "importaatad_tn";
    assert forall i :: 0 <= i < |moved| ==> !IsAsciiUpper(moved[i]);
    assert Lower(moved) == moved;
    assert ProcessText(s) == Lower(moved);
  }

  /**
   * `TruncateString`: an empty or short enough text comes back as it is; a longer one
   * is cut to `maxLength` characters, lower-cased, and given "..."; a negative
   * `maxLength` on a non-empty text makes `Substring` throw.
   */
  function TruncateString(text: string, maxLength: int): (r: Result<string, Fault>)
    ensures |text| == 0 || |text| <= maxLength ==> r == Success(text)
    ensures |text| > 0 && maxLength < 0 ==> r == Failure(ArgumentOutOfRange)
    ensures 0 <= maxLength < |text| ==>
      && r.Success?
      && |r.value| == maxLength + 3
      && (forall i :: 0 <= i < maxLength ==> r.value[i] == LowerChar(text[i]))
      && r.value[maxLength..] == Ellipsis
  {
    if |text| == 0 || |text| <= maxLength then Success(text)
    else if maxLength < 0 then Failure(ArgumentOutOfRange)
    else Success(Lower(text[..maxLength]) + Ellipsis)
  }

  /** The truncation example: "This is a long string" cut at 10 is "this is a ...". */
  lemma TruncateStringExample()
    ensures TruncateString("This is a long string", 10) == Success("this is a ...")
  {
    var text := "This is a long string";
    assert |text| == 21 && text[..10] == "This is a ";
    assert Lower("This is a ") == "this is a ";
    assert "this is a " + Ellipsis == "this is a ...";
  }

  /** `AddTimestampAndSignature` with the formatted timestamp passed in. */
  function AddTimestampAndSignature(text: string, signature: string, timestamp: string): (r: string)
    ensures |r| == |timestamp| + |text| + |signature| + 14
    ensures r[0] == '[' && r[1..|timestamp| + 1] == timestamp && r[|timestamp| + 1..|timestamp| + 3] == "] "
    ensures OccursAt(r, text, |timestamp| + 3)
    ensures r[|timestamp| + 3 + |text|..] == " - Signed: " + signature
  {
    "[" + timestamp + "] " + text + " - Signed: " + signature
  }

  /** The characters `SanitizeOutput` keeps: ASCII digits and letters and `. _ space - [ ] :`. */
  predicate Allowed(c: char) {
    ('0' <= c <= '9') || ('A' <= c <= 'Z') || ('a' <= c <= 'z')
    || c == '.' || c == '_' || c == ' ' || c == '-' || c == '[' || c == ']' || c == ':'
  }

  /** The allowed characters of `s`, in their order. */
  function Sanitize(s: string): string
    decreases |s|
  {
    if |s| == 0 then []
    else Sanitize(s[..|s| - 1]) + (if Allowed(s[|s| - 1]) then [s[|s| - 1]] else [])
  }

  /** `SanitizeOutput`: appends each allowed character to a builder, skipping the rest. */
  method SanitizeOutput(text: string) returns (r: string)
    ensures r == Sanitize(text)
  {
    var sb: string := [];
    for i := 0 to |text|
      invariant sb == Sanitize(text[..i])
    {
      assert text[..i + 1][..i] == text[..i];
      if Allowed(text[i]) {
        sb := sb + [text[i]];
      }
    }
    assert text[..|text|] == text;
    return sb;
  }

  /** Sanitising keeps every allowed character and drops every other one, and never lengthens. */
  lemma {:induction false} SanitizeCounts(s: string)
    ensures |Sanitize(s)| <= |s|
    ensures forall c :: multiset(Sanitize(s))[c] == if Allowed(c) then multiset(s)[c] else 0
    decreases |s|
  {
    if |s| > 0 {
      var n := |s| - 1;
      SanitizeCounts(s[..n]);
      assert s == s[..n] + [s[n]];
      assert multiset(s) == multiset(s[..n]) + multiset{s[n]};
      assert multiset(Sanitize(s)) == multiset(Sanitize(s[..n])) + multiset(if Allowed(s[n]) then [s[n]] else []);
    }
  }

  /** Only allowed characters come out. */
  lemma {:induction false} SanitizeOnlyAllowed(s: string)
    ensures forall i :: 0 <= i < |Sanitize(s)| ==> Allowed(Sanitize(s)[i])
    decreases |s|
  {
    if |s| > 0 {
      SanitizeOnlyAllowed(s[..|s| - 1]);
    }
  }

  lemma {:induction false} SanitizeKeepsAllowedText(s: string)
    requires forall i :: 0 <= i < |s| ==> Allowed(s[i])
    ensures Sanitize(s) == s
    decreases |s|
  {
    if |s| > 0 {
      var n := |s| - 1;
      assert forall i :: 0 <= i < n ==> s[..n][i] == s[i];
      SanitizeKeepsAllowedText(s[..n]);
      assert Allowed(s[n]);
      assert s == s[..n] + [s[n]];
    }
  }

  /** A text is left as it is exactly when all of its characters are allowed. */
  lemma SanitizeFixedPoints(s: string)
    ensures Sanitize(s) == s <==> forall i :: 0 <= i < |s| ==> Allowed(s[i])
  {
    SanitizeOnlyAllowed(s);
    if forall i :: 0 <= i < |s| ==> Allowed(s[i]) {
      SanitizeKeepsAllowedText(s);
    }
  }

  /** Sanitising twice is sanitising once. */
  lemma SanitizeIdempotent(s: string)
    ensures Sanitize(Sanitize(s)) == Sanitize(s)
  {
    SanitizeOnlyAllowed(s);
    SanitizeFixedPoints(Sanitize(s));
  }

  /** Process, truncate and sign a validated input: the result before the strict-mode cut. */
  function SignedText(input: string, maxLength: int, timestamp: string): (r: Result<string, Fault>)
    ensures r.Success? ==> |r.value| >= |timestamp| + 27 && r.value[|r.value| - 24..] == " - Signed: " + Signature
  {
    match TruncateString(ProcessText(input), maxLength)
    case Failure(e) => Failure(e)
    case Success(truncated) =>
      var signed := AddTimestampAndSignature(truncated, Signature, timestamp);
      assert signed[|timestamp| + 3 + |truncated|..] == " - Signed: " + Signature;
      assert |signed| - 24 == |timestamp| + 3 + |truncated|;
      Success(signed)
  }

  /** Signing fails, because truncation throws, exactly when `maxLength` is negative. */
  lemma SignedTextFails(input: string, maxLength: int, timestamp: string)
    requires |input| > 0
    ensures SignedText(input, maxLength, timestamp).Failure? <==> maxLength < 0
  {
    assert |ProcessText(input)| == |input|;
  }

  /**
   * `PerformComplexFormattingAndValidation` with the timestamp passed in: validate,
   * process, truncate, sign; in strict mode a result longer than `maxLength + 20` is
   * sanitised and, if still longer than `maxLength + 15`, cut there and given "...".
   */
  function PerformComplexFormattingAndValidation(input: string, maxLength: int, strictMode: bool, timestamp: string)
    : (r: Result<string, Fault>)
    ensures !ValidateInputString(input, strictMode) ==> r == Success(ValidationFailed)
    ensures ValidateInputString(input, strictMode) ==> (r.Failure? <==> maxLength < 0)
  {
    if !ValidateInputString(input, strictMode) then Success(ValidationFailed)
    else
      SignedTextFails(input, maxLength, timestamp);
      match SignedText(input, maxLength, timestamp)
      case Failure(e) => Failure(e)
      case Success(finalResult) =>
        if strictMode && |finalResult| > maxLength + 20 then
          var sanitized := Sanitize(finalResult);
          if |sanitized| > maxLength + 15 then Success(sanitized[..maxLength + 15] + Ellipsis)
          else Success(sanitized)
        else Success(finalResult)
  }

  /** The rejected example: any input with "forbidden_word" in it gives the validation error. */
  lemma ForbiddenInputRejected(maxLength: int, strictMode: bool, timestamp: string)
    ensures PerformComplexFormattingAndValidation("forbidden_word_here", maxLength, strictMode, timestamp)
      == Success(ValidationFailed)
  {
    assert OccursAt("forbidden_word_here", ForbiddenWord, 0);
  }

  /** In strict mode a successful result is at most `maxLength + 20` characters long. */
  lemma StrictModeBoundsLength(input: string, maxLength: int, timestamp: string)
    requires ValidateInputString(input, true)
    ensures var r := PerformComplexFormattingAndValidation(input, maxLength, true, timestamp);
      r.Success? ==> |r.value| <= maxLength + 20
  {
  }

  /**
   * In strict mode the signed text is returned as it is when it is short enough;
   * otherwise the result holds only characters the sanitiser allows.
   */
  lemma StrictModeSanitizesLongResults(input: string, maxLength: int, timestamp: string)
    requires ValidateInputString(input, true) && maxLength >= 0
    ensures var signed := SignedText(input, maxLength, timestamp).value;
      var r := PerformComplexFormattingAndValidation(input, maxLength, true, timestamp).value;
      if |signed| <= maxLength + 20 then r == signed
      else forall i :: 0 <= i < |r| ==> Allowed(r[i])
  {
    var signed := SignedText(input, maxLength, timestamp).value;
    SanitizeOnlyAllowed(signed);
  }

  /** Sanitising works character by character, so it distributes over concatenation. */
  lemma {:induction false} SanitizeAppend(a: string, b: string)
    ensures Sanitize(a + b) == Sanitize(a) + Sanitize(b)
    decreases |b|
  {
    if |b| > 0 {
      var n := |b| - 1;
      assert (a + b)[..|a + b| - 1] == a + b[..n];
      SanitizeAppend(a, b[..n]);
    } else {
      assert a + b == a;
    }
  }

  /** The signature line is made of allowed characters, so a signed text keeps it through sanitising. */
  lemma SanitizeKeepsSignature(signed: string)
    requires |signed| >= 24 && signed[|signed| - 24..] == " - Signed: " + Signature
    ensures var clean := Sanitize(signed);
      |clean| >= 24 && clean[|clean| - 24..] == " - Signed: " + Signature
  {
    var tail := " - Signed: " + Signature;
    var head := signed[..|signed| - 24];
    assert signed == head + tail;
    SanitizeAppend(head, tail);
    assert forall i :: 0 <= i < |tail| ==> Allowed(tail[i]);
    SanitizeKeepsAllowedText(tail);
  }

  /**
   * The strict-mode cut: a long signed text is sanitised; when that is still longer
   * than `maxLength + 15` its first `maxLength + 15` characters are kept and "..." is
   * appended, losing the signature; otherwise the sanitised text is returned, and it
   * still ends with the signature line.
   */
  lemma StrictModeCut(input: string, maxLength: int, timestamp: string)
    requires ValidateInputString(input, true) && maxLength >= 0
    requires |SignedText(input, maxLength, timestamp).value| > maxLength + 20
    ensures var clean := Sanitize(SignedText(input, maxLength, timestamp).value);
      var r := PerformComplexFormattingAndValidation(input, maxLength, true, timestamp).value;
      && (|clean| > maxLength + 15 ==>
            |r| == maxLength + 18 && r[..maxLength + 15] == clean[..maxLength + 15] && r[maxLength + 15..] == Ellipsis)
      && (|clean| <= maxLength + 15 ==>
            r == clean && |r| >= 24 && r[|r| - 24..] == " - Signed: " + Signature)
  {
    var signed := SignedText(input, maxLength, timestamp);
    assert signed.Success?;
    var clean := Sanitize(signed.value);
    SanitizeKeepsSignature(signed.value);
    assert PerformComplexFormattingAndValidation(input, maxLength, true, timestamp)
      == if |clean| > maxLength + 15 then Success(clean[..maxLength + 15] + Ellipsis) else Success(clean);
  }

  /** Outside strict mode nothing is sanitised or cut: the signed text is the result. */
  lemma LenientModeReturnsSignedText(input: string, maxLength: int, timestamp: string)
    requires ValidateInputString(input, false)
    ensures PerformComplexFormattingAndValidation(input, maxLength, false, timestamp) == SignedText(input, maxLength, timestamp)
  {
  }

  /** `GetBaseDiscountForType`: VIP 15%, PREFERRED 10%, anything else (STANDARD included) 5%. */
  function GetBaseDiscountForType(customerType: string): (rate: real)
    ensures customerType == "VIP" ==> rate == 0.15
    ensures customerType == "PREFERRED" ==> rate == 0.10
    ensures customerType != "VIP" && customerType != "PREFERRED" ==> rate == 0.05
  {
    if customerType == "VIP" then 0.15
    else if customerType == "PREFERRED" then 0.10
    else 0.05
  }

  /** The customer type the discount is looked up under: blank means STANDARD, then upper case. */
  function NormalizedType(customerType: string): string {
    Upper(if IsBlank(customerType) then "STANDARD" else customerType)
  }

  /**
   * `CalculateSpecialDiscount`: a blank type is rated as STANDARD, any other type is matched
   * upper-cased, and the rate is raised by 5 points when the amount exceeds 1000.
   */
  function CalculateSpecialDiscount(amount: real, customerType: string): (discount: real)
    ensures IsBlank(customerType) ==>
      discount == amount * (if amount > 1000.0 then 0.10 else 0.05)
    ensures !IsBlank(customerType) && Upper(customerType) == "VIP" ==>
      discount == amount * (if amount > 1000.0 then 0.20 else 0.15)
    ensures !IsBlank(customerType) && Upper(customerType) == "PREFERRED" ==>
      discount == amount * (if amount > 1000.0 then 0.15 else 0.10)
    ensures !IsBlank(customerType) && Upper(customerType) != "VIP" && Upper(customerType) != "PREFERRED" ==>
      discount == amount * (if amount > 1000.0 then 0.10 else 0.05)
  {
    DiscountAt(amount, GetBaseDiscountForType(NormalizedType(customerType)))
  }

  /** The amount times the base rate, raised by 5 points above 1000. */
  function DiscountAt(amount: real, discountPercent: real): real {
    amount * (if amount > 1000.0 then discountPercent + 0.05 else discountPercent)
  }

  /** Up to 1000 the discount is 5% to 15% of a non-negative amount; above 1000 it is 10% to 20%. */
  lemma SpecialDiscountBounds(amount: real, customerType: string)
    ensures 0.0 <= amount <= 1000.0 ==>
      0.05 * amount <= CalculateSpecialDiscount(amount, customerType) <= 0.15 * amount
    ensures amount > 1000.0 ==>
      0.10 * amount <= CalculateSpecialDiscount(amount, customerType) <= 0.20 * amount
  {
    var rate := GetBaseDiscountForType(NormalizedType(customerType));
    assert 0.05 <= rate <= 0.15;
  }

  lemma UpperOfLower(s: string)
    ensures Upper(Lower(s)) == Upper(s)
  {
    assert forall i :: 0 <= i < |s| ==> Upper(Lower(s))[i] == Upper(s)[i];
  }

  /** Case mapping never turns a white-space character into another kind, or back. */
  lemma BlankIgnoresCase(s: string)
    ensures IsBlank(Lower(s)) <==> IsBlank(s)
    ensures IsBlank(Upper(s)) <==> IsBlank(s)
  {
    assert forall i :: 0 <= i < |s| ==> (IsWhiteSpace(Lower(s)[i]) <==> IsWhiteSpace(s[i]));
    assert forall i :: 0 <= i < |s| ==> (IsWhiteSpace(Upper(s)[i]) <==> IsWhiteSpace(s[i]));
  }

  /** The normalised customer type is the same whatever the case of the input. */
  lemma NormalizedTypeIgnoresCase(customerType: string)
    ensures NormalizedType(Lower(customerType)) == NormalizedType(customerType)
    ensures NormalizedType(Upper(customerType)) == NormalizedType(customerType)
  {
    BlankIgnoresCase(customerType);
    UpperOfLower(customerType);
    UpperIdempotent(customerType);
  }

  /** Matching the customer type ignores case. */
  lemma DiscountIgnoresCase(amount: real, customerType: string)
    ensures CalculateSpecialDiscount(amount, Lower(customerType)) == CalculateSpecialDiscount(amount, customerType)
    ensures CalculateSpecialDiscount(amount, Upper(customerType)) == CalculateSpecialDiscount(amount, customerType)
  {
    NormalizedTypeIgnoresCase(customerType);
  }

  /** A blank customer type gets the STANDARD rate, which is also what an unknown type gets. */
  lemma BlankTypeIsStandard(amount: real, customerType: string)
    requires IsBlank(customerType)
    ensures CalculateSpecialDiscount(amount, customerType) == CalculateSpecialDiscount(amount, "STANDARD")
    ensures CalculateSpecialDiscount(amount, customerType) == CalculateSpecialDiscount(amount, "unknown")
  {
    assert !IsBlank("unknown") by { assert !IsWhiteSpace("unknown"[0]); }
    assert !IsBlank("STANDARD") by { assert !IsWhiteSpace("STANDARD"[0]); }
    assert Upper("unknown") == "UNKNOWN";
  }

  /** The named customer types are looked up as they are written. */
  lemma NormalizedNamedTypes()
    ensures NormalizedType("VIP") == "VIP"
    ensures NormalizedType("PREFERRED") == "PREFERRED"
    ensures NormalizedType("STANDARD") == "STANDARD"
  {
    assert !IsBlank("VIP") by { assert !IsWhiteSpace("VIP"[0]); }
    assert !IsBlank("PREFERRED") by { assert !IsWhiteSpace("PREFERRED"[0]); }
    assert !IsBlank("STANDARD") by { assert !IsWhiteSpace("STANDARD"[0]); }
    assert Upper("VIP") == "VIP";
    assert Upper("PREFERRED") == "PREFERRED";
    assert Upper("STANDARD") == "STANDARD";
  }

  /** Any other type is upper-cased before the lookup. */
  lemma NormalizedUnknownType()
    ensures NormalizedType("unknown") == "UNKNOWN"
  {
    assert !IsBlank("unknown") by { assert !IsWhiteSpace("unknown"[0]); }
    assert Upper("unknown") == "UNKNOWN";
  }

  /** The worked examples: 1000 at VIP 150, PREFERRED 100, STANDARD 50, unknown 50; 100 at VIP 15; 2000 at VIP 400. */
  lemma DiscountExamples()
    ensures CalculateSpecialDiscount(1000.0, "VIP") == 150.0
    ensures CalculateSpecialDiscount(1000.0, "PREFERRED") == 100.0
    ensures CalculateSpecialDiscount(1000.0, "STANDARD") == 50.0
    ensures CalculateSpecialDiscount(1000.0, "unknown") == 50.0
    ensures CalculateSpecialDiscount(100.0, "VIP") == 15.0
    ensures CalculateSpecialDiscount(2000.0, "VIP") == 400.0
  {
    NormalizedNamedTypes();
    NormalizedUnknownType();
  }
}
