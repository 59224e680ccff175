/** Request signing: every outgoing request carries a token, the timestamp
    it binds to (whole seconds in decimal) and a language header. The MD5
    digest is an uninterpreted function `md5`; the clock is the argument
    `nowMs` (milliseconds since the epoch). */
module Signer {
  import opened Wrappers

  const TokenHeader := "1Panel-Token"
  const TimestampHeader := "1Panel-Timestamp"
  const LanguageHeader := "Accept-Language"

  predicate IsDigits(s: string)
  {
    forall i :: 0 <= i < |s| ==> '0' <= s[i] <= '9'
  }

  function DigitChar(d: nat): (c: char)
    requires d < 10
    ensures '0' <= c <= '9' && c as int - '0' as int == d
  {
    (d + '0' as int) as char
  }

  /** `n.toString()` for a non-negative integer. */
  function NatToDecimal(n: nat): (s: string)
    ensures s != [] && IsDigits(s)
    ensures s[0] == '0' ==> n == 0 && s == "0"
  {
    if n < 10 then [DigitChar(n)] else NatToDecimal(n / 10) + [DigitChar(n % 10)]
  }

  /** The number a string of decimal digits denotes. */
  function DecimalValue(s: string): nat
    requires IsDigits(s)
  {
    if s == [] then 0 else DecimalValue(s[..|s| - 1]) * 10 + (s[|s| - 1] as int - '0' as int)
  }

  lemma {:induction false} DecimalRoundTrip(n: nat)
    ensures DecimalValue(NatToDecimal(n)) == n
  {
    if n >= 10 {
      DecimalRoundTrip(n / 10);
      var s := NatToDecimal(n);
      assert s[..|s| - 1] == NatToDecimal(n / 10);
    }
  }

  /** `Math.floor(nowMs / 1000).toString()`: the timestamp denotes whole seconds. */
  function Timestamp(nowMs: nat): (ts: string)
    ensures IsDigits(ts) && DecimalValue(ts) == nowMs / 1000
    ensures ts != "" && (ts[0] == '0' ==> ts == "0")
  {
    DecimalRoundTrip(nowMs / 1000);
    NatToDecimal(nowMs / 1000)
  }

  /** The string the token digests: `"1panel" + apiKey + timestamp`. */
  function SignedContent(apiKey: string, timestamp: string): string
  {
    "1panel" + apiKey + timestamp
  }

  /** `languageCode || "en"`: a missing or empty code falls back to `en`. */
  function AcceptLanguage(languageCode: Option<string>): (lang: string)
    ensures lang != ""
    ensures languageCode.Some? && languageCode.value != "" ==> lang == languageCode.value
    ensures languageCode.None? || languageCode.value == "" ==> lang == "en"
  {
    match languageCode
    case Some(code) => if code == "" then "en" else code
    case None => "en"
  }

  /** The request interceptor: sets the three signing headers on the outgoing
      request and leaves every other header as it was. */
  function Intercept(apiKey: string, languageCode: Option<string>, headers: map<string, string>,
                     nowMs: nat, md5: string -> string): (h: map<string, string>)
    ensures h.Keys == headers.Keys + {TokenHeader, TimestampHeader, LanguageHeader}
    ensures h[TimestampHeader] == Timestamp(nowMs)
    ensures IsDigits(h[TimestampHeader]) && DecimalValue(h[TimestampHeader]) == nowMs / 1000
    ensures h[TokenHeader] == md5(SignedContent(apiKey, h[TimestampHeader]))
    ensures h[LanguageHeader] == AcceptLanguage(languageCode)
    ensures forall k :: k in headers && k !in {TokenHeader, TimestampHeader, LanguageHeader} ==> h[k] == headers[k]
  {
    var timestamp := Timestamp(nowMs);
    var token := md5(SignedContent(apiKey, timestamp));
    headers[TokenHeader := token][TimestampHeader := timestamp][LanguageHeader := AcceptLanguage(languageCode)]
  }

  /** Distinct numbers have distinct decimal strings. */
  lemma DecimalInjective(a: nat, b: nat)
    ensures NatToDecimal(a) == NatToDecimal(b) ==> a == b
  {
    DecimalRoundTrip(a);
    DecimalRoundTrip(b);
  }

  /** The prefix `"1panel" + apiKey` is fixed, so the content determines the timestamp. */
  lemma SignedContentInjective(apiKey: string, t1: string, t2: string)
    ensures SignedContent(apiKey, t1) == SignedContent(apiKey, t2) ==> t1 == t2
  {
    var prefix := "1panel" + apiKey;
    assert SignedContent(apiKey, t1)[|prefix|..] == t1;
    assert SignedContent(apiKey, t2)[|prefix|..] == t2;
  }

  /** Two requests signed within the same second carry identical signing
      headers; requests in different seconds sign different content, so with
      a collision-free digest their tokens differ. */
  lemma SigningBindsToTheSecond(apiKey: string, languageCode: Option<string>, headers: map<string, string>,
                                ms1: nat, ms2: nat, md5: string -> string)
    ensures ms1 / 1000 == ms2 / 1000 ==>
      Intercept(apiKey, languageCode, headers, ms1, md5) == Intercept(apiKey, languageCode, headers, ms2, md5)
    ensures ms1 / 1000 != ms2 / 1000 <==>
      SignedContent(apiKey, Timestamp(ms1)) != SignedContent(apiKey, Timestamp(ms2))
  {
    DecimalInjective(ms1 / 1000, ms2 / 1000);
    SignedContentInjective(apiKey, Timestamp(ms1), Timestamp(ms2));
  }
}
