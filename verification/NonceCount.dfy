/** The digest response of an authentication challenge and its nonce count (mods/common/src/auth.ts). */
module NonceCount {
  import opened Wrappers
  import Text

  const DIGITS := "0123456789abcdef"

  /** A number in base 16, without leading zeros. */
  function ToHex(n: nat): string {
    if n < 16 then [DIGITS[n]] else ToHex(n / 16) + [DIGITS[n % 16]]
  }

  /** The count plus 16 to the 8th, cut to its last eight digits. */
  function DecToHex(dec: nat): (r: string)
    ensures |r| == 8
  {
    var hex := ToHex(dec + 0x1_0000_0000);
    Widths(dec + 0x1_0000_0000, 8);
    hex[|hex| - 8..]
  }

  // ---------------------------------------------------------------- reading a field back

  function DigitValue(c: char): nat {
    if '0' <= c <= '9' then c as nat - '0' as nat
    else if 'a' <= c <= 'f' then c as nat - 'a' as nat + 10
    else 0
  }

  function ValueOf(s: string): nat {
    if s == "" then 0 else 16 * ValueOf(s[..|s| - 1]) + DigitValue(s[|s| - 1])
  }

  predicate IsLowerHex(s: string) {
    forall i :: 0 <= i < |s| ==> '0' <= s[i] <= '9' || 'a' <= s[i] <= 'f'
  }

  function Pow16(k: nat): nat {
    if k == 0 then 1 else 16 * Pow16(k - 1)
  }

  lemma {:induction false} Widths(n: nat, k: nat)
    requires Pow16(k) <= n
    ensures |ToHex(n)| > k
    decreases k
  {
    if k > 0 {
      Widths(n / 16, k - 1);
    }
  }

  lemma {:induction false} HexIsLower(n: nat)
    ensures IsLowerHex(ToHex(n))
  {
    if n >= 16 {
      HexIsLower(n / 16);
    }
  }

  lemma DigitsReadBack(d: nat)
    requires d < 16
    ensures DigitValue(DIGITS[d]) == d
  {
  }

  lemma ValueOfAppended(s: string, c: char)
    ensures ValueOf(s + [c]) == 16 * ValueOf(s) + DigitValue(c)
  {
    assert (s + [c])[..|s|] == s;
  }

  /** The last k digits of a longer number are what is left of it modulo 16 to the k. */
  lemma {:induction false} LastDigits(n: nat, k: nat) returns (q: nat)
    requires Pow16(k) <= n
    ensures |ToHex(n)| > k
    ensures var last := ValueOf(ToHex(n)[|ToHex(n)| - k..]); n == q * Pow16(k) + last && last < Pow16(k)
    decreases k
  {
    Widths(n, k);
    if k == 0 {
      q := n;
      assert ToHex(n)[|ToHex(n)|..] == "";
    } else {
      q := LastDigits(n / 16, k - 1);
      var all, high, d := ToHex(n), ToHex(n / 16), DIGITS[n % 16];
      assert all == high + [d];
      var tail := high[|high| - (k - 1)..];
      assert all[|all| - k..] == tail + [d];
      hide DigitValue, ValueOf, ToHex, Pow16;
      DigitsReadBack(n % 16);
      ValueOfAppended(tail, d);
      OneMoreDigit(n, q, Pow16(k - 1), ValueOf(tail));
      assert Pow16(k) == 16 * Pow16(k - 1) by { Pow16Next(k - 1); }
    }
  }

  lemma Pow16Next(k: nat)
    ensures Pow16(k + 1) == 16 * Pow16(k)
  {
  }

  lemma OneMoreDigit(n: nat, q: nat, p: nat, last: nat)
    requires n / 16 == q * p + last && last < p
    ensures n == q * (16 * p) + (16 * last + n % 16) && 16 * last + n % 16 < 16 * p
  {
    assert n == 16 * (n / 16) + n % 16;
    assert q * (16 * p) == 16 * (q * p);
  }

  /** Eight lower-case digits that read the count modulo two to the 32. */
  lemma FieldReadsTheCount(dec: nat)
    ensures |DecToHex(dec)| == 8 && IsLowerHex(DecToHex(dec))
    ensures ValueOf(DecToHex(dec)) == dec % 0x1_0000_0000
  {
    var n := dec + 0x1_0000_0000;
    HexIsLower(n);
    hide ToHex, ValueOf;
    assert Pow16(8) == 0x1_0000_0000;
    hide Pow16;
    var q := LastDigits(n, 8);
    assert IsLowerHex(DecToHex(dec));
    hide IsLowerHex;
    Remainder(dec, q, ValueOf(DecToHex(dec)));
  }

  lemma Remainder(dec: nat, q: nat, last: nat)
    requires dec + 0x1_0000_0000 == q * 0x1_0000_0000 + last && last < 0x1_0000_0000
    ensures last == dec % 0x1_0000_0000
  {
  }

  /** Two counts give the same field exactly when they are equal modulo two to the 32. */
  lemma SameFieldIffCongruent(a: nat, b: nat)
    ensures DecToHex(a) == DecToHex(b) <==> a % 0x1_0000_0000 == b % 0x1_0000_0000
  {
    FieldReadsTheCount(a);
    FieldReadsTheCount(b);
    if a % 0x1_0000_0000 == b % 0x1_0000_0000 {
      ValueIsOneToOne(DecToHex(a), DecToHex(b));
    }
  }

  lemma DigitsAreOneToOne(x: char, y: char)
    requires '0' <= x <= '9' || 'a' <= x <= 'f'
    requires '0' <= y <= '9' || 'a' <= y <= 'f'
    ensures DigitValue(x) < 16 && (DigitValue(x) == DigitValue(y) ==> x == y)
  {
  }

  lemma SameDigitAndRest(v: nat, d: nat, w: nat, e: nat)
    requires 16 * v + d == 16 * w + e && d < 16 && e < 16
    ensures v == w && d == e
  {
  }

  lemma {:induction false} ValueIsOneToOne(s: string, t: string)
    requires |s| == |t| && IsLowerHex(s) && IsLowerHex(t) && ValueOf(s) == ValueOf(t)
    ensures s == t
  {
    if s != "" {
      var x, y, a, b := s[|s| - 1], t[|t| - 1], s[..|s| - 1], t[..|t| - 1];
      assert s == a + [x] && t == b + [y];
      ValueOfAppended(a, x);
      ValueOfAppended(b, y);
      DigitsAreOneToOne(x, y);
      DigitsAreOneToOne(y, x);
      hide DigitValue, ValueOf;
      assert IsLowerHex(a) && IsLowerHex(b);
      hide IsLowerHex;
      SameDigitAndRest(ValueOf(a), DigitValue(x), ValueOf(b), DigitValue(y));
      ValueIsOneToOne(a, b);
    }
  }

  // ---------------------------------------------------------------- the response

  datatype Challenge = Challenge(
    realm: string, sipMethod: string, uri: string, nonce: string, qop: string, nonceCount: nat, cNonce: string)

  datatype Credentials = Credentials(username: string, secret: string)

  /** What the last digest is taken of; `md5hex` is any function. */
  function ResponseInput(md5hex: string -> string, res: Challenge, credentials: Credentials): string {
    var ha1 := md5hex(credentials.username + ":" + res.realm + ":" + credentials.secret);
    var ha2 := md5hex(Text.ToUpper(res.sipMethod) + ":" + res.uri);
    if res.qop == "auth"
    then ha1 + ":" + res.nonce + ":" + DecToHex(res.nonceCount) + ":" + res.cNonce + ":" + res.qop + ":" + ha2
    else ha1 + ":" + res.nonce + ":" + ha2
  }

  function CalculateAuthResponse(md5hex: string -> string, res: Challenge, credentials: Option<Credentials>)
    : Option<string>
  {
    match credentials
    case None => None
    case Some(c) => Some(md5hex(ResponseInput(md5hex, res, c)))
  }

  /** The parts with a colon between each two. */
  function WithColons(parts: seq<string>): string {
    if parts == [] then ""
    else if |parts| == 1 then parts[0]
    else WithColons(parts[..|parts| - 1]) + ":" + parts[|parts| - 1]
  }

  /** Section 3.2.2.1 of RFC 2617: six parts with quality of protection, three without. */
  lemma ResponseIsOfTheseParts(md5hex: string -> string, res: Challenge, credentials: Credentials)
    ensures var ha1 := md5hex(WithColons([credentials.username, res.realm, credentials.secret]));
            var ha2 := md5hex(WithColons([Text.ToUpper(res.sipMethod), res.uri]));
            ResponseInput(md5hex, res, credentials) ==
            WithColons(if res.qop == "auth"
                       then [ha1, res.nonce, DecToHex(res.nonceCount), res.cNonce, "auth", ha2]
                       else [ha1, res.nonce, ha2])
  {
    ThreeParts(credentials.username, res.realm, credentials.secret);
    TwoParts(Text.ToUpper(res.sipMethod), res.uri);
    var ha1 := md5hex(WithColons([credentials.username, res.realm, credentials.secret]));
    var ha2 := md5hex(WithColons([Text.ToUpper(res.sipMethod), res.uri]));
    hide WithColons, DecToHex;
    ThreeParts(ha1, res.nonce, ha2);
    SixParts(ha1, res.nonce, DecToHex(res.nonceCount), res.cNonce, "auth", ha2);
  }

  lemma TwoParts(a: string, b: string)
    ensures WithColons([a, b]) == a + ":" + b
  {
    assert [a, b][..1] == [a];
  }

  lemma ThreeParts(a: string, b: string, c: string)
    ensures WithColons([a, b, c]) == a + ":" + b + ":" + c
  {
    assert [a, b, c][..2] == [a, b];
    TwoParts(a, b);
  }

  lemma OnePartMore(parts: seq<string>, part: string)
    requires parts != []
    ensures WithColons(parts + [part]) == WithColons(parts) + ":" + part
  {
    assert (parts + [part])[..|parts|] == parts;
  }

  lemma SixParts(a: string, b: string, c: string, d: string, e: string, f: string)
    ensures WithColons([a, b, c, d, e, f]) == a + ":" + b + ":" + c + ":" + d + ":" + e + ":" + f
  {
    ThreeParts(a, b, c);
    OnePartMore([a, b, c], d);
    OnePartMore([a, b, c, d], e);
    OnePartMore([a, b, c, d, e], f);
    assert [a, b, c] + [d] == [a, b, c, d] && [a, b, c, d] + [e] == [a, b, c, d, e];
    assert [a, b, c, d, e] + [f] == [a, b, c, d, e, f];
  }

  /** With quality of protection, two counts are digested alike exactly when they agree modulo two to the 32. */
  lemma CountsAreToldApart(md5hex: string -> string, res: Challenge, count: nat, credentials: Credentials)
    requires res.qop == "auth"
    ensures (ResponseInput(md5hex, res, credentials) == ResponseInput(md5hex, res.(nonceCount := count), credentials))
            <==> (res.nonceCount % 0x1_0000_0000 == count % 0x1_0000_0000)
  {
    SameFieldIffCongruent(res.nonceCount, count);
    hide DecToHex, Text.ToUpper;
    var ha1 := md5hex(credentials.username + ":" + res.realm + ":" + credentials.secret);
    var ha2 := md5hex(Text.ToUpper(res.sipMethod) + ":" + res.uri);
    var before, after := ha1 + ":" + res.nonce + ":", ":" + res.cNonce + ":" + res.qop + ":" + ha2;
    var s, t := ResponseInput(md5hex, res, credentials), ResponseInput(md5hex, res.(nonceCount := count), credentials);
    assert s == before + DecToHex(res.nonceCount) + after;
    assert t == before + DecToHex(count) + after;
    assert s[|before|..|before| + 8] == DecToHex(res.nonceCount);
    assert t[|before|..|before| + 8] == DecToHex(count);
  }

  /**
   A replayed challenge with another count has the same response if and only if the counts are equal modulo two to
   the 32 or the digest of two different texts collides; without credentials there is no response to either.
   */
  lemma SameResponseIff(md5hex: string -> string, res: Challenge, count: nat, credentials: Option<Credentials>)
    requires res.qop == "auth"
    ensures (CalculateAuthResponse(md5hex, res, credentials)
             == CalculateAuthResponse(md5hex, res.(nonceCount := count), credentials))
            <==> (credentials == None || res.nonceCount % 0x1_0000_0000 == count % 0x1_0000_0000
                  || Collides(md5hex, ResponseInput(md5hex, res, credentials.value),
                              ResponseInput(md5hex, res.(nonceCount := count), credentials.value)))
  {
    hide ResponseInput;
    if credentials.Some? {
      CountsAreToldApart(md5hex, res, count, credentials.value);
    }
  }

  predicate Collides(md5hex: string -> string, a: string, b: string) {
    a != b && md5hex(a) == md5hex(b)
  }
}
