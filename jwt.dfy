/** Signing and verifying of access and refresh tokens (`generateAccessToken`,
    `generateRefreshToken` and `jsonwebtoken.verify`). The cryptography is replaced by a
    symbolic token: the text of a token names the secret it was signed with, its subject
    (the user id) and a serial number drawn from a fresh-token counter. Verification under
    a secret accepts exactly the tokens signed with that secret. */
module Jwt {
  import opened Base

  /** `ACCESS_TOKEN_SECRET` and `REFRESH_TOKEN_SECRET`, taken to be different. */
  datatype Secret = AccessTokenSecret | RefreshTokenSecret

  /** The payload a verified token yields: `_id` of its user and the serial of its issue. */
  datatype Claims = Claims(sub: Id, serial: nat)

  /** The message of the exception `jsonwebtoken.verify` throws on a token it rejects. */
  const InvalidTokenMessage: string := "invalid token"

  function Tag(secret: Secret): char {
    match secret
    case AccessTokenSecret => 'A'
    case RefreshTokenSecret => 'R'
  }

  predicate IsDigit(c: char) {
    '0' <= c <= '9'
  }

  function DigitChar(d: nat): (c: char)
    requires d < 10
    ensures IsDigit(c)
  {
    ('0' as int + d) as char
  }

  function DigitValue(c: char): (d: nat)
    requires IsDigit(c)
    ensures d < 10
  {
    c as int - '0' as int
  }

  predicate AllDigits(s: string) {
    forall i :: 0 <= i < |s| ==> IsDigit(s[i])
  }

  /** Decimal text without leading zeros: the form `Decimal` produces. */
  predicate Canonical(s: string) {
    |s| >= 1 && AllDigits(s) && (|s| == 1 || s[0] != '0')
  }

  /** The decimal text of `n`. */
  function Decimal(n: nat): (r: string)
    ensures Canonical(r)
    ensures n > 0 ==> r[0] != '0'
  {
    if n < 10 then [DigitChar(n)] else Decimal(n / 10) + [DigitChar(n % 10)]
  }

  /** The number a string of digits denotes. */
  function DecimalValue(s: string): nat
    requires |s| >= 1 && AllDigits(s)
  {
    if |s| == 1 then DigitValue(s[0])
    else 10 * DecimalValue(s[..|s| - 1]) + DigitValue(s[|s| - 1])
  }

  lemma {:induction false} DecimalValueOfDecimal(n: nat)
    ensures DecimalValue(Decimal(n)) == n
  {
    if n >= 10 {
      var p := Decimal(n / 10);
      DecimalValueOfDecimal(n / 10);
      assert (p + [DigitChar(n % 10)])[..|p|] == p;
    }
  }

  lemma {:induction false} CanonicalValueAtLeastTen(s: string)
    requires Canonical(s) && |s| >= 2
    ensures DecimalValue(s) >= 10
  {
    var p := s[..|s| - 1];
    if |p| >= 2 {
      CanonicalValueAtLeastTen(p);
    } else {
      assert p[0] == s[0];
    }
  }

  lemma {:induction false} DecimalOfDecimalValue(s: string)
    requires Canonical(s)
    ensures Decimal(DecimalValue(s)) == s
  {
    if |s| >= 2 {
      var p := s[..|s| - 1];
      var d := DigitValue(s[|s| - 1]);
      assert Canonical(p) by { assert p[0] == s[0]; }
      if |p| >= 2 { CanonicalValueAtLeastTen(p); } else { assert p[0] == s[0]; }
      DecimalOfDecimalValue(p);
      var v := DecimalValue(s);
      assert v == 10 * DecimalValue(p) + d;
      assert v / 10 == DecimalValue(p) && v % 10 == d;
      assert DigitChar(d) == s[|s| - 1];
      assert s == p + [s[|s| - 1]];
    }
  }

  /** Parses the decimal text of a number; anything else is rejected. */
  function ParseNat(s: string): (r: Option<nat>)
    ensures r.Some? <==> Canonical(s)
    ensures r.Some? ==> Decimal(r.value) == s
  {
    if Canonical(s) then
      DecimalOfDecimalValue(s);
      Some(DecimalValue(s))
    else None
  }

  lemma ParseNatOfDecimal(n: nat)
    ensures ParseNat(Decimal(n)) == Some(n)
  {
    DecimalValueOfDecimal(n);
  }

  /** Position of the first `c` in `s`, or `|s|` when there is none. */
  function FirstIndexOf(s: string, c: char): (i: nat)
    ensures i <= |s|
    ensures i < |s| ==> s[i] == c
    ensures forall j :: 0 <= j < i ==> s[j] != c
  {
    if |s| == 0 then 0
    else if s[0] == c then 0
    else 1 + FirstIndexOf(s[1..], c)
  }

  /** The token signed with `secret` for user `sub`, issued with serial `serial`. */
  function Sign(secret: Secret, sub: Id, serial: nat): string {
    [Tag(secret)] + Decimal(sub) + ['.'] + Decimal(serial)
  }

  /** `jwt.verify(token, secret)`: the claims of `token` when it was signed with `secret`,
      `None` (the library throws) otherwise. */
  function Verify(token: string, secret: Secret): (r: Option<Claims>)
    ensures r.Some? ==> token == Sign(secret, r.value.sub, r.value.serial)
  {
    if |token| == 0 || token[0] != Tag(secret) then None
    else
      var body := token[1..];
      var i := FirstIndexOf(body, '.');
      if i == |body| then None
      else
        match (ParseNat(body[..i]), ParseNat(body[i + 1..]))
        case (Some(sub), Some(serial)) =>
          assert body == body[..i] + ['.'] + body[i + 1..];
          assert token == [token[0]] + body;
          Some(Claims(sub, serial))
        case _ => None
  }

  /** A token verifies under its own secret and yields the claims it was signed with. */
  lemma VerifySign(secret: Secret, sub: Id, serial: nat)
    ensures Verify(Sign(secret, sub, serial), secret) == Some(Claims(sub, serial))
  {
    var a, b := Decimal(sub), Decimal(serial);
    var token := Sign(secret, sub, serial);
    var body := token[1..];
    assert body == a + ['.'] + b;
    assert FirstIndexOf(body, '.') == |a| by {
      assert forall j :: 0 <= j < |a| ==> body[j] == a[j];
      assert body[|a|] == '.';
    }
    assert body[..|a|] == a;
    assert body[|a| + 1..] == b;
    ParseNatOfDecimal(sub);
    ParseNatOfDecimal(serial);
  }

  /** The tokens a secret accepts are exactly the tokens signed with it. */
  lemma VerifyIffSigned(token: string, secret: Secret, c: Claims)
    ensures Verify(token, secret) == Some(c) <==> token == Sign(secret, c.sub, c.serial)
  {
    if token == Sign(secret, c.sub, c.serial) {
      VerifySign(secret, c.sub, c.serial);
    }
  }

  /** A token signed with one secret is rejected under the other. */
  lemma VerifyOtherSecret(secret: Secret, other: Secret, sub: Id, serial: nat)
    requires secret != other
    ensures Verify(Sign(secret, sub, serial), other) == None
  {
    assert Sign(secret, sub, serial)[0] == Tag(secret);
  }

  /** Tokens issued with different serials differ: a new serial yields a new token. */
  lemma SignInjective(secret: Secret, sub: Id, serial: nat, sub': Id, serial': nat)
    requires Sign(secret, sub, serial) == Sign(secret, sub', serial')
    ensures sub == sub' && serial == serial'
  {
    VerifySign(secret, sub, serial);
    VerifySign(secret, sub', serial');
  }
}
