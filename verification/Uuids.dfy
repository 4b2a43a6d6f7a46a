/** The text form of a UUID: what `Uuid::to_string` writes and what
    `Uuid::parse_str` reads (hyphenated, plain, braced and URN spellings). */
module Uuids {
  import opened Prelude

  function HexDigit(d: nat): char
    requires d < 16
  {
    "0123456789abcdef"[d]
  }

  function HexValue(c: char): (r: Option<nat>)
    ensures r.Some? ==> r.value < 16
  {
    if '0' <= c <= '9' then Some(c as int - '0' as int)
    else if 'a' <= c <= 'f' then Some(c as int - 'a' as int + 10)
    else if 'A' <= c <= 'F' then Some(c as int - 'A' as int + 10)
    else None
  }

  function Pow16(k: nat): (p: nat)
    ensures p > 0
  {
    if k == 0 then 1 else 16 * Pow16(k - 1)
  }

  /** The `k` low hexadecimal digits of `n`, most significant first. */
  function Hex(n: nat, k: nat): (s: string)
    ensures |s| == k
    ensures forall i :: 0 <= i < k ==> HexValue(s[i]).Some?
  {
    if k == 0 then "" else Hex(n / 16, k - 1) + [HexDigit(n % 16)]
  }

  function Unhex(s: string): (r: Option<nat>)
    ensures r.Some? ==> r.value < Pow16(|s|)
  {
    if s == "" then Some(0) else
      match (Unhex(s[..|s| - 1]), HexValue(s[|s| - 1]))
      case (Some(high), Some(low)) => Some(16 * high + low)
      case _ => None
  }

  lemma DigitRoundTrip(d: nat)
    requires d < 16
    ensures HexValue(HexDigit(d)) == Some(d)
  {
    assert HexDigit(d) == if d < 10 then '0' + d as char else 'a' + (d - 10) as char;
  }

  lemma DropsADigit(n: nat, p: nat)
    requires n < 16 * p
    ensures n / 16 < p && 16 * (n / 16) + n % 16 == n
  {
  }

  lemma UnhexSnoc(s: string, high: nat, low: nat)
    requires Unhex(s) == Some(high) && low < 16
    ensures Unhex(s + [HexDigit(low)]) == Some(16 * high + low)
  {
    DigitRoundTrip(low);
    assert (s + [HexDigit(low)])[..|s|] == s;
  }

  lemma HexSnoc(n: nat, k: nat, high: nat, low: nat)
    requires low < 16 && n == 16 * high + low
    ensures Hex(n, k + 1) == Hex(high, k) + [HexDigit(low)]
  {
    assert n / 16 == high && n % 16 == low;
  }

  lemma {:induction false} UnhexHex(n: nat, k: nat)
    requires n < Pow16(k)
    ensures Unhex(Hex(n, k)) == Some(n)
  {
    if k > 0 {
      var high, low := n / 16, n % 16;
      DropsADigit(n, Pow16(k - 1));
      UnhexHex(high, k - 1);
      HexSnoc(n, k - 1, high, low);
      UnhexSnoc(Hex(high, k - 1), high, low);
    }
  }

  lemma Pow16Of32()
    ensures Pow16(32) == UUID_BOUND
  {
    assert Pow16(8) == 0x1_0000_0000;
    assert Pow16(16) == 0x1_0000_0000_0000_0000;
    assert Pow16(24) == 0x1_0000_0000_0000_0000_0000_0000;
  }

  /** The canonical 8-4-4-4-12 spelling. */
  function Text(u: Uuid): (s: string)
    ensures |s| == 36
  {
    Hyphenated(Hex(u as nat, 32))
  }

  function Hyphenated(h: string): (s: string)
    requires |h| == 32
    ensures |s| == 36
  {
    h[..8] + "-" + h[8..12] + "-" + h[12..16] + "-" + h[16..20] + "-" + h[20..]
  }

  lemma HyphensComeOut(h: string)
    requires |h| == 32
    ensures var s := Hyphenated(h);
            s[8] == s[13] == s[18] == s[23] == '-' && s[..8] + s[9..13] + s[14..18] + s[19..23] + s[24..] == h
  {
    var s := Hyphenated(h);
    assert s[..8] == h[..8] && s[9..13] == h[8..12] && s[14..18] == h[12..16];
    assert s[19..23] == h[16..20] && s[24..] == h[20..];
  }

  function ParsePlain(s: string): Option<Uuid>
    requires |s| == 32
  {
    match Unhex(s)
    case Some(n) => Pow16Of32(); Some(n as Uuid)
    case None => None
  }

  function ParseHyphenated(s: string): Option<Uuid>
    requires |s| == 36
  {
    if s[8] == s[13] == s[18] == s[23] == '-'
    then ParsePlain(s[..8] + s[9..13] + s[14..18] + s[19..23] + s[24..])
    else None
  }

  function Parse(s: string): Option<Uuid> {
    if |s| == 32 then ParsePlain(s)
    else if |s| == 36 then ParseHyphenated(s)
    else if |s| == 38 && s[0] == '{' && s[37] == '}' then ParseHyphenated(s[1..37])
    else if |s| == 45 && s[..9] == "urn:uuid:" then ParseHyphenated(s[9..])
    else None
  }

  lemma ParseText(u: Uuid)
    ensures Parse(Text(u)) == Some(u)
  {
    HyphensComeOut(Hex(u as nat, 32));
    Pow16Of32();
    UnhexHex(u as nat, 32);
  }

  /** The other spellings read too: plain digits, braces, the URN prefix. */
  lemma ParseOtherSpellings(u: Uuid)
    ensures Parse(Hex(u as nat, 32)) == Some(u)
    ensures Parse("{" + Text(u) + "}") == Some(u)
    ensures Parse("urn:uuid:" + Text(u)) == Some(u)
  {
    ParsePlainDigits(u);
    ParseBraced(u);
    ParseUrn(u);
  }

  lemma ParsePlainDigits(u: Uuid)
    ensures Parse(Hex(u as nat, 32)) == Some(u)
  {
    Pow16Of32();
    UnhexHex(u as nat, 32);
  }

  lemma ParseBraced(u: Uuid)
    ensures Parse("{" + Text(u) + "}") == Some(u)
  {
    ParseText(u);
    assert ("{" + Text(u) + "}")[1..37] == Text(u);
  }

  lemma ParseUrn(u: Uuid)
    ensures Parse("urn:uuid:" + Text(u)) == Some(u)
  {
    ParseText(u);
    assert ("urn:uuid:" + Text(u))[..9] == "urn:uuid:" && ("urn:uuid:" + Text(u))[9..] == Text(u);
  }

  /** Upper-case digits read as lower-case ones. */
  lemma UpperCaseDigits(d: nat)
    requires d < 16
    ensures HexValue("0123456789ABCDEF"[d]) == Some(d) && HexValue("0123456789abcdef"[d]) == Some(d)
  {
    var upper, lower := "0123456789ABCDEF"[d], "0123456789abcdef"[d];
    assert upper == if d < 10 then '0' + d as char else 'A' + (d - 10) as char;
    assert lower == if d < 10 then '0' + d as char else 'a' + (d - 10) as char;
  }

  lemma TextInjective(u: Uuid, v: Uuid)
    requires Text(u) == Text(v)
    ensures u == v
  {
    ParseText(u);
    ParseText(v);
  }
}
