/** UUIDs: the hyphenated text form and the forms `Uuid::parse_str` accepts. */
module Uuid {
  import opened Bytes
  import opened Wrappers

  type Uuid = Bytes16

  function Version(u: Uuid): int {
    (u[6] / 16) as int
  }

  function HexDigit(n: int): char
    requires 0 <= n < 16
  {
    if n < 10 then '0' + n as char else 'a' + (n - 10) as char
  }

  predicate IsHex(c: char) {
    '0' <= c <= '9' || 'a' <= c <= 'f' || 'A' <= c <= 'F'
  }

  function HexValue(c: char): (n: int)
    requires IsHex(c)
    ensures 0 <= n < 16
  {
    if c <= '9' then (c - '0') as int
    else if c <= 'F' then (c - 'A') as int + 10
    else (c - 'a') as int + 10
  }

  function HexPair(hi: char, lo: char): byte
    requires IsHex(hi) && IsHex(lo)
  {
    (16 * HexValue(hi) + HexValue(lo)) as byte
  }

  /** The 32 hex digits without hyphens. */
  function Simple(u: Uuid): (s: string)
    ensures |s| == 32
    ensures forall i :: 0 <= i < 32 ==> IsHex(s[i])
  {
    seq(32, i requires 0 <= i < 32 =>
      HexDigit(if i % 2 == 0 then (u[i / 2] / 16) as int else (u[i / 2] % 16) as int))
  }

  function Hyphenated(u: Uuid): (s: string)
    ensures |s| == 36
    ensures '/' !in s
  {
    var t := Simple(u);
    t[..8] + "-" + t[8..12] + "-" + t[12..16] + "-" + t[16..20] + "-" + t[20..]
  }

  function ParseSimple(s: string): (r: Option<Uuid>)
    requires |s| == 32
  {
    if forall i :: 0 <= i < 32 ==> IsHex(s[i]) then
      Some(seq(16, i requires 0 <= i < 16 => HexPair(s[2 * i], s[2 * i + 1])))
    else
      None
  }

  function ParseHyphenated(s: string): (r: Option<Uuid>)
    requires |s| == 36
  {
    if s[8] == '-' && s[13] == '-' && s[18] == '-' && s[23] == '-' then
      ParseSimple(s[..8] + s[9..13] + s[14..18] + s[19..23] + s[24..])
    else
      None
  }

  /** `Uuid::parse_str`: 32 digits, hyphenated, braced, or URN. */
  function ParseStr(s: string): (r: Option<Uuid>) {
    if |s| == 32 then ParseSimple(s)
    else if |s| == 36 then ParseHyphenated(s)
    else if |s| == 38 && s[0] == '{' && s[37] == '}' then ParseHyphenated(s[1..37])
    else if |s| == 45 && s[..9] == "urn:uuid:" then ParseHyphenated(s[9..])
    else None
  }

  predicate IsUuidV4Str(s: string) {
    var u := ParseStr(s);
    u.Some? && Version(u.value) == 4
  }

  /** Digits are lower-case on output; on input case does not matter. */
  lemma HexDigits(n: int)
    requires 0 <= n < 16
    ensures HexDigit(n) == "0123456789abcdef"[n] && HexValue("0123456789ABCDEF"[n]) == n
    ensures IsHex("0123456789ABCDEF"[n]) && HexValue(HexDigit(n)) == n
  {
  }

  lemma HexPairOfDigits(b: byte)
    ensures HexPair(HexDigit((b / 16) as int), HexDigit((b % 16) as int)) == b
  {
    assert 16 * (b / 16) as int + (b % 16) as int == b as int;
  }

  lemma ParseUndoesSimple(u: Uuid)
    ensures ParseSimple(Simple(u)) == Some(u)
  {
    var t := Simple(u);
    var parsed := ParseSimple(t).value;
    forall i | 0 <= i < 16
      ensures parsed[i] == u[i]
    {
      assert t[2 * i] == HexDigit((u[i] / 16) as int);
      assert t[2 * i + 1] == HexDigit((u[i] % 16) as int);
      HexPairOfDigits(u[i]);
    }
    assert parsed == u;
  }

  /** Parsing the hyphenated text of a UUID gives the UUID back. */
  lemma ParseUndoesHyphenated(u: Uuid)
    ensures ParseStr(Hyphenated(u)) == Some(u)
  {
    var t, s := Simple(u), Hyphenated(u);
    assert s[..8] == t[..8] && s[9..13] == t[8..12] && s[14..18] == t[12..16]
        && s[19..23] == t[16..20] && s[24..] == t[20..];
    assert s[..8] + s[9..13] + s[14..18] + s[19..23] + s[24..] == t;
    ParseUndoesSimple(u);
  }

  /** Distinct UUIDs have distinct texts. */
  lemma HyphenatedInjective(u: Uuid, v: Uuid)
    requires Hyphenated(u) == Hyphenated(v)
    ensures u == v
  {
    ParseUndoesHyphenated(u);
    ParseUndoesHyphenated(v);
  }

  lemma HyphenatedDigits(s: string)
    requires |s| == 36 && ParseHyphenated(s).Some?
    ensures forall i :: 0 <= i < 36 ==> IsHex(s[i]) || s[i] == '-'
  {
    var t := s[..8] + s[9..13] + s[14..18] + s[19..23] + s[24..];
    forall i | 0 <= i < 36
      ensures IsHex(s[i]) || s[i] == '-'
    {
      if i < 8 { assert s[i] == t[i]; }
      else if 8 < i < 13 { assert s[i] == t[i - 1]; }
      else if 13 < i < 18 { assert s[i] == t[i - 2]; }
      else if 18 < i < 23 { assert s[i] == t[i - 3]; }
      else if 23 < i { assert s[i] == t[i - 4]; }
    }
  }

  /** No accepted form holds a path separator. */
  lemma ParsedHasNoSlash(s: string)
    requires ParseStr(s).Some?
    ensures '/' !in s && |s| >= 32
  {
    if |s| == 36 {
      HyphenatedDigits(s);
    } else if |s| == 38 {
      HyphenatedDigits(s[1..37]);
      assert s == [s[0]] + s[1..37] + [s[37]];
    } else if |s| == 45 {
      HyphenatedDigits(s[9..]);
      assert s == "urn:uuid:" + s[9..];
    }
  }

  /** What `Uuid::new_v4` draws. */
  type V4 = u: Uuid | Version(u) == 4 witness seq(16, i => if i == 6 then 0x40 else 0)

  lemma V4Text(u: V4)
    ensures IsUuidV4Str(Hyphenated(u))
  {
    ParseUndoesHyphenated(u);
  }

  /** How many hyphens precede digit `k`. */
  function HyphensBefore(k: nat): nat {
    if k < 8 then 0 else if k < 12 then 1 else if k < 16 then 2 else if k < 20 then 3 else 4
  }

  lemma DigitPlace(u: Uuid, k: nat)
    requires k < 32
    ensures Hyphenated(u)[k + HyphensBefore(k)] == Simple(u)[k]
  {
    hide Simple;
  }

  lemma HyphenPlaces(u: Uuid)
    ensures var s := Hyphenated(u); s[8] == s[13] == s[18] == s[23] == '-'
  {
    hide Simple;
  }

  /** The text form: the digit pairs of the sixteen bytes in order, with hyphens after bytes 4, 6, 8 and 10. */
  lemma HyphenatedLayout(u: Uuid, i: nat)
    requires i < 16
    ensures var s, at := Hyphenated(u), 2 * i + HyphensBefore(2 * i);
            && s[8] == s[13] == s[18] == s[23] == '-'
            && s[at] == "0123456789abcdef"[(u[i] / 16) as int] && s[at + 1] == "0123456789abcdef"[(u[i] % 16) as int]
  {
    HexDigits((u[i] / 16) as int);
    HexDigits((u[i] % 16) as int);
    assert Simple(u)[2 * i] == HexDigit((u[i] / 16) as int) && Simple(u)[2 * i + 1] == HexDigit((u[i] % 16) as int);
    hide Simple, Hyphenated, HexDigit;
    HyphenPlaces(u);
    DigitPlace(u, 2 * i);
    DigitPlace(u, 2 * i + 1);
  }

  /** The version is the digit after the second hyphen. */
  lemma VersionDigit(u: Uuid)
    ensures IsUuidV4Str(Hyphenated(u)) <==> Hyphenated(u)[14] == '4'
  {
    ParseUndoesHyphenated(u);
    HyphenatedLayout(u, 6);
    HexDigits((u[6] / 16) as int);
  }

  /** The four accepted forms. */
  lemma AcceptedForms(u: Uuid)
    ensures ParseStr(Simple(u)) == Some(u) && ParseStr(Hyphenated(u)) == Some(u)
    ensures ParseStr("{" + Hyphenated(u) + "}") == Some(u) && ParseStr("urn:uuid:" + Hyphenated(u)) == Some(u)
  {
    ParseUndoesSimple(u);
    ParseUndoesHyphenated(u);
    var s := Hyphenated(u);
    assert ("{" + s + "}")[1..37] == s && ("urn:uuid:" + s)[9..] == s;
  }

  /** No other length is accepted. */
  lemma AcceptedLengths(s: string)
    ensures ParseStr(s).Some? ==> |s| in {32, 36, 38, 45}
  {
  }
}
