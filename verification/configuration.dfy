/**
 * The configuration record fetched from upstream and pushed to every client, and its
 * JSON text. `Ser` is the compact JSON that serde's derived `Serialize` writes for the
 * record (fields in declaration order, no spaces, strings escaped the way serde_json
 * escapes them); `Parse` reads exactly that format back, so that the round trip
 * `Parse(Ser(c)) == Some(c)` proves that distinct configurations give distinct texts and
 * that no configuration serialises to the "not available" marker.
 */
module Configuration {
  import opened RustTypes

  /** Rust's `u32`. */
  type U32 = x: int | 0 <= x < 0x1_0000_0000

  datatype Config = Config(
    feature_flag: bool,
    logging_level: string,
    maintenance_mode: bool,
    api_rate_limit: U32)

  /** The text a session sends when the shared slot holds no configuration yet. */
  const NotAvailable: string := "{\"error\": \"Configuration not available.\"}"

  // ---------------------------------------------------------------------------
  // Serialisation

  const FeatureFlagKey: string := "{\"feature_flag\":"
  const LoggingLevelKey: string := ",\"logging_level\":\""
  const MaintenanceModeKey: string := ",\"maintenance_mode\":"
  const ApiRateLimitKey: string := ",\"api_rate_limit\":"

  function BoolText(b: bool): string {
    if b then "true" else "false"
  }

  function HexDigit(d: int): char
    requires 0 <= d < 16
  {
    "0123456789abcdef"[d]
  }

  function DigitChar(d: int): char
    requires 0 <= d < 10
  {
    "0123456789"[d]
  }

  /** How serde_json writes one character inside a JSON string. */
  function EscapeChar(ch: char): string {
    if ch == '"' then "\\\""
    else if ch == '\\' then "\\\\"
    else if ch == '\n' then "\\n"
    else if ch == '\r' then "\\r"
    else if ch == '\t' then "\\t"
    else if ch == '\U{8}' then "\\b"
    else if ch == '\U{C}' then "\\f"
    else if (ch as int) < 0x20 then "\\u00" + [HexDigit((ch as int) / 16), HexDigit((ch as int) % 16)]
    else [ch]
  }

  function Escape(s: string): string {
    if |s| == 0 then "" else EscapeChar(s[0]) + Escape(s[1..])
  }

  /** Decimal digits of `n`, most significant first, without leading zeros. */
  function DecimalText(n: nat): string
    decreases n
  {
    if n < 10 then [DigitChar(n)] else DecimalText(n / 10) + [DigitChar(n % 10)]
  }

  /** `serde_json::to_string(&config)`. */
  function Ser(c: Config): string {
    FeatureFlagKey + (BoolText(c.feature_flag)
    + (LoggingLevelKey + (Escape(c.logging_level) + ("\""
    + (MaintenanceModeKey + (BoolText(c.maintenance_mode)
    + (ApiRateLimitKey + (DecimalText(c.api_rate_limit) + "}"))))))))
  }

  // ---------------------------------------------------------------------------
  // Parsing: the inverse of Ser

  function StripPrefix(p: string, s: string): (r: Option<string>)
    ensures r.Some? <==> p <= s
    ensures r.Some? ==> s == p + r.value
  {
    if p <= s then Some(s[|p|..]) else None
  }

  function ParseBool(s: string): Option<(bool, string)> {
    if "true" <= s then Some((true, s[4..]))
    else if "false" <= s then Some((false, s[5..]))
    else None
  }

  function HexValue(ch: char): Option<int> {
    if '0' <= ch <= '9' then Some(ch as int - '0' as int)
    else if 'a' <= ch <= 'f' then Some(ch as int - 'a' as int + 10)
    else None
  }

  /** The character a two-character escape `\e` stands for. */
  function ShortEscape(e: char): Option<char> {
    if e == '"' then Some('"')
    else if e == '\\' then Some('\\')
    else if e == 'n' then Some('\n')
    else if e == 'r' then Some('\r')
    else if e == 't' then Some('\t')
    else if e == 'b' then Some('\U{8}')
    else if e == 'f' then Some('\U{C}')
    else None
  }

  function Cons(ch: char, r: Option<(string, string)>): Option<(string, string)> {
    match r
    case None => None
    case Some(p) => Some(([ch] + p.0, p.1))
  }

  /**
   * Reads the body of a JSON string whose opening quote is already consumed: the decoded
   * characters up to the closing quote, and the text after that quote.
   */
  function Unescape(s: string): Option<(string, string)>
    decreases |s|
  {
    if |s| == 0 then None
    else if s[0] == '"' then Some(("", s[1..]))
    else if s[0] == '\\' then
      if |s| < 2 then None
      else if s[1] == 'u' then
        if |s| < 6 || s[2] != '0' || s[3] != '0' then None
        else
          match (HexValue(s[4]), HexValue(s[5]))
          case (Some(hi), Some(lo)) => Cons((16 * hi + lo) as char, Unescape(s[6..]))
          case _ => None
      else
        match ShortEscape(s[1])
        case Some(ch) => Cons(ch, Unescape(s[2..]))
        case None => None
    else Cons(s[0], Unescape(s[1..]))
  }

  predicate IsDigit(ch: char) {
    '0' <= ch <= '9'
  }

  /** Length of the longest prefix of `s` made of decimal digits. */
  function DigitSpan(s: string): (k: nat)
    ensures k <= |s|
  {
    if |s| == 0 || !IsDigit(s[0]) then 0 else 1 + DigitSpan(s[1..])
  }

  function DigitsValue(ds: string): nat
    decreases |ds|
  {
    if |ds| == 0 then 0
    else
      var d := ds[|ds| - 1] as int - '0' as int;
      DigitsValue(ds[..|ds| - 1]) * 10 + (if 0 <= d then d else 0)
  }

  function ParseNat(s: string): Option<(nat, string)> {
    var k := DigitSpan(s);
    if k == 0 then None else Some((DigitsValue(s[..k]), s[k..]))
  }

  /** Reads back a text written by Ser; None for every other text this model meets. */
  function Parse(text: string): Option<Config> {
    var r1 :- StripPrefix(FeatureFlagKey, text);
    var flag :- ParseBool(r1);
    var r2 :- StripPrefix(LoggingLevelKey, flag.1);
    var level :- Unescape(r2);
    var r3 :- StripPrefix(MaintenanceModeKey, level.1);
    var maintenance :- ParseBool(r3);
    var r4 :- StripPrefix(ApiRateLimitKey, maintenance.1);
    var limit :- ParseNat(r4);
    if limit.1 == "}" && limit.0 < 0x1_0000_0000
    then Some(Config(flag.0, level.0, maintenance.0, limit.0))
    else None
  }

  // ---------------------------------------------------------------------------
  // Round trip

  lemma ParseBoolText(b: bool, rest: string)
    ensures ParseBool(BoolText(b) + rest) == Some((b, rest))
  {
    var s := BoolText(b) + rest;
    if b {
      assert "true" <= s;
      assert s[4..] == rest;
    } else {
      assert !("true" <= s) by { assert s[0] == 'f'; }
      assert "false" <= s;
      assert s[5..] == rest;
    }
  }

  lemma StripPrefixOf(p: string, rest: string)
    ensures StripPrefix(p, p + rest) == Some(rest)
  {
    assert (p + rest)[|p|..] == rest;
  }

  lemma HexRoundTrip(d: int)
    requires 0 <= d < 16
    ensures HexValue(HexDigit(d)) == Some(d)
  {
    var digits := "0123456789abcdef";
    assert digits[d] as int == (if d < 10 then '0' as int + d else 'a' as int + d - 10);
  }

  lemma UnescapeChar(ch: char, t: string)
    ensures Unescape(EscapeChar(ch) + t) == Cons(ch, Unescape(t))
  {
    var s := EscapeChar(ch) + t;
    if ch == '"' || ch == '\\' || ch == '\n' || ch == '\r' || ch == '\t' || ch == '\U{8}' || ch == '\U{C}' {
      assert s[0] == '\\' && s[2..] == t;
    } else if (ch as int) < 0x20 {
      var x := ch as int;
      HexRoundTrip(x / 16);
      HexRoundTrip(x % 16);
      assert s[0] == '\\' && s[1] == 'u' && s[2] == '0' && s[3] == '0';
      assert s[4] == HexDigit(x / 16) && s[5] == HexDigit(x % 16);
      assert s[6..] == t;
      assert (16 * (x / 16) + x % 16) as char == ch;
    } else {
      assert s[0] == ch && s[1..] == t;
    }
  }

  lemma {:induction false} UnescapeEscape(s: string, rest: string)
    ensures Unescape(Escape(s) + ("\"" + rest)) == Some((s, rest))
    decreases |s|
  {
    if |s| == 0 {
      assert Escape(s) + ("\"" + rest) == "\"" + rest;
      assert ("\"" + rest)[1..] == rest;
    } else {
      var t := Escape(s[1..]) + ("\"" + rest);
      assert Escape(s) + ("\"" + rest) == EscapeChar(s[0]) + t;
      UnescapeChar(s[0], t);
      UnescapeEscape(s[1..], rest);
      assert [s[0]] + s[1..] == s;
    }
  }

  lemma {:induction false} DecimalTextDigits(n: nat)
    ensures |DecimalText(n)| > 0
    ensures forall i :: 0 <= i < |DecimalText(n)| ==> IsDigit(DecimalText(n)[i])
    ensures DigitsValue(DecimalText(n)) == n
    decreases n
  {
    if n < 10 {
      assert DecimalText(n)[..0] == "";
    } else {
      DecimalTextDigits(n / 10);
      var ds := DecimalText(n);
      assert ds[..|ds| - 1] == DecimalText(n / 10);
    }
  }

  lemma {:induction false} DigitSpanOf(ds: string, rest: string)
    requires forall i :: 0 <= i < |ds| ==> IsDigit(ds[i])
    requires |rest| == 0 || !IsDigit(rest[0])
    ensures DigitSpan(ds + rest) == |ds|
    decreases |ds|
  {
    if |ds| == 0 {
      assert ds + rest == rest;
    } else {
      assert (ds + rest)[1..] == ds[1..] + rest;
      DigitSpanOf(ds[1..], rest);
    }
  }

  lemma ParseNatText(n: nat, rest: string)
    requires |rest| == 0 || !IsDigit(rest[0])
    ensures ParseNat(DecimalText(n) + rest) == Some((n, rest))
  {
    var ds := DecimalText(n);
    DecimalTextDigits(n);
    DigitSpanOf(ds, rest);
    assert (ds + rest)[..|ds|] == ds;
    assert (ds + rest)[|ds|..] == rest;
  }

  /** Parse inverts Ser: every configuration is recovered from its JSON text. */
  lemma ParseSer(c: Config)
    ensures Parse(Ser(c)) == Some(c)
  {
    var t4 := DecimalText(c.api_rate_limit) + "}";
    var t3 := ApiRateLimitKey + t4;
    var t2 := MaintenanceModeKey + (BoolText(c.maintenance_mode) + t3);
    var t1 := Escape(c.logging_level) + ("\"" + t2);
    var t0 := LoggingLevelKey + t1;
    StripPrefixOf(FeatureFlagKey, BoolText(c.feature_flag) + t0);
    ParseBoolText(c.feature_flag, t0);
    StripPrefixOf(LoggingLevelKey, t1);
    UnescapeEscape(c.logging_level, t2);
    StripPrefixOf(MaintenanceModeKey, BoolText(c.maintenance_mode) + t3);
    ParseBoolText(c.maintenance_mode, t3);
    StripPrefixOf(ApiRateLimitKey, t4);
    ParseNatText(c.api_rate_limit, "}");
  }

  /** Distinct configurations serialise to distinct texts. */
  lemma SerInjective(a: Config, b: Config)
    ensures Ser(a) == Ser(b) <==> a == b
  {
    ParseSer(a);
    ParseSer(b);
  }

  /** The marker is not JSON for any configuration, so a client can always tell them apart. */
  lemma NotAvailableIsNoConfig(c: Config)
    ensures Parse(NotAvailable) == None
    ensures Ser(c) != NotAvailable
  {
    assert NotAvailable[2] == 'e' && FeatureFlagKey[2] == 'f';
    assert !(FeatureFlagKey <= NotAvailable);
    ParseSer(c);
  }
}
