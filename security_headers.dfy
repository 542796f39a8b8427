/**
 * The response headers the site configuration attaches to every page: a
 * fixed table of seven security headers, returned by the `headers()` hook
 * as a single rule for the path pattern `/:path*`.
 */
module SecurityHeaders {
  import opened Wrappers
  import opened Strings
  import ContentSecurityPolicy

  datatype Header = Header(key: string, value: string)

  /** One entry of the `headers()` result: a path pattern and the headers sent for it. */
  datatype HeaderRule = HeaderRule(source: string, headers: seq<Header>)

  /** The framework's pattern for every path. */
  const AllPaths: string := "/:path*"

  /** `max-age=31536000; includeSubDomains`, written in its three parts. */
  const HstsValue: string := "max-age=" + "31536000" + "; includeSubDomains"

  /** The `securityHeaders` table, in order. */
  const Table: seq<Header> := [
    Header("Content-Security-Policy", ContentSecurityPolicy.HeaderValue()),
    Header("Referrer-Policy", "strict-origin-when-cross-origin"),
    Header("X-Frame-Options", "DENY"),
    Header("X-Content-Type-Options", "nosniff"),
    Header("X-DNS-Prefetch-Control", "on"),
    Header("Strict-Transport-Security", HstsValue),
    Header("Permissions-Policy", "camera=(), microphone=(), geolocation=()")
  ]

  /** The `headers()` hook. */
  function Headers(): seq<HeaderRule>
  {
    [HeaderRule(AllPaths, Table)]
  }

  /** No two headers share a key. */
  predicate KeysDistinct(hs: seq<Header>)
  {
    forall i, j :: 0 <= i < j < |hs| ==> hs[i].key != hs[j].key
  }

  /** The value sent for `key`: the first header with that key, if any. */
  function ValueOf(hs: seq<Header>, key: string): (v: Option<string>)
    ensures v.None? <==> forall i :: 0 <= i < |hs| ==> hs[i].key != key
    ensures v.Some? ==> exists i :: 0 <= i < |hs| && hs[i] == Header(key, v.value) &&
                          forall j :: 0 <= j < i ==> hs[j].key != key
  {
    if hs == [] then None
    else if hs[0].key == key then Some(hs[0].value)
    else
      var v := ValueOf(hs[1..], key);
      assert v.Some? ==> exists i :: 0 <= i < |hs| && hs[i] == Header(key, v.value) &&
                          forall j :: 0 <= j < i ==> hs[j].key != key by {
        if v.Some? {
          var i :| 0 <= i < |hs[1..]| && hs[1..][i] == Header(key, v.value) &&
                   forall j :: 0 <= j < i ==> hs[1..][j].key != key;
          assert hs[i + 1] == hs[1..][i];
          forall j | 0 <= j < i + 1 ensures hs[j].key != key {
            if j > 0 { assert hs[j] == hs[1..][j - 1]; }
          }
        }
      }
      v
  }

  /** When keys are distinct, the value of each header's key is that header's value. */
  lemma {:induction false} ValueOfDistinct(hs: seq<Header>, i: nat)
    requires KeysDistinct(hs) && i < |hs|
    ensures ValueOf(hs, hs[i].key) == Some(hs[i].value)
  {
    if i > 0 {
      assert hs[0].key != hs[i].key;
      assert KeysDistinct(hs[1..]) by {
        forall a, b | 0 <= a < b < |hs[1..]| ensures hs[1..][a].key != hs[1..][b].key {
          assert hs[1..][a] == hs[a + 1] && hs[1..][b] == hs[b + 1];
        }
      }
      assert hs[1..][i - 1] == hs[i];
      ValueOfDistinct(hs[1..], i - 1);
    }
  }

  /** The seven keys of the table are pairwise distinct. */
  lemma TableKeysDistinct()
    ensures |Table| == 7
    ensures KeysDistinct(Table)
  {
  }

  /**
   * `headers()` returns one rule, for every path, carrying the whole table;
   * the Content-Security-Policy it sends has no line feed, and the HSTS
   * policy is a one-year max-age that covers subdomains.
   */
  lemma HeadersApplyTableToAllPaths()
    ensures |Headers()| == 1
    ensures Headers()[0].source == "/:path*"
    ensures Headers()[0].headers == Table && KeysDistinct(Table)
    ensures ValueOf(Table, "X-Frame-Options") == Some("DENY")
    ensures ValueOf(Table, "X-Content-Type-Options") == Some("nosniff")
    ensures ValueOf(Table, "Content-Security-Policy") == Some(ContentSecurityPolicy.HeaderValue())
    ensures '\n' !in ValueOf(Table, "Content-Security-Policy").value
    ensures ValueOf(Table, "Strict-Transport-Security") == Some(HstsValue)
    ensures ParseHsts(HstsValue) == Some(HstsPolicy(365 * 24 * 60 * 60, true))
  {
    TableKeysDistinct();
    ValueOfDistinct(Table, 0);
    ValueOfDistinct(Table, 2);
    ValueOfDistinct(Table, 3);
    ValueOfDistinct(Table, 5);
    HstsValueIsOneYear();
  }

  // ---------------------------------------------------------------------
  // The Strict-Transport-Security value (section 6.1 of RFC 6797): the
  // directive `max-age=<delta-seconds>`, optionally followed by `;` and the
  // valueless directive `includeSubDomains`.
  // ---------------------------------------------------------------------

  datatype HstsPolicy = HstsPolicy(maxAge: nat, includeSubDomains: bool)

  predicate IsDigit(c: char)
  {
    '0' <= c <= '9'
  }

  function DigitChar(d: nat): char
    requires d < 10
  {
    "0123456789"[d]
  }

  /** The decimal spelling of `n`, without leading zeros. */
  function Decimal(n: nat): (s: string)
    ensures s != []
    ensures forall i :: 0 <= i < |s| ==> IsDigit(s[i])
    // one digit exactly for the numbers below ten, and a leading '0' only for zero itself
    ensures |s| == 1 <==> n < 10
    ensures s[0] == '0' <==> n == 0
    decreases n
  {
    if n < 10 then [DigitChar(n)] else Decimal(n / 10) + [DigitChar(n % 10)]
  }

  function DigitValue(c: char): (d: nat)
    requires IsDigit(c)
    ensures d < 10
  {
    c as int - '0' as int
  }

  /** The number a string of digits spells. */
  function DecimalValue(s: string): nat
    requires forall i :: 0 <= i < |s| ==> IsDigit(s[i])
  {
    if s == [] then 0
    else DecimalValue(s[..|s| - 1]) * 10 + DigitValue(s[|s| - 1])
  }

  /** The number of digits `s` starts with. */
  function LeadingDigits(s: string): (k: nat)
    ensures k <= |s|
    ensures forall i :: 0 <= i < k ==> IsDigit(s[i])
    ensures k < |s| ==> !IsDigit(s[k])
  {
    if s == [] || !IsDigit(s[0]) then 0 else 1 + LeadingDigits(s[1..])
  }

  /** The value in the canonical form: `max-age=N`, then `; includeSubDomains` when set. */
  function FormatHsts(p: HstsPolicy): string
  {
    "max-age=" + Decimal(p.maxAge) + (if p.includeSubDomains then "; includeSubDomains" else "")
  }

  /**
   * Reads a value in the canonical form: `max-age=`, digits without a
   * leading zero (unless the number is 0), then nothing or
   * `; includeSubDomains`. Anything else is rejected.
   */
  function ParseHsts(v: string): Option<HstsPolicy>
  {
    if !StartsWith(v, "max-age=") then None
    else
      var rest := v[8..];
      var k := LeadingDigits(rest);
      if k == 0 || (k > 1 && rest[0] == '0') then None
      else if rest[k..] == "" then Some(HstsPolicy(DecimalValue(rest[..k]), false))
      else if rest[k..] == "; includeSubDomains" then Some(HstsPolicy(DecimalValue(rest[..k]), true))
      else None
  }

  /** Reading a number's decimal spelling gives the number back. */
  lemma {:induction false} DecimalRoundTrip(n: nat)
    ensures DecimalValue(Decimal(n)) == n
    decreases n
  {
    var s := Decimal(n);
    if n < 10 {
      assert s[..0] == [];
      assert DigitValue("0123456789"[n]) == n;
    } else {
      DecimalRoundTrip(n / 10);
      assert s[..|s| - 1] == Decimal(n / 10);
      assert DigitValue("0123456789"[n % 10]) == n % 10;
    }
  }

  /** Digits followed by a non-digit (or nothing): the leading digits are exactly the first part. */
  lemma {:induction false} LeadingDigitsOfAppend(a: string, b: string)
    requires forall i :: 0 <= i < |a| ==> IsDigit(a[i])
    requires b == [] || !IsDigit(b[0])
    ensures LeadingDigits(a + b) == |a|
  {
    if a != [] {
      assert (a + b)[1..] == a[1..] + b;
      LeadingDigitsOfAppend(a[1..], b);
    } else {
      assert a + b == b;
    }
  }

  /** Every policy is read back from its canonical spelling. */
  lemma HstsRoundTrip(p: HstsPolicy)
    ensures ParseHsts(FormatHsts(p)) == Some(p)
  {
    var d := Decimal(p.maxAge);
    var tail := if p.includeSubDomains then "; includeSubDomains" else "";
    var v := FormatHsts(p);
    assert v == "max-age=" + (d + tail);
    assert v[..8] == "max-age=";
    assert v[8..] == d + tail;
    LeadingDigitsOfAppend(d, tail);
    assert (d + tail)[..|d|] == d;
    assert (d + tail)[|d|..] == tail;
    assert (d + tail)[0] == d[0];
    DecimalRoundTrip(p.maxAge);
  }

  /** Each digit character is the spelling of its own value. */
  lemma DigitCharOfValue(c: char)
    requires IsDigit(c)
    ensures DigitChar(DigitValue(c)) == c
  {
  }

  /** A digit string that does not start with '0' spells a positive number. */
  lemma {:induction false} NonzeroLeadPositive(d: string)
    requires d != [] && d[0] != '0'
    requires forall i :: 0 <= i < |d| ==> IsDigit(d[i])
    ensures DecimalValue(d) >= 1
  {
    if |d| > 1 {
      var p := d[..|d| - 1];
      assert p[0] == d[0];
      NonzeroLeadPositive(p);
    } else {
      assert d[..0] == [];
    }
  }

  /** A digit string without a superfluous leading zero is the spelling of the number it denotes. */
  lemma {:induction false} CanonicalDigits(d: string)
    requires d != [] && (|d| == 1 || d[0] != '0')
    requires forall i :: 0 <= i < |d| ==> IsDigit(d[i])
    ensures Decimal(DecimalValue(d)) == d
  {
    var last := d[|d| - 1];
    DigitCharOfValue(last);
    if |d| == 1 {
      assert d[..0] == [];
      assert d == [last];
    } else {
      var p := d[..|d| - 1];
      assert p[0] == d[0];
      NonzeroLeadPositive(p);
      CanonicalDigits(p);
      var n := DecimalValue(d);
      var x := DigitValue(last);
      assert n == DecimalValue(p) * 10 + x;
      assert n / 10 == DecimalValue(p) && n % 10 == x;
      assert d == p + [last];
    }
  }

  /** Whatever the parser accepts is the canonical spelling of the policy it returns. */
  lemma HstsParseIsCanonical(v: string)
    ensures ParseHsts(v).Some? ==> FormatHsts(ParseHsts(v).value) == v
  {
    if ParseHsts(v).Some? {
      var rest := v[8..];
      var k := LeadingDigits(rest);
      CanonicalDigits(rest[..k]);
      assert v == "max-age=" + rest[..k] + rest[k..];
    }
  }

  /** The decimal spelling of one year in seconds. */
  lemma DecimalOfOneYear()
    ensures Decimal(31536000) == "31536000"
  {
    assert Decimal(3) == "3";
    assert Decimal(31) == "31";
    assert Decimal(315) == "315";
    assert Decimal(3153) == "3153";
    assert Decimal(31536) == "31536";
    assert Decimal(315360) == "315360";
    assert Decimal(3153600) == "3153600";
  }

  /** The site's HSTS value is the canonical spelling of a one-year policy that covers subdomains. */
  lemma HstsValueIsOneYear()
    ensures HstsValue == FormatHsts(HstsPolicy(31536000, true))
    ensures 31536000 == 365 * 24 * 60 * 60
    ensures ParseHsts(HstsValue) == Some(HstsPolicy(31536000, true))
  {
    DecimalOfOneYear();
    HstsRoundTrip(HstsPolicy(31536000, true));
  }
}
