/** The proxy URL builder `get_zenrows_api_url`, defined identically in both
    spiders: the rendering service's endpoint, the API key as given, and the
    three request parameters serialised by Python's `urlencode`, whose values
    and keys go through `quote_plus` (UTF-8, the always-safe ASCII set
    `A-Z a-z 0-9 _ . - ~`, space as `+`, every other byte as `%XX`).  A
    string is a sequence of Unicode scalar values, so a lone surrogate,
    which `quote_plus` refuses, cannot occur. */
module Proxy {
  import opened Wrappers
  import opened Dicts

  const Endpoint: string := "https://api.zenrows.com/v1/?apikey="

  /** The characters `quote` never escapes. */
  predicate AlwaysSafe(c: char)
  {
    ('A' <= c <= 'Z') || ('a' <= c <= 'z') || ('0' <= c <= '9') || c == '_' || c == '.' || c == '-' || c == '~'
  }

  /** The characters `quote_plus` can emit. */
  predicate Emitted(c: char)
  {
    AlwaysSafe(c) || c == '%' || c == '+'
  }

  predicate IsByte(b: int) { 0 <= b < 256 }

  /** The UTF-8 encoding of one character. */
  function Utf8(c: char): (bs: seq<int>)
    ensures 1 <= |bs| <= 4
    ensures forall i :: 0 <= i < |bs| ==> IsByte(bs[i])
    ensures (c as int) < 0x80 <==> bs == [c as int]
  {
    var n := c as int;
    if n < 0x80 then [n]
    else if n < 0x800 then [0xC0 + n / 64, 0x80 + n % 64]
    else if n < 0x10000 then [0xE0 + n / 4096, 0x80 + (n / 64) % 64, 0x80 + n % 64]
    else [0xF0 + n / 262144, 0x80 + (n / 4096) % 64, 0x80 + (n / 64) % 64, 0x80 + n % 64]
  }

  /** The UTF-8 encoding of a string (`s.encode('utf-8')`). */
  function Utf8Encode(s: string): (bs: seq<int>)
    ensures forall i :: 0 <= i < |bs| ==> IsByte(bs[i])
  {
    if s == [] then [] else Utf8(s[0]) + Utf8Encode(s[1..])
  }

  /** An upper-case hexadecimal digit. */
  function HexDigit(v: int): (c: char)
    requires 0 <= v < 16
    ensures ('0' <= c <= '9') || ('A' <= c <= 'F')
  {
    if v < 10 then ('0' as int + v) as char else ('A' as int + v - 10) as char
  }

  /** `%XX` for each byte. */
  function PercentBytes(bs: seq<int>): (r: string)
    requires forall i :: 0 <= i < |bs| ==> IsByte(bs[i])
    ensures |r| == 3 * |bs|
    ensures forall i :: 0 <= i < |r| ==> Emitted(r[i])
  {
    if bs == [] then []
    else
      var b := bs[0];
      assert IsByte(b);
      ['%', HexDigit(b / 16), HexDigit(b % 16)] + PercentBytes(bs[1..])
  }

  /** `quote_plus` of one character: itself when always safe, `+` for a
      space, otherwise `%XX` for each of its one to four UTF-8 bytes. */
  function QuoteChar(c: char): (r: string)
    ensures 1 <= |r| <= 12
    ensures r == [c] <==> AlwaysSafe(c)
  {
    if AlwaysSafe(c) then [c]
    else if c == ' ' then "+"
    else PercentBytes(Utf8(c))
  }

  /** `quote_plus(s)` with `safe=''`. */
  function QuotePlus(s: string): (r: string)
    ensures |s| <= |r| <= 12 * |s|
  {
    if s == [] then [] else QuoteChar(s[0]) + QuotePlus(s[1..])
  }

  /** The encoding uses only the always-safe characters, `%` and `+`. */
  lemma {:induction false} QuotePlusEmitted(s: string)
    ensures forall i :: 0 <= i < |QuotePlus(s)| ==> Emitted(QuotePlus(s)[i])
  {
    if s != [] {
      var head := QuoteChar(s[0]);
      assert forall i :: 0 <= i < |head| ==> Emitted(head[i]);
      QuotePlusEmitted(s[1..]);
    }
  }

  /** A string made of always-safe characters is its own encoding. */
  lemma {:induction false} QuotePlusSafe(s: string)
    requires forall i :: 0 <= i < |s| ==> AlwaysSafe(s[i])
    ensures QuotePlus(s) == s
  {
    if s != [] {
      QuotePlusSafe(s[1..]);
    }
  }

  /** One `key=value` field of `urlencode`. */
  function FormField(p: (string, string)): string
  {
    QuotePlus(p.0) + "=" + QuotePlus(p.1)
  }

  /** `urlencode(params)`: the fields in the dict's order, joined by `&`. */
  function FormEncode(params: seq<(string, string)>): (r: string)
    ensures |r| == 0 <==> |params| == 0
  {
    if params == [] then ""
    else if |params| == 1 then FormField(params[0])
    else FormField(params[0]) + "&" + FormEncode(params[1..])
  }

  const UrlParam: string := "url"
  const JsRenderParam: string := "js_render"
  const PremiumProxyParam: string := "premium_proxy"
  const TrueValue: string := "true"

  /** The parameter dict built by `get_zenrows_api_url`, in insertion order. */
  function Params(url: string): (ps: seq<(string, string)>)
    ensures Valid(ps) && Keys(ps) == [UrlParam, JsRenderParam, PremiumProxyParam]
    ensures Lookup(ps, UrlParam) == Some(url)
    ensures Lookup(ps, JsRenderParam) == Some(TrueValue) && Lookup(ps, PremiumProxyParam) == Some(TrueValue)
  {
    var ps := [(UrlParam, url), (JsRenderParam, TrueValue), (PremiumProxyParam, TrueValue)];
    assert Lookup(ps[1..][1..], PremiumProxyParam) == Some(TrueValue);
    assert Lookup(ps[1..], PremiumProxyParam) == Some(TrueValue);
    ps
  }

  /** The query that `urlencode(params)` produces for the parameter dict:
      `url=` with the encoded target, `js_render=true`, `premium_proxy=true`
      (QueryIsFormEncoded). */
  function Query(url: string): string
  {
    (UrlParam + "=" + QuotePlus(url)) + "&" + (JsRenderParam + "=" + TrueValue) + "&" + (PremiumProxyParam + "=" + TrueValue)
  }

  /** `get_zenrows_api_url(url, api_key)`: the endpoint, the key verbatim,
      `&`, then the encoded parameters. */
  function ApiUrl(url: string, apiKey: string): string
  {
    Endpoint + apiKey + "&" + Query(url)
  }

  /** The parameter block is exactly `urlencode` of the parameter dict:
      three fields in insertion order, the names and `true` unescaped. */
  lemma QueryIsFormEncoded(url: string)
    ensures FormEncode(Params(url)) == Query(url)
  {
    FormEncodeThree(Params(url)[0], Params(url)[1], Params(url)[2]);
    ParamNamesSafe();
  }

  lemma FormEncodeThree(a: (string, string), b: (string, string), c: (string, string))
    ensures FormEncode([a, b, c]) == FormField(a) + "&" + FormField(b) + "&" + FormField(c)
  {
    FormEncodeCons(a, [b, c]);
    FormEncodeCons(b, [c]);
    assert [a] + [b, c] == [a, b, c] && [b] + [c] == [b, c];
    assert FormEncode([c]) == FormField(c);
    JoinThree(FormField(a), FormField(b), FormField(c), "&");
  }

  /** `urlencode` of two or more fields: the first field, `&`, the rest. */
  lemma FormEncodeCons(p: (string, string), rest: seq<(string, string)>)
    requires rest != []
    ensures FormEncode([p] + rest) == FormField(p) + "&" + FormEncode(rest)
  {
    var ps := [p] + rest;
    assert ps[0] == p && ps[1..] == rest && |ps| > 1;
  }

  // Associativity, stated once so that FormEncodeThree stays cheap to verify.
  lemma JoinThree<T>(x: seq<T>, y: seq<T>, z: seq<T>, sep: seq<T>)
    ensures x + sep + (y + sep + z) == x + sep + y + sep + z
  {
  }

  lemma ParamNameSafe(k: string)
    requires k == UrlParam || k == JsRenderParam || k == PremiumProxyParam || k == TrueValue
    ensures QuotePlus(k) == k
  {
    if k == UrlParam { QuotePlusSafe(UrlParam); }
    else if k == JsRenderParam { QuotePlusSafe(JsRenderParam); }
    else if k == PremiumProxyParam { QuotePlusSafe(PremiumProxyParam); }
    else { QuotePlusSafe(TrueValue); }
  }

  /** The parameter names and the value `true` need no escaping. */
  lemma ParamNamesSafe()
    ensures QuotePlus(UrlParam) == UrlParam && QuotePlus(JsRenderParam) == JsRenderParam
    ensures QuotePlus(PremiumProxyParam) == PremiumProxyParam && QuotePlus(TrueValue) == TrueValue
  {
    ParamNameSafe(UrlParam);
    ParamNameSafe(JsRenderParam);
    ParamNameSafe(PremiumProxyParam);
    ParamNameSafe(TrueValue);
  }

  // ---- Reading a built URL back -------------------------------------------

  /** `s.split(sep)`. */
  function Split(s: string, sep: char): (parts: seq<string>)
    ensures |parts| >= 1
  {
    if s == [] then [""]
    else
      var rest := Split(s[1..], sep);
      if s[0] == sep then [""] + rest else [[s[0]] + rest[0]] + rest[1..]
  }

  lemma {:induction false} SplitNoSeparator(s: string, sep: char)
    requires sep !in s
    ensures Split(s, sep) == [s]
  {
    if s != [] {
      SplitNoSeparator(s[1..], sep);
      assert [s[0]] + s[1..] == s;
    }
  }

  lemma {:induction false} SplitAt(a: string, sep: char, b: string)
    requires sep !in a
    ensures Split(a + [sep] + b, sep) == [a] + Split(b, sep)
  {
    if a == [] {
      assert a + [sep] + b == [sep] + b;
      assert ([sep] + b)[1..] == b;
    } else {
      assert (a + [sep] + b)[1..] == a[1..] + [sep] + b;
      SplitAt(a[1..], sep, b);
      assert [a[0]] + a[1..] == a;
    }
  }

  // Kept as a separate lemma to keep the cost of ApiUrlFields down.
  lemma FixedFieldsPlain()
    ensures '&' !in JsRenderParam + "=" + TrueValue && '&' !in PremiumProxyParam + "=" + TrueValue
  {
  }

  lemma QueryOf(url: string, apiKey: string)
    ensures ApiUrl(url, apiKey)[|Endpoint|..]
            == apiKey + "&" + (UrlParam + "=" + QuotePlus(url)) + "&" + (JsRenderParam + "=" + TrueValue) + "&" + (PremiumProxyParam + "=" + TrueValue)
  {
    DropEndpoint(Endpoint, apiKey, "&", UrlParam + "=" + QuotePlus(url), JsRenderParam + "=" + TrueValue,
                 PremiumProxyParam + "=" + TrueValue);
  }

  // Associativity, stated once so that QueryOf stays cheap to verify.
  lemma DropEndpoint(e: string, k: string, amp: string, a: string, b: string, c: string)
    ensures (e + k + amp + (a + amp + b + amp + c))[|e|..] == k + amp + a + amp + b + amp + c
  {
    assert e + k + amp + (a + amp + b + amp + c) == e + (k + amp + a + amp + b + amp + c);
  }

  lemma SplitFour(w: string, x: string, y: string, z: string, sep: char)
    requires sep !in w && sep !in x && sep !in y && sep !in z
    ensures Split(w + [sep] + x + [sep] + y + [sep] + z, sep) == [w, x, y, z]
  {
    JoinFour(w, x, y, z, [sep]);
    SplitAt(w, sep, x + [sep] + (y + [sep] + z));
    SplitAt(x, sep, y + [sep] + z);
    SplitAt(y, sep, z);
    SplitNoSeparator(z, sep);
    assert [w] + ([x] + ([y] + [z])) == [w, x, y, z];
  }

  // Associativity, stated once so that SplitFour stays cheap to verify.
  lemma JoinFour<T>(w: seq<T>, x: seq<T>, y: seq<T>, z: seq<T>, sep: seq<T>)
    ensures w + sep + x + sep + y + sep + z == w + sep + (x + sep + (y + sep + z))
  {
  }

  /** An encoded value holds neither of urlencode's delimiters. */
  lemma NoDelimiters(s: string)
    ensures '&' !in QuotePlus(s) && '=' !in QuotePlus(s)
  {
    var q := QuotePlus(s);
    QuotePlusEmitted(s);
    assert forall i :: 0 <= i < |q| ==> q[i] != '&' && q[i] != '=' by {
      forall i | 0 <= i < |q| ensures q[i] != '&' && q[i] != '=' {
        assert Emitted(q[i]);
      }
    }
  }

  lemma UrlFieldPlain(url: string)
    ensures '&' !in UrlParam + "=" + QuotePlus(url)
  {
    NoDelimiters(url);
  }

  /** When the key holds no `&`, splitting the query of a built URL on `&`
      gives back the key and the three fields, in order. */
  lemma ApiUrlFields(url: string, apiKey: string)
    requires '&' !in apiKey
    ensures Split(ApiUrl(url, apiKey)[|Endpoint|..], '&')
            == [apiKey, UrlParam + "=" + QuotePlus(url), JsRenderParam + "=" + TrueValue, PremiumProxyParam + "=" + TrueValue]
  {
    UrlFieldPlain(url);
    FixedFieldsPlain();
    QueryOf(url, apiKey);
    SplitFour(apiKey, UrlParam + "=" + QuotePlus(url), JsRenderParam + "=" + TrueValue, PremiumProxyParam + "=" + TrueValue, '&');
  }

  /** The url field splits on `=` into its name and the encoded target. */
  lemma UrlFieldParts(url: string)
    ensures Split(UrlParam + "=" + QuotePlus(url), '=') == [UrlParam, QuotePlus(url)]
  {
    NoDelimiters(url);
    SplitAt(UrlParam, '=', QuotePlus(url));
    SplitNoSeparator(QuotePlus(url), '=');
  }

  // ---- Decoding: the inverse of QuotePlus ----------------------------------

  predicate IsHex(c: char)
  {
    ('0' <= c <= '9') || ('A' <= c <= 'F') || ('a' <= c <= 'f')
  }

  function HexValue(c: char): (v: int)
    requires IsHex(c)
    ensures 0 <= v < 16
  {
    if '0' <= c <= '9' then c as int - '0' as int
    else if 'A' <= c <= 'F' then c as int - 'A' as int + 10
    else c as int - 'a' as int + 10
  }

  lemma HexRoundTrip(v: int)
    requires 0 <= v < 16
    ensures IsHex(HexDigit(v)) && HexValue(HexDigit(v)) == v
  {
  }

  /** `unquote_to_bytes(s.replace('+', ' '))`: `+` is a space, a valid `%XX`
      is one byte, any other character stands for its UTF-8 bytes. */
  function UnquotePlusBytes(s: string): (bs: seq<int>)
  {
    if s == [] then []
    else if s[0] == '+' then [0x20] + UnquotePlusBytes(s[1..])
    else if s[0] == '%' && |s| >= 3 && IsHex(s[1]) && IsHex(s[2]) then
      [HexValue(s[1]) * 16 + HexValue(s[2])] + UnquotePlusBytes(s[3..])
    else Utf8(s[0]) + UnquotePlusBytes(s[1..])
  }

  lemma {:induction false} UnquotePercentBytes(bs: seq<int>, rest: string)
    requires forall i :: 0 <= i < |bs| ==> IsByte(bs[i])
    ensures UnquotePlusBytes(PercentBytes(bs) + rest) == bs + UnquotePlusBytes(rest)
  {
    if bs != [] {
      var b := bs[0];
      var tail := PercentBytes(bs[1..]) + rest;
      var s := PercentBytes(bs) + rest;
      var hi, lo := HexDigit(b / 16), HexDigit(b % 16);
      assert s == ['%', hi, lo] + tail;
      assert s[0] == '%' && s[1] == hi && s[2] == lo && s[3..] == tail;
      HexRoundTrip(b / 16);
      HexRoundTrip(b % 16);
      assert HexValue(hi) * 16 + HexValue(lo) == b;
      assert UnquotePlusBytes(s) == [b] + UnquotePlusBytes(tail);
      UnquotePercentBytes(bs[1..], rest);
      assert bs == [b] + bs[1..];
      assert [b] + (bs[1..] + UnquotePlusBytes(rest)) == bs + UnquotePlusBytes(rest);
    } else {
      assert PercentBytes(bs) + rest == rest;
    }
  }

  /** Percent-decoding an encoded string gives back its UTF-8 bytes. */
  lemma {:induction false} UnquoteQuotePlus(s: string)
    ensures UnquotePlusBytes(QuotePlus(s)) == Utf8Encode(s)
  {
    if s != [] {
      var c := s[0];
      var rest := QuotePlus(s[1..]);
      UnquoteQuotePlus(s[1..]);
      if AlwaysSafe(c) {
        assert ([c] + rest)[1..] == rest;
      } else if c == ' ' {
        assert ("+" + rest)[1..] == rest;
      } else {
        UnquotePercentBytes(Utf8(c), rest);
      }
    }
  }

  predicate IsContinuation(b: int) { 0x80 <= b < 0xC0 }

  /** Decodes the first UTF-8 sequence of `bs`: the character and the number
      of bytes it takes, or None for a malformed sequence. */
  function DecodeChar(bs: seq<int>): (r: Option<(char, int)>)
    ensures r.Some? ==> 1 <= r.value.1 <= |bs|
  {
    if bs == [] then None
    else
      var b0 := bs[0];
      if 0 <= b0 < 0x80 then Some((b0 as char, 1))
      else if 0xC2 <= b0 < 0xE0 && |bs| >= 2 && IsContinuation(bs[1]) then
        Some((((b0 - 0xC0) * 64 + (bs[1] - 0x80)) as char, 2))
      else if 0xE0 <= b0 < 0xF0 && |bs| >= 3 && IsContinuation(bs[1]) && IsContinuation(bs[2]) then
        var n := (b0 - 0xE0) * 4096 + (bs[1] - 0x80) * 64 + (bs[2] - 0x80);
        if 0x800 <= n && !(0xD800 <= n < 0xE000) then Some((n as char, 3)) else None
      else if 0xF0 <= b0 < 0xF5 && |bs| >= 4 && IsContinuation(bs[1]) && IsContinuation(bs[2]) && IsContinuation(bs[3]) then
        var n := (b0 - 0xF0) * 262144 + (bs[1] - 0x80) * 4096 + (bs[2] - 0x80) * 64 + (bs[3] - 0x80);
        if 0x10000 <= n < 0x110000 then Some((n as char, 4)) else None
      else None
  }

  /** `bs.decode('utf-8')`, None where Python would raise. */
  function Utf8Decode(bs: seq<int>): Option<string>
    decreases |bs|
  {
    if bs == [] then Some([])
    else match DecodeChar(bs)
      case None => None
      case Some((c, len)) =>
        match Utf8Decode(bs[len..])
        case None => None
        case Some(rest) => Some([c] + rest)
  }

  lemma DecodeUtf8Char(c: char, rest: seq<int>)
    ensures DecodeChar(Utf8(c) + rest) == Some((c, |Utf8(c)|))
  {
    var n := c as int;
    if n < 0x80 {
    } else if n < 0x800 {
      DecodeTwo(c, rest);
    } else if n < 0x10000 {
      DecodeThree(c, rest);
    } else {
      DecodeFour(c, rest);
    }
  }

  lemma DecodeTwo(c: char, rest: seq<int>)
    requires 0x80 <= c as int < 0x800
    ensures DecodeChar(Utf8(c) + rest) == Some((c, 2))
  {
    var n := c as int;
    var bs := Utf8(c) + rest;
    assert bs[0] == 0xC0 + n / 64 && bs[1] == 0x80 + n % 64;
    assert (n / 64) * 64 + n % 64 == n;
  }

  lemma DecodeThree(c: char, rest: seq<int>)
    requires 0x800 <= c as int < 0x10000
    ensures DecodeChar(Utf8(c) + rest) == Some((c, 3))
  {
    var n := c as int;
    var bs := Utf8(c) + rest;
    assert bs[0] == 0xE0 + n / 4096 && bs[1] == 0x80 + (n / 64) % 64 && bs[2] == 0x80 + n % 64;
    assert (n / 4096) * 4096 + ((n / 64) % 64) * 64 + n % 64 == n by {
      assert n / 64 == (n / 4096) * 64 + (n / 64) % 64;
    }
  }

  lemma DecodeFour(c: char, rest: seq<int>)
    requires 0x10000 <= c as int
    ensures DecodeChar(Utf8(c) + rest) == Some((c, 4))
  {
    var n := c as int;
    var bs := Utf8(c) + rest;
    assert bs[0] == 0xF0 + n / 262144 && bs[1] == 0x80 + (n / 4096) % 64;
    assert bs[2] == 0x80 + (n / 64) % 64 && bs[3] == 0x80 + n % 64;
    FourDigits(n);
  }

  /** The four base-64 digits that a four-byte UTF-8 sequence carries put `n` back together. */
  lemma FourDigits(n: int)
    requires 0x10000 <= n < 0x110000
    ensures 0 <= n / 262144 < 5
    ensures n == (n / 262144) * 262144 + ((n / 4096) % 64) * 4096 + ((n / 64) % 64) * 64 + n % 64
  {
    assert n / 64 == (n / 4096) * 64 + (n / 64) % 64;
    assert n / 4096 == (n / 262144) * 64 + (n / 4096) % 64;
  }

  lemma {:induction false} Utf8RoundTrip(s: string)
    ensures Utf8Decode(Utf8Encode(s)) == Some(s)
  {
    if s != [] {
      var bs := Utf8Encode(s);
      DecodeUtf8Char(s[0], Utf8Encode(s[1..]));
      assert bs[|Utf8(s[0])|..] == Utf8Encode(s[1..]);
      Utf8RoundTrip(s[1..]);
      assert [s[0]] + s[1..] == s;
    }
  }

  /** `unquote_plus(quote_plus(s)) == s`: the target URL is recovered from
      the `url` field exactly. */
  lemma QuotePlusRoundTrip(s: string)
    ensures Utf8Decode(UnquotePlusBytes(QuotePlus(s))) == Some(s)
  {
    UnquoteQuotePlus(s);
    Utf8RoundTrip(s);
  }

  /** Under one key, different target URLs give different API URLs: the
      proxy request identifies the page it asks for. */
  lemma ApiUrlInjective(url1: string, url2: string, apiKey: string)
    ensures ApiUrl(url1, apiKey) == ApiUrl(url2, apiKey) ==> url1 == url2
  {
    if ApiUrl(url1, apiKey) == ApiUrl(url2, apiKey) {
      var name, js, premium := UrlParam + "=", JsRenderParam + "=" + TrueValue, PremiumProxyParam + "=" + TrueValue;
      ApiUrlShape(Endpoint, apiKey, name, QuotePlus(url1), js, premium);
      ApiUrlShape(Endpoint, apiKey, name, QuotePlus(url2), js, premium);
      CancelAround(Endpoint + apiKey + "&" + name, QuotePlus(url1), QuotePlus(url2), "&" + js + "&" + premium);
      QuotePlusRoundTrip(url1);
      QuotePlusRoundTrip(url2);
    }
  }

  // Associativity, stated once so that ApiUrlInjective stays cheap to verify.
  lemma ApiUrlShape(endpoint: string, apiKey: string, name: string, value: string, js: string, premium: string)
    ensures endpoint + apiKey + "&" + ((name + value) + "&" + js + "&" + premium)
            == (endpoint + apiKey + "&" + name) + value + ("&" + js + "&" + premium)
  {
  }

  lemma CancelAround(pre: string, a: string, b: string, suf: string)
    requires pre + a + suf == pre + b + suf
    ensures a == b
  {
    assert a == (pre + a + suf)[|pre|..|pre| + |a|];
    assert b == (pre + b + suf)[|pre|..|pre| + |b|];
  }
}
