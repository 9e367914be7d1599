/** The pure parts of the quote layer (src/market.py): translating exchange codes into
    Yahoo Finance tickers, building the Sina quote request, and reading Sina's
    `hq_str` payload. The network calls themselves are not part of this model. */
module Market {
  import opened Wrappers
  import opened Text

  /** The Sina endpoint a quote request is appended to. */
  const SinaListUrl: string := "https://hq.sinajs.cn/list="

  /** The characters `strip('";')` removes from both ends of Sina's payload. */
  const QuoteChars: set<char> := {'"', ';'}

  /** `code.startswith(("6", "9"))`: the codes the Shanghai exchange lists. */
  predicate ShanghaiListed(code: string): (r: bool)
    ensures r <==> StartsWith(code, "6") || StartsWith(code, "9")
  {
    code != [] && (code[0] == '6' || code[0] == '9')
  }

  // ---------------------------------------------------------------- Yahoo tickers

  /** `a_symbol_to_yf`: the stripped code followed by the Shanghai suffix `.SS` when it
      starts with 6 or 9, by the Shenzhen suffix `.SZ` otherwise. */
  function AShareToYahoo(code: string): (r: string)
    ensures |r| == |Strip(code)| + 3 && r[..|r| - 3] == Strip(code)
    ensures r[|r| - 3..] == ".SS" <==> ShanghaiListed(Strip(code))
    ensures r[|r| - 3..] == ".SZ" <==> !ShanghaiListed(Strip(code))
  {
    var c := Strip(code);
    var r := c + (if ShanghaiListed(c) then ".SS" else ".SZ");
    assert r[|r| - 3..] == (if ShanghaiListed(c) then ".SS" else ".SZ");
    r
  }

  /** `code.zfill(width)` when `int(code) < limit`, otherwise `code` as it is (where `int`
      raises, the `except` leaves the code alone). The result only ever gains leading
      zeros, so it never shortens the code and never changes its numeric value. */
  function PadBelow(code: string, limit: nat, width: nat): (r: string)
    ensures |r| >= |code| && r[|r| - |code|..] == code
    ensures forall i :: 0 <= i < |r| - |code| ==> r[i] == '0'
    ensures ParseInt(r) == ParseInt(code)
    ensures ParseInt(code).Some? && ParseInt(code).value < limit ==> |r| == (if |code| < width then width else |code|)
    ensures !(ParseInt(code).Some? && ParseInt(code).value < limit) ==> r == code
  {
    match ParseInt(code)
    case Some(v) =>
      if v < limit then
        ZFillKeepsValue(code, width);
        ZFill(code, width)
      else code
    case None => code
  }

  /** `hk_symbol_to_yf`: a numeric code below 1000 is zero-padded to four digits, any
      other code is kept; the ticker always ends in `.HK`. */
  function HkToYahoo(code: string): (r: string)
    ensures |r| >= |Strip(code)| + 3 && r[|r| - 3..] == ".HK"
    ensures r[..|r| - 3] == PadBelow(Strip(code), 1000, 4)
  {
    var r := PadBelow(Strip(code), 1000, 4) + ".HK";
    assert r[|r| - 3..] == ".HK";
    r
  }

  /** The ticker `get_quote` asks Yahoo for: chosen by the upper-cased market, with any
      market other than `A` and `HK` passing the symbol through unchanged. */
  function YahooSymbol(symbol: string, market: string): (r: string)
    ensures Upper(market) == "A" ==> r == AShareToYahoo(symbol)
    ensures Upper(market) == "HK" ==> r == HkToYahoo(symbol)
    ensures Upper(market) != "A" && Upper(market) != "HK" ==> r == symbol
  {
    var m := Upper(market);
    if m == "A" then AShareToYahoo(symbol)
    else if m == "HK" then HkToYahoo(symbol)
    else symbol
  }

  // ---------------------------------------------------------------- Sina request

  /** The instrument part of the Sina request, after `list=`: `sh`/`sz` by the same 6/9
      rule followed by the stripped A-share code; `hk` followed by the HK code padded to
      five digits when it is a numeral below 10000; nothing for any other market. */
  function SinaCode(symbol: string, market: string): (r: Option<string>)
    ensures r.Some? <==> Upper(market) == "A" || Upper(market) == "HK"
    ensures Upper(market) == "A" ==>
              r.Some? && |r.value| == |Strip(symbol)| + 2 && r.value[2..] == Strip(symbol)
              && (r.value[..2] == "sh" <==> ShanghaiListed(Strip(symbol)))
              && (r.value[..2] == "sz" <==> !ShanghaiListed(Strip(symbol)))
    ensures Upper(market) == "HK" ==>
              r.Some? && |r.value| >= 2 && r.value[..2] == "hk" && r.value[2..] == PadBelow(Strip(symbol), 10000, 5)
  {
    var m := Upper(market);
    if m == "A" then
      var c := Strip(symbol);
      var pref := if ShanghaiListed(c) then "sh" else "sz";
      assert (pref + c)[..2] == pref && (pref + c)[2..] == c;
      Some(pref + c)
    else if m == "HK" then
      var c := PadBelow(Strip(symbol), 10000, 5);
      assert ("hk" + c)[..2] == "hk" && ("hk" + c)[2..] == c;
      Some("hk" + c)
    else None
  }

  /** The URL `_sina_quote` requests, or nothing when it returns before any request. */
  function SinaUrl(symbol: string, market: string): (r: Option<string>)
    ensures r.Some? <==> SinaCode(symbol, market).Some?
    ensures r.Some? ==> StartsWith(r.value, SinaListUrl) && r.value[|SinaListUrl|..] == SinaCode(symbol, market).value
  {
    match SinaCode(symbol, market)
    case None => None
    case Some(code) =>
      assert (SinaListUrl + code)[..|SinaListUrl|] == SinaListUrl;
      assert (SinaListUrl + code)[|SinaListUrl|..] == code;
      Some(SinaListUrl + code)
  }

  // ---------------------------------------------------------------- Sina response

  /** The dictionary `_sina_quote` returns, with the price left as the selected field's
      text (its conversion by `float` is not modelled). */
  datatype SinaQuote = SinaQuote(symbol: string, name: string, price: Option<string>)

  /** The comma-separated fields of a response: the text after the first `=`, stripped
      of whitespace and then of `"`/`;` at both ends. Without an `=` the source's
      `split("=", 1)[1]` raises, which the surrounding `except` turns into no quote. */
  function SinaFields(text: string): (r: Option<seq<string>>)
    ensures r.Some? <==> '=' in text
    ensures r.Some? ==> |r.value| >= 1 && forall k :: 0 <= k < |r.value| ==> ',' !in r.value[k]
  {
    match FirstIndex(text, '=')
    case None => None
    case Some(i) => Some(Split(Trim(Strip(text[i + 1..]), QuoteChars), ','))
  }

  /** What the fields are: joined back with commas they give the text after the first
      `=`, stripped of whitespace and then of `"`/`;`. With the comma-free clause of
      `SinaFields`, this fixes them as the pieces `split(",")` cuts that text into. */
  lemma SinaFieldsJoin(text: string, i: nat)
    requires FirstIndex(text, '=') == Some(i)
    ensures SinaFields(text).Some?
    ensures Join(SinaFields(text).value, ',') == Trim(Strip(text[i + 1..]), QuoteChars)
  {
    JoinSplit(Trim(Strip(text[i + 1..]), QuoteChars), ',');
  }

  /** The field read as the price: field 3 for A shares; otherwise field 6 when there
      are more than six fields, else field 1. A missing or empty field gives no price. */
  function PriceField(market: string, parts: seq<string>): (r: Option<string>)
    ensures var idx := if Upper(market) == "A" then 3 else if |parts| > 6 then 6 else 1;
              (r.Some? <==> idx < |parts| && parts[idx] != "")
              && (r.Some? ==> r.value == parts[idx])
  {
    if Upper(market) == "A" then
      if |parts| > 3 && parts[3] != "" then Some(parts[3]) else None
    else
      var idx := if |parts| > 6 then 6 else 1;
      if |parts| > idx && parts[idx] != "" then Some(parts[idx]) else None
  }

  /** Reading a Sina response: no quote unless it mentions `hq_str`, has an `=`, and its
      first field (the instrument's name) is non-empty. */
  function ParseSina(symbol: string, market: string, text: string): (r: Option<SinaQuote>)
    ensures r.Some? ==> Contains(text, "hq_str") && '=' in text
    ensures r.Some? ==> r.value.symbol == symbol && r.value.name != [] && ',' !in r.value.name
    ensures r.Some? ==> r.value.name == SinaFields(text).value[0]
    ensures r.Some? ==> r.value.price == PriceField(market, SinaFields(text).value)
    ensures Contains(text, "hq_str") && SinaFields(text).Some? && SinaFields(text).value[0] != [] ==> r.Some?
  {
    if !Contains(text, "hq_str") then None
    else match SinaFields(text)
      case None => None
      case Some(parts) =>
        if parts[0] == "" then None
        else Some(SinaQuote(symbol, parts[0], PriceField(market, parts)))
  }

  /** `_sina_quote` as a whole, with the HTTP exchange given as its response text (`None`
      for a network error or an HTTP error status): no quote for any market other than
      `A` or `HK`, before anything is requested. */
  function SinaQuoteOf(symbol: string, market: string, response: Option<string>): (r: Option<SinaQuote>)
    ensures SinaUrl(symbol, market).None? ==> r.None?
    ensures response.None? ==> r.None?
    ensures SinaUrl(symbol, market).Some? && response.Some? ==> r == ParseSina(symbol, market, response.value)
  {
    if SinaUrl(symbol, market).None? then None
    else match response
      case None => None
      case Some(text) => ParseSina(symbol, market, text)
  }

  /** No piece of a join carries a character of `cs` when neither the pieces nor the
      separator do. */
  lemma {:induction false} JoinAvoids(parts: seq<string>, sep: char, cs: set<char>)
    requires |parts| >= 1 && sep !in cs
    requires forall i, k :: 0 <= i < |parts| && 0 <= k < |parts[i]| ==> parts[i][k] !in cs
    ensures forall k :: 0 <= k < |Join(parts, sep)| ==> Join(parts, sep)[k] !in cs
    decreases |parts|
  {
    if |parts| > 1 {
      JoinAvoids(parts[1..], sep, cs);
      var tail := Join(parts[1..], sep);
      var j := parts[0] + [sep] + tail;
      forall k | 0 <= k < |j| ensures j[k] !in cs {
        if k < |parts[0]| {
          assert j[k] == parts[0][k];
        } else if k == |parts[0]| {
          assert j[k] == sep;
        } else {
          assert j[k] == tail[k - |parts[0]| - 1];
        }
      }
    }
  }

  /** A well-formed response `<prefix>="<f0>,<f1>,...";` followed by a newline, whose
      prefix mentions `hq_str` and whose fields hold no `,`, `"` or `;`, reads back as a
      quote named by its first field and priced by the field `PriceField` selects. */
  lemma SinaResponseRoundTrip(symbol: string, market: string, prefix: string, fields: seq<string>)
    requires Contains(prefix, "hq_str") && '=' !in prefix
    requires |fields| >= 1 && fields[0] != ""
    requires forall i, k :: 0 <= i < |fields| && 0 <= k < |fields[i]| ==>
               fields[i][k] != ',' && fields[i][k] !in QuoteChars
    ensures ParseSina(symbol, market, prefix + "=\"" + Join(fields, ',') + "\";\n")
            == Some(SinaQuote(symbol, fields[0], PriceField(market, fields)))
  {
    var body := Join(fields, ',');
    var rest := "=\"" + body + "\";\n";
    var text := prefix + rest;
    assert text == prefix + "=\"" + body + "\";\n";
    ContainsAppend(prefix, rest, "hq_str");
    SinaFieldsOfResponse(prefix, fields);
    assert SinaFields(text) == Some(fields);
  }

  lemma SinaFieldsOfResponse(prefix: string, fields: seq<string>)
    requires '=' !in prefix
    requires |fields| >= 1 && fields[0] != ""
    requires forall i, k :: 0 <= i < |fields| && 0 <= k < |fields[i]| ==>
               fields[i][k] != ',' && fields[i][k] !in QuoteChars
    ensures SinaFields(prefix + ("=\"" + Join(fields, ',') + "\";\n")) == Some(fields)
  {
    var body := Join(fields, ',');
    var rest := "=\"" + body + "\";\n";
    var text := prefix + rest;
    FirstIndexAfter(prefix, rest, '=');
    assert text[|prefix| + 1..] == rest[1..];
    assert rest[1..] == "\"" + body + "\";\n";
    PayloadUnwraps(fields);
    assert forall i :: 0 <= i < |fields| ==> ',' !in fields[i];
    SplitJoin(fields, ',');
  }

  /** The first `c` of `prefix + rest` is the one `rest` starts with when `prefix` has none. */
  lemma FirstIndexAfter(prefix: string, rest: string, c: char)
    requires c !in prefix && rest != [] && rest[0] == c
    ensures FirstIndex(prefix + rest, c) == Some(|prefix|)
  {
    var text := prefix + rest;
    assert text[|prefix|] == c;
    assert forall k :: 0 <= k < |prefix| ==> text[k] == prefix[k];
  }

  /** Stripping whitespace and then `"`/`;` from `"<body>";` and a newline leaves `<body>`. */
  lemma PayloadUnwraps(fields: seq<string>)
    requires |fields| >= 1 && fields[0] != ""
    requires forall i, k :: 0 <= i < |fields| && 0 <= k < |fields[i]| ==>
               fields[i][k] != ',' && fields[i][k] !in QuoteChars
    ensures Trim(Strip("\"" + Join(fields, ',') + "\";\n"), QuoteChars) == Join(fields, ',')
  {
    var body := Join(fields, ',');
    var quoted := "\"" + body + "\";";
    JoinAvoids(fields, ',', QuoteChars);
    assert body != [] by {
      if |fields| > 1 { assert |body| >= |fields[0]|; }
    }
    assert quoted + "\n" == "\"" + body + "\";\n";
    assert [] + quoted + "\n" == quoted + "\n";
    TrimAround([], quoted, "\n", Whitespace);
    assert "\"" + body + "\";" == quoted;
    TrimAround("\"", body, "\";", QuoteChars);
  }

  /** A code with no surrounding whitespace is its own stripped form. */
  lemma StripBare(code: string)
    requires code != [] && code[0] !in Whitespace && code[|code| - 1] !in Whitespace
    ensures Strip(code) == code
  {
    assert [] + code + [] == code;
    TrimAround([], code, [], Whitespace);
  }

  /** Worked example: Ping An Bank trades in Shenzhen. */
  lemma ShenzhenExample(code: string)
    requires code == "000001"
    ensures AShareToYahoo(code) == "000001.SZ"
  {
    StripBare(code);
  }

  /** Worked example: Kweichow Moutai, given with stray whitespace, trades in Shanghai. */
  lemma ShanghaiExample(code: string)
    requires code == " 600519\n"
    ensures Strip(code) == "600519"
    ensures AShareToYahoo(code) == "600519.SS"
  {
    var core := "600519";
    assert " " + core + "\n" == code;
    TrimAround(" ", core, "\n", Whitespace);
  }

  /** A digit string is its own stripped form. */
  lemma StripNumeral(code: string)
    requires IsNumeral(code)
    ensures Strip(code) == code
  {
    StripBare(code);
  }

  /** A numeral with fewer digits than the limit has is always padded. */
  lemma PadsShortNumeral(code: string, limit: nat, width: nat)
    requires IsNumeral(code) && Pow10(|code|) <= limit && |code| <= width
    ensures PadBelow(code, limit, width) == Zeros(width - |code|) + code
  {
    DigitsBelow(code);
  }

  /** An HK code of at most three digits (Tencent's 700, say) is zero-padded to four
      digits for Yahoo. */
  lemma ShortHkTicker(code: string)
    requires IsNumeral(code) && |code| <= 3
    ensures HkToYahoo(code) == Zeros(4 - |code|) + code + ".HK"
  {
    StripNumeral(code);
    Pow10Grows(|code|, 3);
    assert Pow10(3) == 1000;
    PadsShortNumeral(code, 1000, 4);
  }

  /** An HK code of at most four digits is zero-padded to five digits for Sina. */
  lemma ShortHkSinaCode(code: string, market: string)
    requires IsNumeral(code) && |code| <= 4 && Upper(market) == "HK"
    ensures SinaCode(code, market) == Some("hk" + Zeros(5 - |code|) + code)
  {
    StripNumeral(code);
    Pow10Grows(|code|, 4);
    assert Pow10(4) == 10000;
    var padded := PadBelow(code, 10000, 5);
    PadsShortNumeral(code, 10000, 5);
    assert Upper(market) != "A";
    assert SinaCode(code, market) == Some("hk" + padded);
    assert "hk" + padded == "hk" + Zeros(5 - |code|) + code;
  }
}
