/** The search URL: percent-encoding, and filling the query into an endpoint. */
module WebSearch {
  import opened Wrappers
  import opened Text

  // ----- percent-encoding (RFC 3986, sections 2.1 and 2.3)

  /** std::string holds bytes. */
  predicate IsByteString(s: string) {
    forall i :: 0 <= i < |s| ==> s[i] as int < 256
  }

  predicate IsUnreserved(c: char) {
    IsAlnum(c) || c == '-' || c == '_' || c == '.' || c == '~'
  }

  const HEX := "0123456789ABCDEF"

  function EncodeChar(c: char): string
    requires c as int < 256
  {
    if IsUnreserved(c) then [c] else ['%', HEX[c as int / 16], HEX[c as int % 16]]
  }

  function Encoded(s: string): string
    requires IsByteString(s)
  {
    if s == "" then "" else EncodeChar(s[0]) + Encoded(s[1..])
  }

  /** percent_encode */
  method PercentEncode(value: string) returns (encoded: string)
    requires IsByteString(value)
    ensures encoded == Encoded(value)
  {
    encoded := "";
    assert value[0..] == value;
    for i := 0 to |value|
      invariant encoded + Encoded(value[i..]) == Encoded(value)
    {
      var ch := value[i];
      assert value[i..][0] == ch && value[i..][1..] == value[i + 1..];
      ghost var before := encoded;
      Regrouped(before, EncodeChar(ch), Encoded(value[i + 1..]));
      if IsUnreserved(ch) {
        encoded := encoded + [ch];
      } else {
        encoded := encoded + ['%'];
        encoded := encoded + [HEX[ch as int / 16]];
        encoded := encoded + [HEX[ch as int % 16]];
      }
      assert encoded == before + EncodeChar(ch);
    }
  }

  /** The value of a hexadecimal digit in upper case. */
  function HexValue(c: char): Option<nat> {
    if '0' <= c <= '9' then Some(c as int - '0' as int)
    else if 'A' <= c <= 'F' then Some(c as int - 'A' as int + 10)
    else None
  }

  /**
   * Percent-decoding: unreserved characters stand for themselves, upper-case triplets for a byte, and nothing else
   * is read.
   */
  function Decoded(s: string): Option<string>
    decreases |s|
  {
    if s == "" then Some("")
    else if s[0] == '%' then
      if 3 <= |s| && HexValue(s[1]).Some? && HexValue(s[2]).Some? then
        var byte := HexValue(s[1]).value * 16 + HexValue(s[2]).value;
        var rest := Decoded(s[3..]);
        if rest.None? then None else Some([byte as char] + rest.value)
      else None
    else if IsUnreserved(s[0]) then
      var rest := Decoded(s[1..]);
      if rest.None? then None else Some([s[0]] + rest.value)
    else None
  }

  lemma HexDigits(n: nat)
    requires n < 16
    ensures HexValue(HEX[n]) == Some(n)
  {
  }

  lemma DecodeEncodedChar(c: char, rest: string)
    requires c as int < 256
    ensures Decoded(EncodeChar(c) + rest) == if Decoded(rest).None? then None else Some([c] + Decoded(rest).value)
  {
    var s := EncodeChar(c) + rest;
    assert s[|EncodeChar(c)|..] == rest;
    if !IsUnreserved(c) {
      HexDigits(c as int / 16);
      HexDigits(c as int % 16);
      assert s[0] == '%' && s[1] == HEX[c as int / 16] && s[2] == HEX[c as int % 16];
    } else {
      assert s[0] == c;
    }
  }

  /** Decoding undoes encoding; in particular what is encoded consists of unreserved characters and triplets only. */
  lemma {:induction false} DecodeEncoded(s: string)
    requires IsByteString(s)
    ensures Decoded(Encoded(s)) == Some(s)
    decreases |s|
  {
    hide EncodeChar, Decoded;
    if s == "" {
      DecodeNothing();
    } else {
      assert s == [s[0]] + s[1..];
      DecodeEncoded(s[1..]);
      DecodeEncodedChar(s[0], Encoded(s[1..]));
    }
  }

  lemma DecodeNothing()
    ensures Decoded("") == Some("")
  {
  }

  lemma EncodingIsInjective(a: string, b: string)
    requires IsByteString(a) && IsByteString(b) && Encoded(a) == Encoded(b)
    ensures a == b
  {
    DecodeEncoded(a);
    DecodeEncoded(b);
  }

  // ----- filling the placeholder

  const DEFAULT_ENDPOINT := "https://html.duckduckgo.com/html/?q={query}"
  const PLACEHOLDER := "{query}"

  /** The pieces of a text between the placeholders, from left to right. */
  function Split(s: string): (parts: seq<string>)
    ensures parts != []
    decreases |s|
  {
    var n := Find(s, PLACEHOLDER, 0);
    if n == NPOS then [s] else [s[..n]] + Split(s[n + |PLACEHOLDER|..])
  }

  function Join(parts: seq<string>, fill: string): string
    requires parts != []
  {
    if |parts| == 1 then parts[0] else parts[0] + fill + Join(parts[1..], fill)
  }

  function Endpoint(endpoint: string): string {
    if endpoint == "" then DEFAULT_ENDPOINT else endpoint
  }

  /** The placeholders give way to the encoded query; without any, the query is appended as a parameter. */
  function SearchUrl(endpoint: string, query: string): string
    requires IsByteString(query)
  {
    var url := Endpoint(endpoint);
    if |Split(url)| == 1 then url + (if Find(url, "?", 0) == NPOS then "?q=" else "&q=") + Encoded(query)
    else Join(Split(url), Encoded(query))
  }

  lemma FindInSuffix(s: string, offset: nat)
    requires offset <= |s|
    ensures Find(s, PLACEHOLDER, offset) ==
            if Find(s[offset..], PLACEHOLDER, 0) == NPOS then NPOS else offset + Find(s[offset..], PLACEHOLDER, 0)
  {
    FindFrom(s, PLACEHOLDER, offset, offset);
  }

  /** One replacement: the text behind the cursor is split once more. */
  lemma FillStep(url: string, offset: nat, found: nat, encoded: string)
    requires offset <= |url| && found == Find(url, PLACEHOLDER, offset)
    requires offset <= found <= |url| - |PLACEHOLDER|
    ensures var next := url[..found] + encoded + url[found + |PLACEHOLDER|..];
            var cursor := found + |encoded|;
            && cursor <= |next|
            && url[..offset] + Join(Split(url[offset..]), encoded) ==
               next[..cursor] + Join(Split(next[cursor..]), encoded)
            && 2 <= |Split(url[offset..])|
            && |next| - cursor < |url| - offset
  {
    hide Find;
    FindInSuffix(url, offset);
    var rest, n := url[offset..], found - offset;
    var tail := url[found + |PLACEHOLDER|..];
    var next := url[..found] + encoded + tail;
    assert rest[n + |PLACEHOLDER|..] == tail;
    assert next[found + |encoded|..] == tail;
    assert next[..found + |encoded|] == url[..found] + encoded;
    assert Split(rest) == [rest[..n]] + Split(tail);
    assert Split(rest)[1..] == Split(tail);
    assert url[..found] == url[..offset] + rest[..n];
    Glue(url[..offset], rest[..n], encoded, Join(Split(tail), encoded));
  }

  lemma Glue(a: string, b: string, c: string, d: string)
    ensures a + (b + c + d) == (a + b + c) + d
  {
  }

  /** build_web_search_url */
  method BuildWebSearchUrl(endpoint: string, query: string) returns (url: string)
    requires IsByteString(query)
    ensures url == SearchUrl(endpoint, query)
  {
    hide Find, Encoded, Split, Join;
    var encoded := PercentEncode(query);
    url := Endpoint(endpoint);
    ghost var start := url;
    var offset := 0;
    var replaced := false;
    assert url[0..] == url && url[..0] == "";
    EmptyAround(Join(Split(url), encoded));
    while true
      invariant 0 <= offset <= |url|
      invariant url[..offset] + Join(Split(url[offset..]), encoded) == Join(Split(start), encoded)
      invariant replaced ==> 2 <= |Split(start)|
      invariant !replaced ==> url == start && offset == 0
      decreases |url| - offset
    {
      FindBounds(url, offset);
      var found := Find(url, PLACEHOLDER, offset);
      if found == NPOS {
        NothingToFill(url, offset, encoded);
        break;
      }
      FillStep(url, offset, found, encoded);
      assert offset == 0 ==> url[offset..] == url;
      url := url[..found] + encoded + url[found + |PLACEHOLDER|..];
      offset := found + |encoded|;
      replaced := true;
    }
    if !replaced {
      url := url + if Find(url, "?", 0) == NPOS then "?q=" else "&q=";
      url := url + encoded;
    }
  }

  lemma FindBounds(s: string, from: nat)
    requires from <= |s|
    ensures var r := Find(s, PLACEHOLDER, from);
            r == NPOS || from <= r <= |s| - |PLACEHOLDER|
  {
  }

  lemma NothingToFill(url: string, offset: nat, encoded: string)
    requires offset <= |url| && Find(url, PLACEHOLDER, offset) == NPOS
    ensures url[..offset] + Join(Split(url[offset..]), encoded) == url
    ensures |Split(url[offset..])| == 1
    ensures url[0..] == url
  {
    FindInSuffix(url, offset);
    assert url == url[..offset] + url[offset..];
  }

  // ----- every query has its own URL

  lemma {:induction false} JoinLength(parts: seq<string>, a: string, b: string)
    requires parts != []
    ensures |Join(parts, a)| - |Join(parts, b)| == (|parts| - 1) * (|a| - |b|)
    decreases |parts|
  {
    if |parts| > 1 {
      JoinLength(parts[1..], a, b);
    }
  }

  lemma JoinIsInjective(parts: seq<string>, a: string, b: string)
    requires 2 <= |parts| && Join(parts, a) == Join(parts, b)
    ensures a == b
  {
    JoinLength(parts, a, b);
    SameLength(|parts| - 1, |a|, |b|);
    var n := |parts[0]|;
    assert Join(parts, a)[n..n + |a|] == a && Join(parts, b)[n..n + |b|] == b;
  }

  lemma SameLength(k: nat, a: nat, b: nat)
    requires 0 < k && k * (a - b) == 0
    ensures a == b
  {
  }

  /** For a fixed endpoint, different queries have different URLs. */
  lemma SearchUrlIsInjective(endpoint: string, a: string, b: string)
    requires IsByteString(a) && IsByteString(b) && SearchUrl(endpoint, a) == SearchUrl(endpoint, b)
    ensures a == b
  {
    hide Find;
    var url := Endpoint(endpoint);
    if |Split(url)| == 1 {
      var front := url + if Find(url, "?", 0) == NPOS then "?q=" else "&q=";
      assert (front + Encoded(a))[|front|..] == Encoded(a);
      assert (front + Encoded(b))[|front|..] == Encoded(b);
    } else {
      JoinIsInjective(Split(url), Encoded(a), Encoded(b));
    }
    EncodingIsInjective(a, b);
  }

  // ----- in so many words

  /** Letters, digits, '-', '_', '.' and '~' stand for themselves; any other byte is '%' and two upper-case digits. */
  lemma EncodedByte(c: char)
    requires c as int < 256
    ensures if 'a' <= c <= 'z' || 'A' <= c <= 'Z' || '0' <= c <= '9' || c == '-' || c == '_' || c == '.' || c == '~'
            then Encoded([c]) == [c]
            else
              && |Encoded([c])| == 3 && Encoded([c])[0] == '%'
              && HexValue(Encoded([c])[1]) == Some(c as int / 16) && HexValue(Encoded([c])[2]) == Some(c as int % 16)
  {
    assert [c][1..] == "";
    HexDigits(c as int / 16);
    HexDigits(c as int % 16);
  }

  lemma HexIsUpperCase(d: char, n: nat)
    ensures HexValue(d) == Some(n) <==>
            (n < 10 && d as int == '0' as int + n) || (10 <= n < 16 && d as int == 'A' as int + (n - 10))
  {
  }

  lemma {:induction false} EncodedConcat(a: string, b: string)
    requires IsByteString(a) && IsByteString(b)
    ensures IsByteString(a + b) && Encoded(a + b) == Encoded(a) + Encoded(b)
    decreases |a|
  {
    if a == "" {
      assert a + b == b;
    } else {
      assert (a + b)[1..] == a[1..] + b;
      EncodedConcat(a[1..], b);
    }
  }

  /** The endpoint that is used if none is set. */
  lemma DefaultUrl(query: string)
    requires IsByteString(query)
    ensures SearchUrl("", query) == "https://html.duckduckgo.com/html/?q=" + Encoded(query)
  {
    hide Encoded, Find, SearchUrl;
    DefaultPlaceholder();
    var n := |DEFAULT_ENDPOINT| - 7;
    FilledOnce(DEFAULT_ENDPOINT, n, query);
    assert DEFAULT_ENDPOINT[n + 7..] == "";
    NothingInside(Encoded(query));
    EmptyAround("https://html.duckduckgo.com/html/?q=" + Encoded(query));
  }

  lemma DefaultPlaceholder()
    ensures var n := |DEFAULT_ENDPOINT| - 7;
            Find(DEFAULT_ENDPOINT, "{query}", 0) == n && DEFAULT_ENDPOINT[..n] == "https://html.duckduckgo.com/html/?q="
  {
    hide Find;
    var url, n := DEFAULT_ENDPOINT, |DEFAULT_ENDPOINT| - 7;
    assert url[n..n + 7] == "{query}" && Occurs(url, "{query}", n);
    assert url[..n] == "https://html.duckduckgo.com/html/?q=";
    forall i | 0 <= i < n ensures !Occurs(url, "{query}", i) {
      assert url[i] != '{';
      assert url[i..i + 7][0] == url[i];
    }
  }

  lemma NothingInside(fill: string)
    ensures Join(Split(""), fill) == ""
  {
  }

  lemma NoPlaceholder(s: string)
    requires Find(s, "{query}", 0) == NPOS
    ensures Split(s) == [s]
  {
  }

  /** The first placeholder gives way to the query, and so do all behind it. */
  lemma FilledOnce(url: string, n: nat, query: string)
    requires IsByteString(query) && url != "" && Find(url, "{query}", 0) == n
    ensures SearchUrl(url, query) == url[..n] + Encoded(query) + Join(Split(url[n + 7..]), Encoded(query))
    ensures url == DEFAULT_ENDPOINT ==> SearchUrl("", query) == SearchUrl(url, query)
  {
    var rest := Split(url[n + 7..]);
    assert Split(url) == [url[..n]] + rest;
    assert Split(url)[1..] == rest;
  }

  /** Without a placeholder the query becomes the first parameter, or one more if there is a '?'. */
  lemma AppendedParameter(url: string, query: string)
    requires IsByteString(query) && url != "" && Find(url, "{query}", 0) == NPOS
    ensures SearchUrl(url, query) == url + (if '?' in url then "&q=" else "?q=") + Encoded(query)
  {
    NoPlaceholder(url);
    QuestionMark(url);
  }

  lemma QuestionMark(url: string)
    ensures Find(url, "?", 0) != NPOS <==> '?' in url
  {
    var n := Find(url, "?", 0);
    if n == NPOS {
      forall i | 0 <= i < |url| ensures url[i] != '?' {
        assert !Occurs(url, "?", i);
        assert url[i..i + 1] == [url[i]];
      }
    } else {
      assert url[n..n + 1] == "?" && url[n] == url[n..n + 1][0];
    }
  }
}
