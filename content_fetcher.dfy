/** The fetching helpers of services/content_fetcher.py: scraping an article
    for its text and top image, and downloading an image under a byte cap.
    The network (`requests.get`, newspaper's `Article`) is a collaborator
    passed in as a function. */
module ContentFetcher {
  import opened Wrappers
  import opened PyText

  newtype byte = x: int | 0 <= x < 256

  /** The default cap, below Discord's attachment limit of about 8 MiB. */
  const DefaultImageMaxBytes: int := 7_000_000

  // ---------------------------------------------------------------------------
  // Python's `int()` on a header value
  // ---------------------------------------------------------------------------

  predicate IsDigit(c: char)
  {
    '0' <= c <= '9'
  }

  function DigitValue(c: char): nat
    requires IsDigit(c)
  {
    c as int - '0' as int
  }

  predicate DigitsOrUnderscores(s: string)
  {
    forall i :: 0 <= i < |s| ==> IsDigit(s[i]) || s[i] == '_'
  }

  /** The digit run `int()` accepts: ASCII digits, with single underscores
      allowed only between two digits. */
  predicate IsDigitString(s: string)
  {
    && |s| > 0 && IsDigit(s[0]) && IsDigit(s[|s| - 1])
    && DigitsOrUnderscores(s)
    && (forall i :: 0 <= i < |s| - 1 && s[i] == '_' ==> s[i + 1] != '_')
  }

  /** The value of a digit run, underscores ignored. */
  function DigitsValue(s: string): nat
    requires DigitsOrUnderscores(s)
  {
    if s == [] then 0
    else if s[|s| - 1] == '_' then DigitsValue(s[..|s| - 1])
    else 10 * DigitsValue(s[..|s| - 1]) + DigitValue(s[|s| - 1])
  }

  /** The whitespace `int()` skips around its digits: ASCII space, tab, line
      feed, vertical tab, form feed and carriage return, and every non-ASCII
      character `str.isspace` accepts. The ASCII information separators
      U+001C..U+001F count as whitespace for `str.isspace` but not here. */
  predicate IsIntSpace(c: char)
    ensures IsIntSpace(c) ==> IsSpace(c)
    ensures IsAscii(c) ==> (IsIntSpace(c) <==> c == ' ' || '\t' <= c <= '\r')
  {
    IsSpace(c) && !('\U{1C}' <= c <= '\U{1F}')
  }

  function TrimIntSpaceStart(s: string): string
  {
    if s != [] && IsIntSpace(s[0]) then TrimIntSpaceStart(s[1..]) else s
  }

  function TrimIntSpaceEnd(s: string): string
  {
    if s != [] && IsIntSpace(s[|s| - 1]) then TrimIntSpaceEnd(s[..|s| - 1]) else s
  }

  /** The text `int()` parses once the skipped whitespace is cut off. */
  function TrimIntSpace(s: string): string
  {
    TrimIntSpaceEnd(TrimIntSpaceStart(s))
  }

  /** A digit run, optionally preceded by one sign. */
  predicate IsSignedDigitString(t: string)
  {
    || IsDigitString(t)
    || (t != [] && (t[0] == '+' || t[0] == '-') && IsDigitString(t[1..]))
  }

  /** The most digits `int()` converts from a decimal string: CPython's
      default `sys.int_info.default_max_str_digits`. Leading zeros count;
      signs and underscores do not. */
  const MaxIntDigits: nat := 4300

  /** The number of ASCII digits in `s`. */
  function DigitCount(s: string): nat
  {
    if s == [] then 0 else (if IsDigit(s[0]) then 1 else 0) + DigitCount(s[1..])
  }

  /** Python's `int(s)` for a string: whitespace around the number is skipped
      (see `IsIntSpace`), then an optional sign and a digit run of at most
      `MaxIntDigits` digits; anything else raises (None here). */
  function ParseInt(s: string): (r: Option<int>)
    ensures r.Some? <==> IsSignedDigitString(TrimIntSpace(s)) && DigitCount(TrimIntSpace(s)) <= MaxIntDigits
  {
    var t := TrimIntSpace(s);
    if t != [] && (t[0] == '+' || t[0] == '-') then
      if IsDigitString(t[1..]) && DigitCount(t[1..]) <= MaxIntDigits then
        var n: int := DigitsValue(t[1..]);
        Some(if t[0] == '-' then -n else n)
      else None
    else if IsDigitString(t) && DigitCount(t) <= MaxIntDigits then Some(DigitsValue(t))
    else None
  }

  /** A string of digits only has as many digits as characters. */
  lemma {:induction false} AllDigitsCount(s: string)
    requires forall i :: 0 <= i < |s| ==> IsDigit(s[i])
    ensures DigitCount(s) == |s|
  {
    if s != [] {
      AllDigitsCount(s[1..]);
    }
  }

  lemma {:induction false} TrimIntSpaceStartSkips(a: string, x: string)
    requires forall i :: 0 <= i < |a| ==> IsIntSpace(a[i])
    requires x != [] && !IsIntSpace(x[0])
    ensures TrimIntSpaceStart(a + x) == x
  {
    if a == [] {
      assert a + x == x;
    } else {
      assert (a + x)[1..] == a[1..] + x;
      TrimIntSpaceStartSkips(a[1..], x);
    }
  }

  lemma {:induction false} TrimIntSpaceEndSkips(x: string, b: string)
    requires forall i :: 0 <= i < |b| ==> IsIntSpace(b[i])
    requires x != [] && !IsIntSpace(x[|x| - 1])
    ensures TrimIntSpaceEnd(x + b) == x
  {
    if b == [] {
      assert x + b == x;
    } else {
      assert (x + b)[..|x + b| - 1] == x + b[..|b| - 1];
      TrimIntSpaceEndSkips(x, b[..|b| - 1]);
    }
  }

  /** The whitespace `int()` skips may surround the number on both sides. */
  lemma TrimIntSpaceSurrounded(a: string, x: string, b: string)
    requires forall i :: 0 <= i < |a| ==> IsIntSpace(a[i])
    requires forall i :: 0 <= i < |b| ==> IsIntSpace(b[i])
    requires x != [] && !IsIntSpace(x[0]) && !IsIntSpace(x[|x| - 1])
    ensures TrimIntSpace(a + x + b) == x
  {
    assert a + x + b == a + (x + b);
    TrimIntSpaceStartSkips(a, x + b);
    TrimIntSpaceEndSkips(x, b);
  }

  /** The decimal form of a natural number, as a server writes Content-Length. */
  function DecimalString(n: nat): string
  {
    if n < 10 then [('0' as int + n) as char]
    else DecimalString(n / 10) + [('0' as int + n % 10) as char]
  }

  lemma {:induction false} DecimalStringIsDigits(n: nat)
    ensures IsDigitString(DecimalString(n)) && DigitsValue(DecimalString(n)) == n
    ensures forall i :: 0 <= i < |DecimalString(n)| ==> IsDigit(DecimalString(n)[i])
  {
    var s := DecimalString(n);
    if n >= 10 {
      var init := DecimalString(n / 10);
      DecimalStringIsDigits(n / 10);
      assert s[..|s| - 1] == init;
      assert s[0] == init[0];
    }
  }

  /** `int()` reads a digit run within the digit limit, whatever skipped
      whitespace surrounds it, and raises on a longer one. */
  lemma ParseIntReadsDigits(a: string, d: string, b: string)
    requires forall i :: 0 <= i < |a| ==> IsIntSpace(a[i])
    requires forall i :: 0 <= i < |b| ==> IsIntSpace(b[i])
    requires IsDigitString(d)
    ensures ParseInt(a + d + b) == if DigitCount(d) <= MaxIntDigits then Some(DigitsValue(d)) else None
  {
    TrimIntSpaceSurrounded(a, d, b);
  }

  /** `int()` reads a signed digit run within the digit limit, whatever
      skipped whitespace surrounds it, and raises on a longer one. */
  lemma ParseIntReadsSignedDigits(a: string, sign: char, d: string, b: string)
    requires forall i :: 0 <= i < |a| ==> IsIntSpace(a[i])
    requires forall i :: 0 <= i < |b| ==> IsIntSpace(b[i])
    requires (sign == '+' || sign == '-') && IsDigitString(d)
    ensures ParseInt(a + [sign] + d + b) ==
              if DigitCount(d) > MaxIntDigits then None
              else Some(if sign == '-' then -(DigitsValue(d) as int) else DigitsValue(d))
  {
    var x := [sign] + d;
    assert a + [sign] + d + b == a + x + b;
    TrimIntSpaceSurrounded(a, x, b);
    assert x[1..] == d;
  }

  /** `int()` reads back the decimal form of every number of at most
      `MaxIntDigits` digits, unsigned or with a sign, and whatever skipped
      whitespace surrounds it; a longer decimal form makes it raise. */
  lemma ParseIntReadsDecimal(n: nat, a: string, b: string)
    requires forall i :: 0 <= i < |a| ==> IsIntSpace(a[i])
    requires forall i :: 0 <= i < |b| ==> IsIntSpace(b[i])
    ensures |DecimalString(n)| <= MaxIntDigits ==>
              && ParseInt(a + DecimalString(n) + b) == Some(n)
              && ParseInt(a + "+" + DecimalString(n) + b) == Some(n)
              && ParseInt(a + "-" + DecimalString(n) + b) == Some(-(n as int))
    ensures |DecimalString(n)| > MaxIntDigits ==>
              && ParseInt(a + DecimalString(n) + b) == None
              && ParseInt(a + "+" + DecimalString(n) + b) == None
              && ParseInt(a + "-" + DecimalString(n) + b) == None
  {
    var d := DecimalString(n);
    DecimalStringIsDigits(n);
    AllDigitsCount(d);
    ParseIntReadsDigits(a, d, b);
    ParseIntReadsSignedDigits(a, '+', d, b);
    ParseIntReadsSignedDigits(a, '-', d, b);
  }

  /** Leading zeros count towards the digit limit: a "5" behind 4300 or more
      zeros makes `int()` raise, although its value is small. */
  lemma ZeroPaddedNumberIsRejected(zeros: string, five: string)
    requires |zeros| >= MaxIntDigits && forall i :: 0 <= i < |zeros| ==> zeros[i] == '0'
    requires five == "5"
    ensures ParseInt(zeros + five) == None
  {
    var d := zeros + five;
    assert forall i :: 0 <= i < |d| ==> IsDigit(d[i]);
    AllDigitsCount(d);
    ParseIntReadsDigits("", d, "");
    assert "" + d + "" == d;
  }

  /** An information separator after the digits is not skipped, so `int()`
      rejects the header, while a tab or a no-break space is skipped. */
  lemma SeparatorPaddedNumberIsRejected(padded: string, tabbed: string, spaced: string)
    requires padded == "5\U{1F}" && tabbed == "5\t" && spaced == "\U{A0}5"
    ensures ParseInt(padded) == None
    ensures ParseInt(tabbed) == Some(5) && ParseInt(spaced) == Some(5)
  {
    assert TrimIntSpace(padded) == padded;
    assert !IsDigitString(padded);
    TrimIntSpaceSurrounded("", "5", "\t");
    assert "" + "5" + "\t" == tabbed;
    TrimIntSpaceSurrounded("\U{A0}", "5", "");
    assert "\U{A0}" + "5" + "" == spaced;
  }

  // ---------------------------------------------------------------------------
  // `download_image`
  // ---------------------------------------------------------------------------

  /** A streamed HTTP response: the status, the Content-Length header if any,
      the chunks the body stream yields, and whether the stream raises after
      them (a connection dropped half-way is a shorter body that raises). */
  datatype HttpResponse = HttpResponse(status: int, contentLength: Option<string>,
                                       chunks: seq<seq<byte>>, streamFails: bool)

  /** `raise_for_status()` raises on client and server errors: exactly the
      4xx and 5xx status classes. */
  predicate RaisesForStatus(status: int)
    ensures RaisesForStatus(status) <==> status / 100 == 4 || status / 100 == 5
  {
    400 <= status < 600
  }

  /** The body: all chunks, in order. */
  function Concat(chunks: seq<seq<byte>>): seq<byte>
  {
    if chunks == [] then [] else Concat(chunks[..|chunks| - 1]) + chunks[|chunks| - 1]
  }

  /** The Content-Length test: an absent or empty header lets the download go
      on; otherwise `int()` must accept it (or the call fails) and the
      declared size must not exceed the cap. */
  predicate DeclaredSizeAllows(header: Option<string>, maxBytes: int)
    ensures header.None? || header.value == "" ==> DeclaredSizeAllows(header, maxBytes)
    ensures DeclaredSizeAllows(header, maxBytes) && header.Some? && header.value != "" ==>
              IsSignedDigitString(TrimIntSpace(header.value)) && DigitCount(TrimIntSpace(header.value)) <= MaxIntDigits
  {
    || header.None? || header.value == ""
    || (ParseInt(header.value).Some? && ParseInt(header.value).value <= maxBytes)
  }

  /** A Content-Length written as a server writes it lets the download go on
      exactly when it has at most `MaxIntDigits` digits and does not exceed the
      cap. */
  lemma DeclaredDecimalSize(n: nat, maxBytes: int)
    ensures DeclaredSizeAllows(Some(DecimalString(n)), maxBytes) <==>
              |DecimalString(n)| <= MaxIntDigits && n <= maxBytes
  {
    ParseIntReadsDecimal(n, "", "");
    assert "" + DecimalString(n) + "" == DecimalString(n);
  }

  /** Nothing written yet, or no more than the cap. */
  predicate WithinCap(buffer: seq<byte>, maxBytes: int)
  {
    buffer == [] || |buffer| <= maxBytes
  }

  /** When `download_image` returns bytes: the status is not an error, the
      declared size (if any) passes, the stream does not fail, and the body is
      non-empty and at most the cap (the cap itself is allowed). */
  predicate Accepted(resp: HttpResponse, maxBytes: int)
    ensures Accepted(resp, maxBytes) ==> maxBytes > 0 && resp.chunks != []
  {
    && !RaisesForStatus(resp.status)
    && DeclaredSizeAllows(resp.contentLength, maxBytes)
    && !resp.streamFails
    && 0 < |Concat(resp.chunks)| <= maxBytes
  }

  lemma ConcatStep(chunks: seq<seq<byte>>, i: nat)
    requires i < |chunks|
    ensures Concat(chunks[..i + 1]) == Concat(chunks[..i]) + chunks[i]
  {
    assert chunks[..i + 1][..i] == chunks[..i];
  }

  /** The body read so far never outgrows the whole body. */
  lemma {:induction false} ConcatPrefixLength(chunks: seq<seq<byte>>, i: nat)
    requires i <= |chunks|
    ensures |Concat(chunks[..i])| <= |Concat(chunks)|
    decreases |chunks|
  {
    if i < |chunks| {
      var init := chunks[..|chunks| - 1];
      assert init[..i] == chunks[..i];
      ConcatPrefixLength(init, i);
    } else {
      assert chunks[..i] == chunks;
    }
  }

  /** `download_image`: `get` stands for `requests.get(url, timeout=10,
      stream=True)`, which may raise. `chunksRead` counts the chunks taken
      from the stream. */
  method DownloadImage(url: string, maxBytes: int, get: string -> CallResult<HttpResponse>)
    returns (image: Option<seq<byte>>, chunksRead: nat)
    ensures image.Some? <==> get(url).Ok? && Accepted(get(url).value, maxBytes)
    ensures image.Some? ==> image.value == Concat(get(url).value.chunks)
    ensures get(url).Err? ==> chunksRead == 0
    ensures get(url).Ok? ==>
              var resp := get(url).value;
              && chunksRead <= |resp.chunks|
              && (RaisesForStatus(resp.status) || !DeclaredSizeAllows(resp.contentLength, maxBytes) ==>
                    chunksRead == 0)
              && (!RaisesForStatus(resp.status) && DeclaredSizeAllows(resp.contentLength, maxBytes) ==>
                    && (forall m :: 0 <= m < chunksRead ==> WithinCap(Concat(resp.chunks[..m]), maxBytes))
                    && (chunksRead < |resp.chunks| ==> |Concat(resp.chunks[..chunksRead])| > maxBytes))
  {
    var response := get(url);
    if response.Err? {
      return None, 0;
    }
    var resp := response.value;
    if RaisesForStatus(resp.status) {
      return None, 0;
    }
    if resp.contentLength.Some? && resp.contentLength.value != "" {
      var declared := ParseInt(resp.contentLength.value);
      if declared.None? || declared.value > maxBytes {
        return None, 0;
      }
    }
    var buffer: seq<byte> := [];
    chunksRead := 0;
    while chunksRead < |resp.chunks|
      invariant chunksRead <= |resp.chunks|
      invariant buffer == Concat(resp.chunks[..chunksRead])
      invariant forall m :: 0 <= m <= chunksRead ==> WithinCap(Concat(resp.chunks[..m]), maxBytes)
    {
      var chunk := resp.chunks[chunksRead];
      ConcatStep(resp.chunks, chunksRead);
      chunksRead := chunksRead + 1;
      if chunk == [] {
        assert Concat(resp.chunks[..chunksRead]) == buffer;
        continue;
      }
      buffer := buffer + chunk;
      if |buffer| > maxBytes {
        ConcatPrefixLength(resp.chunks, chunksRead);
        return None, chunksRead;
      }
    }
    assert resp.chunks[..chunksRead] == resp.chunks;
    if resp.streamFails || |buffer| == 0 {
      return None, chunksRead;
    }
    return Some(buffer), chunksRead;
  }

  /** `download_image` called without `max_bytes`: the 7 000 000-byte default
      cap applies. */
  method DownloadImageDefault(url: string, get: string -> CallResult<HttpResponse>)
    returns (image: Option<seq<byte>>, chunksRead: nat)
    ensures image.Some? <==> get(url).Ok? && Accepted(get(url).value, DefaultImageMaxBytes)
    ensures image.Some? ==> image.value == Concat(get(url).value.chunks) && |image.value| <= 7_000_000
  {
    image, chunksRead := DownloadImage(url, DefaultImageMaxBytes, get);
  }

  /** A Content-Length padded with an information separator makes `int()`
      raise, so nothing is downloaded even when the body fits the cap. */
  lemma SeparatorPaddedHeaderIsRejected(resp: HttpResponse, header: string)
    requires header == "5\U{1F}" && resp.contentLength == Some(header)
    ensures !DeclaredSizeAllows(resp.contentLength, 10)
    ensures !Accepted(resp, 10)
  {
    SeparatorPaddedNumberIsRejected(header, "5\t", "\U{A0}5");
  }

  /** A Content-Length of more than `MaxIntDigits` digits makes `int()` raise,
      so nothing is downloaded, even when its value is below the cap. */
  lemma ZeroPaddedHeaderIsRejected(resp: HttpResponse, zeros: string, maxBytes: int)
    requires |zeros| >= MaxIntDigits && forall i :: 0 <= i < |zeros| ==> zeros[i] == '0'
    requires resp.contentLength == Some(zeros + "5")
    ensures !DeclaredSizeAllows(resp.contentLength, maxBytes)
    ensures !Accepted(resp, maxBytes)
  {
    ZeroPaddedNumberIsRejected(zeros, "5");
  }

  /** The chunks that are not empty, in order. */
  function NonEmpty(chunks: seq<seq<byte>>): (r: seq<seq<byte>>)
    ensures forall k :: 0 <= k < |r| ==> r[k] != []
  {
    if chunks == [] then []
    else if chunks[|chunks| - 1] == [] then NonEmpty(chunks[..|chunks| - 1])
    else NonEmpty(chunks[..|chunks| - 1]) + [chunks[|chunks| - 1]]
  }

  lemma {:induction false} ConcatSkipsEmptyChunks(chunks: seq<seq<byte>>)
    ensures Concat(NonEmpty(chunks)) == Concat(chunks)
  {
    if chunks != [] {
      var init := chunks[..|chunks| - 1];
      ConcatSkipsEmptyChunks(init);
      if chunks[|chunks| - 1] != [] {
        var ne := NonEmpty(init) + [chunks[|chunks| - 1]];
        assert ne[..|ne| - 1] == NonEmpty(init);
      }
    }
  }

  /** Empty chunks are skipped: dropping them from the stream does not change
      whether, or which, image is returned. */
  lemma EmptyChunksDoNotMatter(resp: HttpResponse, maxBytes: int)
    ensures Accepted(resp, maxBytes) == Accepted(resp.(chunks := NonEmpty(resp.chunks)), maxBytes)
    ensures Concat(resp.chunks) == Concat(NonEmpty(resp.chunks))
  {
    ConcatSkipsEmptyChunks(resp.chunks);
  }

  // ---------------------------------------------------------------------------
  // `fetch_article_with_image` and `fetch_article_text`
  // ---------------------------------------------------------------------------

  /** What newspaper's `Article` holds after download and parse: its text and
      its `top_image` (None where the attribute is missing). */
  datatype ParsedArticle = ParsedArticle(text: string, topImage: Option<string>)

  /** The pair `(text, top_image)`, each None when empty or missing. */
  datatype ArticleContent = ArticleContent(text: Option<string>, topImage: Option<string>)

  /** `fetch_article_with_image`: `scrape` stands for building, downloading
      and parsing the `Article`, any step of which may raise. */
  function FetchArticleWithImage(url: string, scrape: string -> CallResult<ParsedArticle>): (r: ArticleContent)
    ensures scrape(url).Err? ==> r == ArticleContent(None, None)
    ensures r.text.Some? <==> scrape(url).Ok? && scrape(url).value.text != ""
    ensures r.text.Some? ==> r.text.value == scrape(url).value.text
    ensures r.topImage.Some? <==> scrape(url).Ok? && scrape(url).value.topImage.Some?
                                  && scrape(url).value.topImage.value != ""
    ensures r.topImage.Some? ==> r.topImage == scrape(url).value.topImage
  {
    match scrape(url)
    case Err(_) => ArticleContent(None, None)
    case Ok(article) =>
      var text := if article.text == "" then None else Some(article.text);
      var topImage := if article.topImage.Some? && article.topImage.value != "" then article.topImage else None;
      ArticleContent(text, topImage)
  }

  /** `fetch_article_text`: the text half of the pair. */
  function FetchArticleText(url: string, scrape: string -> CallResult<ParsedArticle>): (r: Option<string>)
    ensures r.Some? <==> scrape(url).Ok? && scrape(url).value.text != ""
    ensures r.Some? ==> r.value == scrape(url).value.text
  {
    FetchArticleWithImage(url, scrape).text
  }
}
