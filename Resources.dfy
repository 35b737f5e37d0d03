/** Custom-scheme resource handling in the WebView2 backend
    (src/backends/win32_edge.cpp, `RegisterUrlHandler`, the
    `WebResourceRequested` callback of `InstallResourceHandler`,
    `MakeResponse` and the `getContent` reader built by `MakeRequest`). */
module Resources {
  import opened Wrappers
  import opened Errors
  import Win32Edge

  newtype byte = x: int | 0 <= x < 256

  // ---------------------------------------------------------------------
  // The glob-to-regex rewrite of a filter.

  /** Position `i` of a filter holds a `*` or `?` not preceded by a
      backslash. */
  predicate IsWildcardAt(f: string, i: nat)
    requires i < |f|
  {
    (f[i] == '*' || f[i] == '?') && (i == 0 || f[i - 1] != '\\')
  }

  /** How many positions just before `n` are unescaped wildcards. */
  function TrailingWildcards(f: string, n: nat): (k: nat)
    requires n <= |f|
    ensures k <= n
    ensures forall i :: n - k <= i < n ==> IsWildcardAt(f, i)
    ensures k < n ==> !IsWildcardAt(f, n - k - 1)
  {
    if n == 0 then 0
    else if IsWildcardAt(f, n - 1) then TrailingWildcards(f, n - 1) + 1
    else 0
  }

  function Dots(k: nat): (r: string)
    ensures |r| == k && forall i :: 0 <= i < k ==> r[i] == '.'
  {
    seq(k, _ => '.')
  }

  /** The rewrite as written, after its first `n` characters: every literal
      character replaces the result, and every unescaped wildcard drops the
      last character and appends a dot and itself. */
  function AsWrittenPrefix(f: string, n: nat): string
    requires n <= |f|
  {
    if n == 0 then [] else Dots(TrailingWildcards(f, n)) + [f[n - 1]]
  }

  /** The regex the source builds from a filter. */
  function GlobAsWritten(f: string): (r: string)
    ensures f == [] <==> r == []
    ensures f != [] ==> r[|r| - 1] == f[|f| - 1]
    ensures f != [] ==> |r| == TrailingWildcards(f, |f|) + 1
  {
    AsWrittenPrefix(f, |f|)
  }

  /** The loop of the source. `pop_back` is only reached on a non-empty
      result: the index expression below needs `|res| > 0`. */
  method RewriteGlobAsWritten(filter: string) returns (res: string)
    ensures res == GlobAsWritten(filter)
  {
    res := [];
    var i := 0;
    while i < |filter|
      invariant 0 <= i <= |filter|
      invariant res == AsWrittenPrefix(filter, i)
      invariant i > 0 ==> |res| > 0
    {
      if (filter[i] == '*' || filter[i] == '?') && (i == 0 || filter[i - 1] != '\\') {
        if i != 0 {
          res := res[..|res| - 1];
        }
        res := res + ['.', filter[i]];
      } else {
        res := [filter[i]];
      }
      i := i + 1;
    }
  }

  /** A filter that does not end in a wildcard becomes its last character
      alone. */
  lemma LiteralEndCollapses(f: string)
    requires f != [] && !IsWildcardAt(f, |f| - 1)
    ensures GlobAsWritten(f) == [f[|f| - 1]]
  {
  }

  /** The rewrite as written turns the filter of a plain URL into a
      one-character pattern, so that filter's handler never matches its
      own URL. */
  lemma AsWrittenLosesTheFilter()
    ensures GlobAsWritten("app://index.html") == "l"
    ensures GlobAsWritten("app://index.html") != "app://index.html"
  {
    LiteralEndCollapses("app://index.html");
  }

  /** The chunk the corrected rewrite emits for position `i`. */
  function Chunk(f: string, i: nat): (r: string)
    requires i < |f|
    ensures IsWildcardAt(f, i) ==> r == ['.', f[i]]
    ensures !IsWildcardAt(f, i) ==> r == [f[i]]
  {
    if IsWildcardAt(f, i) then ['.', f[i]] else [f[i]]
  }

  function GlobPrefix(f: string, n: nat): string
    requires n <= |f|
  {
    if n == 0 then [] else GlobPrefix(f, n - 1) + Chunk(f, n - 1)
  }

  /** The evidently intended rewrite: literal characters are kept, and each
      unescaped wildcard becomes a dot followed by itself. */
  function GlobToRegex(f: string): string
  {
    GlobPrefix(f, |f|)
  }

  /** The corrected loop. */
  method RewriteGlob(filter: string) returns (res: string)
    ensures res == GlobToRegex(filter)
  {
    res := [];
    var i := 0;
    while i < |filter|
      invariant 0 <= i <= |filter|
      invariant res == GlobPrefix(filter, i)
    {
      if (filter[i] == '*' || filter[i] == '?') && (i == 0 || filter[i - 1] != '\\') {
        res := res + ['.', filter[i]];
      } else {
        res := res + [filter[i]];
      }
      i := i + 1;
    }
  }

  /** Without wildcards, the first `n` characters translate to themselves. */
  lemma {:induction false} LiteralPrefixIsKept(f: string, n: nat)
    requires n <= |f|
    requires forall i :: 0 <= i < n ==> !IsWildcardAt(f, i)
    ensures GlobPrefix(f, n) == f[..n]
  {
    if n > 0 {
      LiteralPrefixIsKept(f, n - 1);
      assert f[..n] == f[..n - 1] + [f[n - 1]];
    }
  }

  /** The corrected rewrite maps a filter without wildcards to itself. */
  lemma LiteralFilterIsItsOwnRegex(f: string)
    requires forall i :: 0 <= i < |f| ==> !IsWildcardAt(f, i)
    ensures GlobToRegex(f) == f
  {
    LiteralPrefixIsKept(f, |f|);
    assert f[..|f|] == f;
  }

  /** The corrected rewrite keeps every input character and adds one dot per
      unescaped wildcard. */
  lemma {:induction false} GlobPrefixLength(f: string, n: nat)
    requires n <= |f|
    ensures |GlobPrefix(f, n)| == n + |set i | 0 <= i < n && IsWildcardAt(f, i)|
  {
    if n > 0 {
      GlobPrefixLength(f, n - 1);
      var before := set i | 0 <= i < n - 1 && IsWildcardAt(f, i);
      var now := set i | 0 <= i < n && IsWildcardAt(f, i);
      if IsWildcardAt(f, n - 1) {
        assert now == before + {n - 1};
      } else {
        assert now == before;
      }
    }
  }

  // ---------------------------------------------------------------------
  // Decimal rendering of an HRESULT (`std::to_string`).

  function DigitChar(d: nat): (c: char)
    requires d < 10
    ensures '0' <= c <= '9'
  {
    "0123456789"[d]
  }

  function NatString(n: nat): (s: string)
    ensures |s| > 0
    ensures forall i :: 0 <= i < |s| ==> '0' <= s[i] <= '9'
    decreases n
  {
    if n < 10 then [DigitChar(n)] else NatString(n / 10) + [DigitChar(n % 10)]
  }

  function IntString(n: int): (s: string)
    ensures |s| > 0
    ensures n < 0 <==> s[0] == '-'
  {
    if n < 0 then "-" + NatString(-n) else NatString(n)
  }

  function DigitValue(c: char): nat
  {
    if '0' <= c <= '9' then (c as int - '0' as int) as nat else 0
  }

  function ParseNat(s: string): nat
  {
    if |s| == 0 then 0 else ParseNat(s[..|s| - 1]) * 10 + DigitValue(s[|s| - 1])
  }

  function ParseInt(s: string): int
  {
    if |s| > 0 && s[0] == '-' then -(ParseNat(s[1..]) as int) else ParseNat(s)
  }

  lemma {:induction false} NatStringRoundTrip(n: nat)
    ensures ParseNat(NatString(n)) == n
    decreases n
  {
    if n >= 10 {
      NatStringRoundTrip(n / 10);
      var s := NatString(n);
      assert s[..|s| - 1] == NatString(n / 10);
    }
  }

  /** The decimal text of a result determines the result. */
  lemma IntStringRoundTrip(n: int)
    ensures ParseInt(IntString(n)) == n
  {
    if n < 0 {
      NatStringRoundTrip(-n);
      assert ("-" + NatString(-n))[1..] == NatString(-n);
      assert NatString(-n)[0] != '-';
    } else {
      NatStringRoundTrip(n);
    }
  }

  // ---------------------------------------------------------------------
  // The handler table: a multimap ordered by pattern.

  datatype UrlHandler = UrlHandler(pattern: string, handler: nat)

  /** Lexicographic order of `std::wstring`. */
  predicate LexLess(a: string, b: string)
  {
    if |a| == 0 then |b| > 0
    else if |b| == 0 then false
    else if a[0] < b[0] then true
    else a[0] == b[0] && LexLess(a[1..], b[1..])
  }

  lemma {:induction false} LexLessIrreflexive(a: string)
    ensures !LexLess(a, a)
  {
    if |a| > 0 {
      LexLessIrreflexive(a[1..]);
    }
  }

  lemma {:induction false} LexLessTransitive(a: string, b: string, c: string)
    requires LexLess(a, b) && LexLess(b, c)
    ensures LexLess(a, c)
  {
    if |a| > 0 && |b| > 0 && |c| > 0 && a[0] == b[0] && b[0] == c[0] {
      LexLessTransitive(a[1..], b[1..], c[1..]);
    }
  }

  /** Ordered by pattern, equal patterns in insertion order. */
  ghost predicate SortedByPattern(hs: seq<UrlHandler>)
  {
    forall i, j :: 0 <= i < j < |hs| ==> !LexLess(hs[j].pattern, hs[i].pattern)
  }

  /** Where `emplace` inserts: after every entry whose pattern is not greater
      than the new key. */
  function UpperBound(hs: seq<UrlHandler>, key: string): (j: nat)
    ensures j <= |hs|
    ensures forall i :: 0 <= i < j ==> !LexLess(key, hs[i].pattern)
    ensures j < |hs| ==> LexLess(key, hs[j].pattern)
  {
    if |hs| == 0 || LexLess(key, hs[0].pattern) then 0
    else UpperBound(hs[1..], key) + 1
  }

  /** The table with `e` inserted at position `j`: the entries before it
      keep their index, the entries after it move up by one, and nothing is
      dropped. */
  function InsertAt(hs: seq<UrlHandler>, j: nat, e: UrlHandler): (r: seq<UrlHandler>)
    requires j <= |hs|
    ensures |r| == |hs| + 1 && r[j] == e
    ensures forall i :: 0 <= i < j ==> r[i] == hs[i]
    ensures forall i :: j <= i < |hs| ==> r[i + 1] == hs[i]
    ensures multiset(r) == multiset(hs) + multiset{e}
  {
    assert hs == hs[..j] + hs[j..];
    hs[..j] + [e] + hs[j..]
  }

  /** `emplace` into the multimap: at the upper bound of the pattern. */
  function Insert(hs: seq<UrlHandler>, e: UrlHandler): seq<UrlHandler>
  {
    InsertAt(hs, UpperBound(hs, e.pattern), e)
  }

  /** Inserting between the entries not above and the entries not below the
      new pattern keeps the table ordered. */
  lemma InsertAtKeepsOrder(hs: seq<UrlHandler>, j: nat, e: UrlHandler)
    requires j <= |hs| && SortedByPattern(hs)
    requires forall i :: 0 <= i < j ==> !LexLess(e.pattern, hs[i].pattern)
    requires forall i :: j <= i < |hs| ==> !LexLess(hs[i].pattern, e.pattern)
    ensures SortedByPattern(InsertAt(hs, j, e))
  {
    var r := InsertAt(hs, j, e);
    forall a, b | 0 <= a < b < |r|
      ensures !LexLess(r[b].pattern, r[a].pattern)
    {
      if a == j {
        assert r[b] == hs[b - 1];
      } else if b == j {
        assert r[a] == hs[a];
      } else {
        var ha := if a < j then a else a - 1;
        var hb := if b < j then b else b - 1;
        assert r[a] == hs[ha] && r[b] == hs[hb];
      }
    }
  }

  /** Inserting keeps the table ordered. */
  lemma InsertKeepsOrder(hs: seq<UrlHandler>, e: UrlHandler)
    requires SortedByPattern(hs)
    ensures SortedByPattern(Insert(hs, e))
  {
    var j := UpperBound(hs, e.pattern);
    forall i | j <= i < |hs|
      ensures !LexLess(hs[i].pattern, e.pattern)
    {
      NewEntryBeforeGreater(hs, e, i);
    }
    InsertAtKeepsOrder(hs, j, e);
  }

  /** An entry at or after the upper bound is not less than the new key. */
  lemma NewEntryBeforeGreater(hs: seq<UrlHandler>, e: UrlHandler, i: nat)
    requires SortedByPattern(hs)
    requires UpperBound(hs, e.pattern) <= i < |hs|
    ensures !LexLess(hs[i].pattern, e.pattern)
  {
    var j := UpperBound(hs, e.pattern);
    if LexLess(hs[i].pattern, e.pattern) {
      LexLessTransitive(hs[i].pattern, e.pattern, hs[j].pattern);
      if i == j {
        LexLessIrreflexive(hs[j].pattern);
      }
    }
  }

  /** Nothing is replaced: entries with the pattern of the new one, old
      ones included, stay in the table ahead of it. */
  lemma EqualPatternsStayAhead(hs: seq<UrlHandler>, e: UrlHandler)
    requires SortedByPattern(hs)
    ensures forall i :: 0 <= i < |hs| && hs[i].pattern == e.pattern ==> i < UpperBound(hs, e.pattern)
  {
    var j := UpperBound(hs, e.pattern);
    forall i | 0 <= i < |hs| && hs[i].pattern == e.pattern
      ensures i < j
    {
      if i == j {
        LexLessIrreflexive(e.pattern);
      }
    }
  }

  /** The message of the exception thrown when the filter is refused. */
  function RegisterFailureMessage(result: Win32Edge.HResult, filter: string): string
  {
    "Could not AddWebResourceRequestedFilter: " + IntString(result) + " for scheme: " + filter
  }

  /** The index of the first handler, from `start` on, whose pattern
      matches the URI. `matches` stands for `std::regex_match`. */
  function FirstMatchFrom(hs: seq<UrlHandler>, uri: string, matches: (string, string) -> bool, start: nat): (r: Option<nat>)
    requires start <= |hs|
    ensures r.Some? ==> start <= r.value < |hs| && matches(uri, hs[r.value].pattern)
    ensures r.Some? ==> forall i :: start <= i < r.value ==> !matches(uri, hs[i].pattern)
    ensures r.None? ==> forall i :: start <= i < |hs| ==> !matches(uri, hs[i].pattern)
    decreases |hs| - start
  {
    if start == |hs| then None
    else if matches(uri, hs[start].pattern) then Some(start)
    else FirstMatchFrom(hs, uri, matches, start + 1)
  }

  function FirstMatch(hs: seq<UrlHandler>, uri: string, matches: (string, string) -> bool): Option<nat>
  {
    FirstMatchFrom(hs, uri, matches, 0)
  }

  class UrlHandlers {
    /** `handlers_`, in iteration order. */
    var handlers: seq<UrlHandler>
    /** The filters passed to AddWebResourceRequestedFilter, in order. */
    var filters: seq<string>

    ghost predicate Valid()
      reads this`handlers
    {
      SortedByPattern(handlers)
    }

    constructor ()
      ensures Valid() && handlers == [] && filters == []
    {
      handlers := [];
      filters := [];
    }

    /** `RegisterUrlHandler`; `addResult` is what AddWebResourceRequestedFilter
        returns. The pattern stored is the corrected rewrite of the filter. */
    method Register(filter: string, handler: nat, addResult: Win32Edge.HResult) returns (thrown: Option<Exception>)
      requires Valid()
      modifies this`handlers, this`filters
      ensures Valid()
      ensures filters == old(filters) + [filter]
      ensures addResult != Win32Edge.S_OK ==>
        thrown == Some(NewException(Unspecified, RegisterFailureMessage(addResult, filter)))
        && handlers == old(handlers)
      ensures addResult == Win32Edge.S_OK ==>
        thrown.None? && handlers == Insert(old(handlers), UrlHandler(GlobToRegex(filter), handler))
    {
      filters := filters + [filter];
      if addResult != Win32Edge.S_OK {
        return Some(NewException(Unspecified, RegisterFailureMessage(addResult, filter)));
      }
      var reg := RewriteGlob(filter);
      InsertKeepsOrder(handlers, UrlHandler(reg, handler));
      handlers := Insert(handlers, UrlHandler(reg, handler));
      thrown := None;
    }

    /** The `WebResourceRequested` callback. `contextResult` is what
        get_ResourceContext returns, `makeResult` what MakeResponse leaves in
        `result`, and `putResult` what put_Response returns. `answered` is
        the handler that was invoked, if any. */
    method HandleRequest(contextResult: Win32Edge.HResult, uri: string, matches: (string, string) -> bool,
                         makeResult: Win32Edge.HResult, putResult: Win32Edge.HResult)
      returns (r: Win32Edge.HResult, answered: Option<nat>)
      ensures contextResult != Win32Edge.S_OK ==> r == contextResult && answered.None?
      ensures contextResult == Win32Edge.S_OK ==> answered == FirstMatch(handlers, uri, matches)
      ensures contextResult == Win32Edge.S_OK && answered.None? ==> r == Win32Edge.S_OK
      ensures answered.Some? ==> r == (if makeResult != Win32Edge.S_OK then makeResult else putResult)
    {
      if contextResult != Win32Edge.S_OK {
        return contextResult, None;
      }
      var i := 0;
      while i < |handlers|
        invariant 0 <= i <= |handlers|
        invariant FirstMatchFrom(handlers, uri, matches, i) == FirstMatch(handlers, uri, matches)
      {
        if matches(uri, handlers[i].pattern) {
          if makeResult != Win32Edge.S_OK {
            return makeResult, Some(i);
          }
          return putResult, Some(i);
        }
        i := i + 1;
      }
      r, answered := Win32Edge.S_OK, None;
    }
  }

  // ---------------------------------------------------------------------
  // Responses.

  /** `http::response_t`; the headers in the multimap's iteration order. */
  datatype ResponseData = ResponseData(body: seq<byte>, reasonPhrase: string, statusCode: int, headers: seq<(string, string)>)

  /** The arguments CreateWebResourceResponse receives. */
  datatype WebResponse = WebResponse(body: seq<byte>, statusCode: int, reasonPhrase: string, headers: string)

  function HeaderLine(h: (string, string)): string
  {
    h.0 + ": " + h.1
  }

  /** The header lines joined with CRLF, no separator after the last. */
  function HeaderBlock(hs: seq<(string, string)>): string
  {
    if |hs| == 0 then ""
    else if |hs| == 1 then HeaderLine(hs[0])
    else HeaderBlock(hs[..|hs| - 1]) + "\r\n" + HeaderLine(hs[|hs| - 1])
  }

  /** Every header line followed by CRLF, as the loop accumulates it. */
  function Terminated(hs: seq<(string, string)>): string
  {
    if |hs| == 0 then "" else Terminated(hs[..|hs| - 1]) + HeaderLine(hs[|hs| - 1]) + "\r\n"
  }

  /** Dropping the last two characters of the accumulated lines gives the
      joined block. */
  lemma {:induction false} TerminatedIsBlockAndCrlf(hs: seq<(string, string)>)
    requires |hs| > 0
    ensures Terminated(hs) == HeaderBlock(hs) + "\r\n"
  {
    if |hs| > 1 {
      TerminatedIsBlockAndCrlf(hs[..|hs| - 1]);
    } else {
      assert hs[..0] == [];
    }
  }

  /** Whether the environment lookup goes through a null `wv22`. */
  datatype EnvironmentLookup = Dereferenced | NullDereference

  /** The out-parameter of `QueryInterface`: the interface on success; on
      failure COM sets it to null. */
  function QueriedInterface(qiResult: Win32Edge.HResult): (wv22: Option<()>)
    ensures wv22.Some? <==> qiResult == Win32Edge.S_OK
  {
    if qiResult == Win32Edge.S_OK then Some(()) else None
  }

  /** `wv22->get_Environment` on whatever `QueryInterface` left in `wv22`. */
  function GetEnvironment(wv22: Option<()>): EnvironmentLookup
  {
    if wv22.None? then NullDereference else Dereferenced
  }

  const E_NOINTERFACE: Win32Edge.HResult := -2147467262

  /** The header loop and the removal of the last CRLF. */
  method BuildHeaders(headers: seq<(string, string)>) returns (block: string)
    ensures block == HeaderBlock(headers)
  {
    block := "";
    var i := 0;
    while i < |headers|
      invariant 0 <= i <= |headers|
      invariant block == Terminated(headers[..i])
    {
      assert headers[..i + 1][..i] == headers[..i];
      block := block + HeaderLine(headers[i]) + "\r\n";
      i := i + 1;
    }
    assert headers[..i] == headers;
    if block != "" {
      if |headers| == 0 {
        assert false;
      }
      TerminatedIsBlockAndCrlf(headers);
      block := block[..|block| - 2];
    }
  }

  /** `MakeResponse` in the order it is written: the environment is looked
      up through `wv22` before the QueryInterface result is checked, so every
      failed QueryInterface (E_NOINTERFACE on a runtime without
      ICoreWebView2_2 among them) goes through a null pointer. */
  method MakeResponseAsWritten(data: ResponseData, qiResult: Win32Edge.HResult, createResult: Win32Edge.HResult)
    returns (result: Win32Edge.HResult, response: Option<WebResponse>, lookup: EnvironmentLookup)
    ensures lookup == NullDereference <==> qiResult != Win32Edge.S_OK
    ensures qiResult == E_NOINTERFACE ==> lookup == NullDereference && result == E_NOINTERFACE && response.None?
    ensures qiResult != Win32Edge.S_OK ==> result == qiResult && response.None?
    ensures qiResult == Win32Edge.S_OK ==>
      result == createResult
      && response == (if createResult == Win32Edge.S_OK
                      then Some(WebResponse(data.body, data.statusCode, data.reasonPhrase, HeaderBlock(data.headers)))
                      else None)
  {
    result := qiResult;
    var wv22 := QueriedInterface(result);
    lookup := GetEnvironment(wv22);
    if result != Win32Edge.S_OK {
      return result, None, lookup;
    }
    var block := BuildHeaders(data.headers);
    result := createResult;
    response := if createResult == Win32Edge.S_OK
                then Some(WebResponse(data.body, data.statusCode, data.reasonPhrase, block))
                else None;
  }

  /** `MakeResponse`, with the QueryInterface result checked before the
      environment is looked up, so the lookup never goes through null;
      `createResult` is what CreateWebResourceResponse returns. */
  method MakeResponse(data: ResponseData, qiResult: Win32Edge.HResult, createResult: Win32Edge.HResult)
    returns (result: Win32Edge.HResult, response: Option<WebResponse>, lookup: Option<EnvironmentLookup>)
    ensures qiResult != Win32Edge.S_OK ==> result == qiResult && response.None? && lookup.None?
    ensures qiResult == Win32Edge.S_OK ==> result == createResult && lookup == Some(Dereferenced)
    ensures qiResult == Win32Edge.S_OK ==>
      response == (if createResult == Win32Edge.S_OK
                   then Some(WebResponse(data.body, data.statusCode, data.reasonPhrase, HeaderBlock(data.headers)))
                   else None)
  {
    result := qiResult;
    var wv22 := QueriedInterface(result);
    if result != Win32Edge.S_OK {
      return result, None, None;
    }
    lookup := Some(GetEnvironment(wv22));
    var block := BuildHeaders(data.headers);
    result := createResult;
    response := if createResult == Win32Edge.S_OK
                then Some(WebResponse(data.body, data.statusCode, data.reasonPhrase, block))
                else None;
  }

  // ---------------------------------------------------------------------
  // Request bodies.

  const ChunkSize: nat := 1024

  /** Every chunk fits the 1024-byte buffer `Read` is given. */
  predicate ChunksFit(cs: seq<seq<byte>>)
  {
    forall i :: 0 <= i < |cs| ==> |cs[i]| <= ChunkSize
  }

  /** The bytes the do/while loop appends when successive `Read` calls
      deliver the chunks `cs` (and nothing once `cs` is exhausted): every
      chunk up to and including the first one shorter than the buffer. */
  function DrainBytes(cs: seq<seq<byte>>): seq<byte>
  {
    if cs == [] then [] else if |cs[0]| != ChunkSize then cs[0] else cs[0] + DrainBytes(cs[1..])
  }

  /** How many `Read` calls the loop makes on `cs`. */
  function DrainCalls(cs: seq<seq<byte>>): (n: nat)
    ensures n >= 1
  {
    if cs == [] || |cs[0]| != ChunkSize then 1 else 1 + DrainCalls(cs[1..])
  }

  /** How many chunks of `cs` the loop consumes. */
  function Consumed(cs: seq<seq<byte>>): (n: nat)
    ensures n <= |cs|
  {
    if cs == [] then 0 else if |cs[0]| != ChunkSize then 1 else 1 + Consumed(cs[1..])
  }

  /** All the chunks concatenated: the whole content. */
  function Flatten(cs: seq<seq<byte>>): seq<byte>
  {
    if cs == [] then [] else cs[0] + Flatten(cs[1..])
  }

  /** The loop keeps exactly the chunks it consumed, and it stops at the
      first short chunk, so every chunk before that one is full. */
  lemma {:induction false} DrainKeepsConsumedChunks(cs: seq<seq<byte>>)
    ensures DrainBytes(cs) == Flatten(cs[..Consumed(cs)])
    ensures forall i :: 0 <= i < Consumed(cs) - 1 ==> |cs[i]| == ChunkSize
    ensures 0 < Consumed(cs) < |cs| ==> |cs[Consumed(cs) - 1]| != ChunkSize
  {
    if cs != [] {
      if |cs[0]| != ChunkSize {
        assert cs[..1] == [cs[0]];
        assert Flatten(cs[..1]) == cs[0] + Flatten([]);
      } else {
        DrainKeepsConsumedChunks(cs[1..]);
        var k := Consumed(cs);
        assert cs[..k] == [cs[0]] + cs[1..][..k - 1];
        assert cs[..k][1..] == cs[1..][..k - 1];
        forall i | 0 <= i < k - 1
          ensures |cs[i]| == ChunkSize
        {
          if i > 0 {
            assert cs[i] == cs[1..][i - 1];
          }
        }
        if k < |cs| {
          assert cs[k - 1] == cs[1..][k - 2];
        }
      }
    }
  }

  /** A short chunk in front of more content ends the body there: the rest
      is never read. */
  lemma ShortReadTruncates(c: seq<byte>, rest: seq<seq<byte>>)
    requires |c| < ChunkSize && Flatten(rest) != []
    ensures DrainBytes([c] + rest) == c
    ensures DrainBytes([c] + rest) != Flatten([c] + rest)
  {
    assert ([c] + rest)[1..] == rest;
    assert |Flatten([c] + rest)| == |c| + |Flatten(rest)|;
  }

  /** The chunks an ordinary stream over `data` delivers: full buffers, then
      the remainder (if any). */
  function StreamChunks(data: seq<byte>): (cs: seq<seq<byte>>)
    ensures ChunksFit(cs)
    decreases |data|
  {
    if |data| < ChunkSize then (if data == [] then [] else [data])
    else [data[..ChunkSize]] + StreamChunks(data[ChunkSize..])
  }

  /** From an ordinary stream the loop reads the whole content, with one
      `Read` per full buffer and one more for the short (or empty) end. */
  lemma {:induction false} StreamIsReadWhole(data: seq<byte>)
    ensures DrainBytes(StreamChunks(data)) == data
    ensures DrainCalls(StreamChunks(data)) == |data| / ChunkSize + 1
    ensures Consumed(StreamChunks(data)) == |StreamChunks(data)|
    decreases |data|
  {
    if |data| >= ChunkSize {
      var cs := StreamChunks(data);
      StreamIsReadWhole(data[ChunkSize..]);
      assert cs[1..] == StreamChunks(data[ChunkSize..]);
      assert data == data[..ChunkSize] + data[ChunkSize..];
      assert |data| / ChunkSize == |data[ChunkSize..]| / ChunkSize + 1;
    }
  }

  class ContentReader {
    /** Whether the request has a content stream (`get_Content` is not
        null). */
    const hasStream: bool
    /** The chunks the stream's next `Read` calls deliver; once they are
        exhausted, `Read` delivers nothing. */
    var pending: seq<seq<byte>>
    /** `content_memo`. */
    var memo: seq<byte>
    /** The number of IStream::Read calls made. */
    var readCalls: nat

    constructor (hasStream: bool, chunks: seq<seq<byte>>)
      requires ChunksFit(chunks)
      ensures this.hasStream == hasStream && pending == chunks && memo == [] && readCalls == 0
    {
      this.hasStream := hasStream;
      pending := chunks;
      memo := [];
      readCalls := 0;
    }

    /** `getContent`: a non-empty memo is returned without reading; a null
        stream returns the (empty) memo; otherwise chunks are read and
        appended until one is shorter than 1024 bytes. The HRESULT of `Read`
        is ignored, as in the source: a failed or short read simply ends
        the body. */
    method GetContent() returns (r: seq<byte>)
      requires ChunksFit(pending)
      modifies this`memo, this`readCalls, this`pending
      ensures ChunksFit(pending)
      ensures old(memo) != [] ==>
        r == old(memo) && memo == old(memo) && readCalls == old(readCalls) && pending == old(pending)
      ensures old(memo) == [] && !hasStream ==>
        r == [] && memo == [] && readCalls == old(readCalls) && pending == old(pending)
      ensures old(memo) == [] && hasStream ==>
        r == DrainBytes(old(pending)) && memo == r
        && readCalls == old(readCalls) + DrainCalls(old(pending))
        && pending == old(pending)[Consumed(old(pending))..]
    {
      if memo != [] {
        return memo;
      }
      if !hasStream {
        return memo;
      }
      ghost var all := pending;
      ghost var k: nat := 0;
      var more := true;
      while more
        invariant ChunksFit(pending)
        invariant more ==>
          k <= |all| && pending == all[k..]
          && memo + DrainBytes(pending) == DrainBytes(all)
          && readCalls + DrainCalls(pending) == old(readCalls) + DrainCalls(all)
          && k + Consumed(pending) == Consumed(all)
        invariant !more ==>
          memo == DrainBytes(all) && readCalls == old(readCalls) + DrainCalls(all)
          && pending == all[Consumed(all)..]
        decreases |pending| + (if more then 1 else 0)
      {
        var chunk: seq<byte> := [];
        if pending != [] {
          chunk := pending[0];
          assert all[k + 1..] == pending[1..];
          pending := pending[1..];
          k := k + 1;
        }
        memo := memo + chunk;
        readCalls := readCalls + 1;
        more := |chunk| == ChunkSize;
      }
      r := memo;
    }
  }
}
