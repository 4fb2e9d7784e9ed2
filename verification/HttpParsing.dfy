/** `HttpContext::parseRequest` as a function of the state and the unread bytes, and what it does
    to input that arrives in pieces. */
module HttpParsing {
  import opened Basics
  import opened HttpSyntax

  datatype ParseState = ExpectRequestLine | ExpectHeaders | ExpectBody | GotAll

  datatype Context = Context(state: ParseState, request: Request)

  const NewContext := Context(ExpectRequestLine, EmptyRequest)

  /** What one call leaves: the context, the bytes not consumed, and the result. */
  datatype Outcome = Outcome(context: Context, rest: string, ok: bool)

  /** States in which the loop makes progress; `HttpServer` resets a finished context. */
  predicate Parsing(state: ParseState) {
    state == ExpectRequestLine || state == ExpectHeaders
  }

  function Parse(context: Context, input: string): (o: Outcome)
    requires Parsing(context.state)
    ensures Parsing(o.context.state) || o.context.state == GotAll
    ensures |o.rest| <= |input|
    decreases |input|
  {
    var crlf := FindCRLF(input);
    if crlf == None then Outcome(context, input, true)
    else
      var line, rest := input[..crlf.value], input[crlf.value + 2..];
      if context.state == ExpectRequestLine then
        var r := ProcessRequestLine(context.request, line);
        if r.ok then Parse(Context(ExpectHeaders, r.request), rest)
        else Outcome(context.(request := r.request), input, false)
      else
        var colon := Find(line, ':');
        if colon != |line| then Parse(context.(request := AddHeader(context.request, line, colon)), rest)
        else Outcome(context.(state := GotAll), rest, true)
  }

  predicate Finished(o: Outcome) {
    !o.ok || o.context.state == GotAll
  }

  function Extended(o: Outcome, more: string): Outcome {
    o.(rest := o.rest + more)
  }

  /** Feeding `a` and then `b` is feeding `a + b`, up to the first completion or error; past it the
      extra bytes stay unread. */
  lemma {:induction false} ChunkIndependence(context: Context, a: string, b: string)
    requires Parsing(context.state)
    ensures var o := Parse(context, a);
      Parse(context, a + b) == if Finished(o) then Extended(o, b) else Parse(o.context, o.rest + b)
    decreases |a|
  {
    var crlf := FindCRLF(a);
    if crlf.Some? {
      CrlfInPrefix(a, b);
      var i := crlf.value;
      assert (a + b)[..i] == a[..i] && (a + b)[i + 2..] == a[i + 2..] + b;
      var line, rest := a[..i], a[i + 2..];
      if context.state == ExpectRequestLine {
        var r := ProcessRequestLine(context.request, line);
        if r.ok {
          ChunkIndependence(Context(ExpectHeaders, r.request), rest, b);
        }
      } else {
        var colon := Find(line, ':');
        if colon != |line| {
          ChunkIndependence(context.(request := AddHeader(context.request, line, colon)), rest, b);
        }
      }
    }
  }

  function Flatten(chunks: seq<string>): string {
    if chunks == [] then "" else chunks[0] + Flatten(chunks[1..])
  }

  /** `onMessage` again and again: each chunk is appended to what is unread and parsed. */
  function Feed(context: Context, unread: string, chunks: seq<string>): Outcome
    requires Parsing(context.state)
    decreases |chunks|
  {
    if chunks == [] then Outcome(context, unread, true)
    else
      var o := Parse(context, unread + chunks[0]);
      if Finished(o) then Extended(o, Flatten(chunks[1..])) else Feed(o.context, o.rest, chunks[1..])
  }

  /** Nothing is left to do on what one call left unread. */
  lemma {:induction false} ParseIsDone(context: Context, input: string)
    requires Parsing(context.state)
    ensures var o := Parse(context, input); !Finished(o) ==> Parse(o.context, o.rest) == o
    decreases |input|
  {
    ChunkIndependence(context, input, "");
    assert input + "" == input;
    var o := Parse(context, input);
    assert o.rest + "" == o.rest;
  }

  /** However a request is cut into chunks, the outcome is that of the whole. */
  lemma {:induction false} AnyChunking(context: Context, unread: string, chunks: seq<string>)
    requires Parsing(context.state) && Parse(context, unread) == Outcome(context, unread, true)
    ensures Feed(context, unread, chunks) == Parse(context, unread + Flatten(chunks))
    decreases |chunks|
  {
    if chunks == [] {
      assert unread + Flatten(chunks) == unread;
    } else {
      var whole := unread + Flatten(chunks);
      assert whole == (unread + chunks[0]) + Flatten(chunks[1..]);
      ChunkIndependence(context, unread + chunks[0], Flatten(chunks[1..]));
      var o := Parse(context, unread + chunks[0]);
      if !Finished(o) {
        ParseIsDone(context, unread + chunks[0]);
        AnyChunking(o.context, o.rest, chunks[1..]);
      }
    }
  }

  // ---------------------------------------------------------------- printing and parsing back

  datatype Header = Header(field: string, value: string, before: string, after: string)

  /** A header line: the value may stand between any white space without a line end. */
  function HeaderLine(h: Header): string {
    h.field + [':'] + (h.before + h.value + h.after)
  }

  ghost predicate NoCrlf(s: string) {
    forall j: nat :: !CrlfAt(s, j)
  }

  ghost predicate GoodHeader(h: Header) {
    ':' !in h.field && NoWhiteEnds(h.value) && AllWhite(h.before) && AllWhite(h.after) && NoCrlf(HeaderLine(h))
  }

  function HeaderLines(hs: seq<Header>): string {
    if hs == [] then "" else HeaderLine(hs[0]) + CRLF + HeaderLines(hs[1..])
  }

  function WithHeaders(request: Request, hs: seq<Header>): Request
    decreases |hs|
  {
    if hs == [] then request
    else WithHeaders(request.(headers := request.headers[hs[0].field := hs[0].value]), hs[1..])
  }

  lemma FirstLine(line: string, rest: string)
    requires NoCrlf(line)
    ensures FindCRLF(line + CRLF + rest) == Some(|line|)
    ensures (line + CRLF + rest)[..|line|] == line && (line + CRLF + rest)[|line| + 2..] == rest
  {
    var s := line + CRLF + rest;
    assert s[|line|] == '\r' && s[|line| + 1] == '\n';
    forall j: nat | j < |line| ensures !CrlfAt(s, j) {
      assert j + 1 < |line| ==> (CrlfAt(s, j) <==> CrlfAt(line, j));
    }
    CrlfIs(s, |line|);
  }

  lemma HeaderLineParses(context: Context, h: Header, rest: string)
    requires context.state == ExpectHeaders && GoodHeader(h)
    ensures Parse(context, HeaderLine(h) + CRLF + rest)
         == Parse(context.(request := WithHeaders(context.request, [h])), rest)
  {
    var line := HeaderLine(h);
    FirstLine(line, rest);
    FindIn(h.field, ':', h.before + h.value + h.after);
    assert line == h.field + ":" + h.before + h.value + h.after;
    StoredValue(context.request, h.field, h.before, h.value, h.after);
    assert line[..|h.field|] == h.field && line[|h.field| + 1..] == h.before + h.value + h.after;
    assert [h][1..] == [];
    assert WithHeaders(context.request, [h]) == AddHeader(context.request, line, |h.field|);
  }

  /** The headers end at the first line without a colon, which need not be empty. */
  lemma {:induction false} HeaderLinesParse(context: Context, hs: seq<Header>, last: string, rest: string)
    requires context.state == ExpectHeaders && forall i | 0 <= i < |hs| :: GoodHeader(hs[i])
    requires ':' !in last && NoCrlf(last)
    ensures Parse(context, HeaderLines(hs) + (last + CRLF + rest))
         == Outcome(Context(GotAll, WithHeaders(context.request, hs)), rest, true)
    decreases |hs|
  {
    if hs == [] {
      assert HeaderLines(hs) + (last + CRLF + rest) == last + CRLF + rest;
      FirstLine(last, rest);
      FindNowhere(last, ':');
    } else {
      var more := HeaderLines(hs[1..]) + (last + CRLF + rest);
      assert HeaderLines(hs) + (last + CRLF + rest) == HeaderLine(hs[0]) + CRLF + more;
      HeaderLineParses(context, hs[0], more);
      var next := context.(request := WithHeaders(context.request, [hs[0]]));
      assert [hs[0]][1..] == [];
      HeaderLinesParse(next, hs[1..], last, rest);
    }
  }

  /** The target is split at its first question mark, which belongs to the query. */
  lemma SplitTarget(request: Request, path: string, query: string)
    requires '?' !in path && (query != [] ==> query[0] == '?')
    ensures WithTarget(request, path + query)
         == request.(path := path, query := if query == [] then request.query else query)
  {
    if query != [] {
      assert path + query == path + ['?'] + query[1..];
      FindIn(path, '?', query[1..]);
      assert (path + query)[|path|] == '?';
      assert (path + query)[..|path|] == path && (path + query)[|path|..] == query;
    } else {
      assert path + query == path;
    }
  }

  /** A request printed by the grammar parses back to its parts, and what follows it stays unread.  The
      line after the headers is empty where clients keep to the protocol; the parser only minds colons. */
  lemma PrintedRequestParsesBack(m: Method, path: string, query: string, v: Version, hs: seq<Header>, last: string,
                                 rest: string)
    requires m != Invalid && v != Unknown && ' ' !in path + query && NoCrlf(RequestLine(m, path + query, v))
    requires '?' !in path && (query != [] ==> query[0] == '?')
    requires (forall i | 0 <= i < |hs| :: GoodHeader(hs[i])) && ':' !in last && NoCrlf(last)
    ensures Parse(NewContext, RequestLine(m, path + query, v) + CRLF + (HeaderLines(hs) + (last + CRLF + rest)))
         == Outcome(Context(GotAll, WithHeaders(Request(m, v, path, query, map[]), hs)), rest, true)
  {
    var target := path + query;
    GrammarIsAccepted(EmptyRequest, m, target, v);
    FirstLine(RequestLine(m, target, v), HeaderLines(hs) + (last + CRLF + rest));
    SplitTarget(EmptyRequest.(verb := m), path, query);
    HeaderLinesParse(Context(ExpectHeaders, Request(m, v, path, query, map[])), hs, last, rest);
  }

  // ---------------------------------------------------------------- after an error

  /** The line begins with one of the five methods and a space. */
  ghost predicate NamesMethod(line: string) {
    exists m, rest :: m != Invalid && line == Name(m) + [' '] + rest
  }

  lemma {:induction false} HeadersNeverFail(context: Context, input: string)
    requires context.state == ExpectHeaders
    ensures Parse(context, input).ok
    decreases |input|
  {
    hide AddHeader, Find, FindCRLF, ProcessRequestLine;
    var crlf := FindCRLF(input);
    if crlf.Some? {
      var line := input[..crlf.value];
      var colon := Find(line, ':');
      if colon != |line| {
        HeadersNeverFail(context.(request := AddHeader(context.request, line, colon)), input[crlf.value + 2..]);
      }
    }
  }

  lemma VerbAfter(request: Request, line: string)
    requires request.verb == Invalid
    ensures ProcessRequestLine(request, line).request.verb == Invalid <==> !NamesMethod(line)
  {
    hide ProcessVersion;
    var space := Find(line, ' ');
    if space != |line| {
      assert line == line[..space] + [' '] + line[space + 1..];
      TargetKeepsVerb(request.(verb := MethodOf(line[..space])), line[space + 1..]);
    }
    forall m, rest | m != Invalid && line == Name(m) + [' '] + rest
      ensures space == |Name(m)| && line[..space] == Name(m)
    {
      assert ' ' !in Name(m);
      FindIn(Name(m), ' ', rest);
    }
  }

  lemma TargetKeepsVerb(request: Request, rest: string)
    ensures ProcessTarget(request, rest).request.verb == request.verb
  {
  }

  /** What `parseRequest` and the assertion of `setMethod` in it need of the context. */
  predicate Ready(context: Context) {
    Parsing(context.state) && (context.state == ExpectRequestLine ==> context.request.verb == Invalid)
  }

  lemma {:induction false} HeadersStayHeaders(context: Context, input: string)
    requires context.state == ExpectHeaders
    ensures Parse(context, input).context.state != ExpectRequestLine
    decreases |input|
  {
    hide AddHeader, Find, FindCRLF, ProcessRequestLine;
    var crlf := FindCRLF(input);
    if crlf.Some? {
      var line := input[..crlf.value];
      var colon := Find(line, ':');
      if colon != |line| {
        HeadersStayHeaders(context.(request := AddHeader(context.request, line, colon)), input[crlf.value + 2..]);
      }
    }
  }

  /** As long as no line is refused the context stays ready for more. */
  lemma ReadyAfter(context: Context, input: string)
    requires Ready(context) && Parse(context, input).ok
    ensures var o := Parse(context, input); o.context.state == GotAll || Ready(o.context)
  {
    hide AddHeader, Find, ProcessRequestLine;
    if context.state == ExpectHeaders {
      HeadersStayHeaders(context, input);
    } else if FindCRLF(input).Some? {
      var i := FindCRLF(input).value;
      var r := ProcessRequestLine(context.request, input[..i]);
      if r.ok { HeadersStayHeaders(Context(ExpectHeaders, r.request), input[i + 2..]); }
    }
  }

  /** A refused request line stays unread, and the next call starts on it again with the method it
      found.  `setMethod` asserts that there is none: parsing may go on exactly when the refused
      line does not begin with a method and a space. */
  lemma RetryAllowedIff(input: string)
    requires !Parse(NewContext, input).ok
    ensures FindCRLF(input).Some?
    ensures var o := Parse(NewContext, input);
      && o.context.state == ExpectRequestLine && o.rest == input
      && (o.context.request.verb == Invalid <==> !NamesMethod(input[..FindCRLF(input).value]))
  {
    var crlf := FindCRLF(input);
    if crlf.Some? {
      var line := input[..crlf.value];
      VerbAfter(EmptyRequest, line);
      var r := ProcessRequestLine(EmptyRequest, line);
      if r.ok {
        HeadersNeverFail(Context(ExpectHeaders, r.request), input[crlf.value + 2..]);
      }
    }
  }

  lemma RefusedFirst(line: string, rest: string)
    requires NoCrlf(line) && !ProcessRequestLine(EmptyRequest, line).ok
    ensures Parse(NewContext, line + CRLF + rest)
         == Outcome(Context(ExpectRequestLine, ProcessRequestLine(EmptyRequest, line).request),
                    line + CRLF + rest, false)
  {
    hide ProcessRequestLine, FindCRLF;
    FirstLine(line, rest);
  }

  /** Such a line exists: a known method with an unknown version. */
  lemma RetryRefused(rest: string)
    ensures var o := Parse(NewContext, "GET / HTTP/2.0" + CRLF + rest); !o.ok && o.context.request.verb == Get
  {
    hide ProcessRequestLine, Parse;
    var line := "GET / HTTP/2.0";
    LineRefused(line);
    RefusedFirst(line, rest);
  }

  lemma LineRefused(line: string)
    requires line == "GET / HTTP/2.0"
    ensures NoCrlf(line)
    ensures var r := ProcessRequestLine(EmptyRequest, line); !r.ok && r.request.verb == Get
  {
    hide ProcessVersion, ProcessTarget;
    var target := "/" + [' '] + "HTTP/2.0";
    assert line == "GET" + [' '] + target;
    FindIn("GET", ' ', target);
    assert line[..3] == "GET";
    assert line[4..] == target;
    var r := EmptyRequest.(verb := Get);
    TargetAccepted(r, "/", "HTTP/2.0");
    TargetKeepsVerb(r, target);
    OtherVersion(WithTarget(r, "/"));
  }

  lemma OtherVersion(request: Request)
    ensures !ProcessVersion(request, "HTTP/2.0").ok
  {
    assert "HTTP/2.0"[..7][5] == '2' && "HTTP/1."[5] == '1';
  }
}
