/** `Buffer`, `HttpRequest` and `HttpContext` as objects: the parse loop consumes the buffer and
    fills the request in place. */
module HttpContexts {
  import opened Basics
  import opened HttpSyntax
  import opened HttpParsing

  /** The readable bytes of a `Buffer`. */
  class Buffer {
    var bytes: string

    constructor (bytes: string)
      ensures this.bytes == bytes
    {
      this.bytes := bytes;
    }

    /** `std::search` for CR LF between `peek` and `beginWrite`. */
    method SearchCRLF() returns (r: Option<nat>)
      ensures r == FindCRLF(bytes)
    {
      var i := 0;
      while i + 1 < |bytes|
        invariant 0 <= i <= |bytes|
        invariant forall j: nat | j < i :: !CrlfAt(bytes, j)
      {
        if bytes[i] == '\r' && bytes[i + 1] == '\n' {
          CrlfIs(bytes, i);
          return Some(i);
        }
        i := i + 1;
      }
      r := None;
    }

    method RetrieveUntil(end: nat)
      requires end <= |bytes|
      modifies this
      ensures bytes == old(bytes)[end..]
    {
      bytes := bytes[end..];
    }

    method Append(data: string)
      modifies this
      ensures bytes == old(bytes) + data
    {
      bytes := bytes + data;
    }
  }

  class HttpRequest {
    var verb: Method
    var version: Version
    var path: string
    var query: string
    var headers: map<string, string>

    function View(): Request
      reads this
    {
      Request(verb, version, path, query, headers)
    }

    constructor ()
      ensures View() == EmptyRequest
    {
      verb, version, path, query, headers := Invalid, Unknown, "", "", map[];
    }

    /** The source asserts that no method is set yet. */
    method SetMethod(name: string) returns (ok: bool)
      requires verb == Invalid
      modifies this`verb
      ensures verb == MethodOf(name) && (ok <==> name in ["GET", "POST", "HEAD", "PUT", "DELETE"])
      ensures ok ==> verb == if name == "GET" then Get else if name == "POST" then Post
                             else if name == "HEAD" then Head else if name == "PUT" then Put else Delete
      ensures !ok ==> verb == Invalid
    {
      if name == "GET" {
        verb := Get;
      } else if name == "POST" {
        verb := Post;
      } else if name == "HEAD" {
        verb := Head;
      } else if name == "PUT" {
        verb := Put;
      } else if name == "DELETE" {
        verb := Delete;
      } else {
        verb := Invalid;
      }
      ok := verb != Invalid;
    }

    /** Two loops trim the value; a later header of the same name replaces an earlier one. */
    method AddHeader(line: string, colon: nat)
      requires colon < |line|
      modifies this`headers
      ensures View() == HttpSyntax.AddHeader(old(View()), line, colon)
    {
      var field := line[..colon];
      var start := colon + 1;
      while start < |line| && IsSpace(line[start])
        invariant colon + 1 <= start <= |line|
        invariant TrimLeft(line[start..]) == TrimLeft(line[colon + 1..])
      {
        assert line[start..][1..] == line[start + 1..];
        start := start + 1;
      }
      var value := line[start..];
      while value != [] && IsSpace(value[|value| - 1])
        invariant TrimRight(value) == TrimRight(line[start..])
      {
        value := value[..|value| - 1];
      }
      headers := headers[field := value];
    }
  }

  class HttpContext {
    var state: ParseState
    var request: HttpRequest

    function View(): Context
      reads this, request
    {
      Context(state, request.View())
    }

    constructor ()
      ensures View() == NewContext && fresh(request)
    {
      state := ExpectRequestLine;
      request := new HttpRequest();
    }

    method Reset()
      modifies this
      ensures View() == NewContext && fresh(request)
    {
      state := ExpectRequestLine;
      request := new HttpRequest();
    }

    method ProcessRequestLine(line: string) returns (succeed: bool)
      requires request.verb == Invalid
      modifies request
      ensures LineResult(request.View(), succeed) == HttpSyntax.ProcessRequestLine(old(request.View()), line)
    {
      hide ProcessTarget;
      succeed := false;
      var space := Find(line, ' ');
      if space != |line| {
        var known := request.SetMethod(line[..space]);
        if known {
          succeed := ReadTarget(line[space + 1..]);
        }
      }
    }

    /** The part after the method: path and query up to the next space. */
    method ReadTarget(rest: string) returns (succeed: bool)
      modifies request
      ensures LineResult(request.View(), succeed) == ProcessTarget(old(request.View()), rest)
    {
      hide ProcessVersion;
      succeed := false;
      var space := Find(rest, ' ');
      if space != |rest| {
        var target := rest[..space];
        var question := Find(target, '?');
        if question != |target| {
          request.path := target[..question];
          request.query := target[question..];
        } else {
          request.path := target;
        }
        succeed := ReadVersion(rest[space + 1..]);
      }
    }

    /** The last part: one of the two versions, and nothing after it. */
    method ReadVersion(version: string) returns (succeed: bool)
      modifies request
      ensures LineResult(request.View(), succeed) == ProcessVersion(old(request.View()), version)
    {
      succeed := |version| == 8 && version[..7] == "HTTP/1.";
      if succeed {
        if version[7] == '1' {
          request.version := Http11;
        } else if version[7] == '0' {
          request.version := Http10;
        } else {
          succeed := false;
        }
      }
    }

    /** One turn of the loop: either the rest of the input is still to be parsed, or this is the outcome. */
    static ghost predicate Turn(before: Context, input: string, after: Context, rest: string, ok: bool, hasMore: bool)
      requires Parsing(before.state)
    {
      if hasMore then
        && ok && after.state == ExpectHeaders && |rest| < |input|
        && Parse(after, rest) == Parse(before, input)
      else Outcome(after, rest, ok) == Parse(before, input)
    }

    /** The branch of `kExpectRequestLine`. */
    method ReadRequestLine(buf: Buffer) returns (ok: bool, hasMore: bool)
      requires state == ExpectRequestLine && request.verb == Invalid
      modifies this`state, request, buf
      ensures Turn(old(View()), old(buf.bytes), View(), buf.bytes, ok, hasMore)
    {
      hide HttpSyntax.ProcessRequestLine, FindCRLF;
      ok, hasMore := true, true;
      var crlf := buf.SearchCRLF();
      if crlf.Some? {
        ok := ProcessRequestLine(buf.bytes[..crlf.value]);
        if ok {
          buf.RetrieveUntil(crlf.value + 2);
          state := ExpectHeaders;
        } else {
          hasMore := false;
        }
      } else {
        hasMore := false;
      }
    }

    /** The branch of `kExpectHeaders`. */
    method ReadHeader(buf: Buffer) returns (hasMore: bool)
      requires state == ExpectHeaders
      modifies this`state, request, buf
      ensures Turn(old(View()), old(buf.bytes), View(), buf.bytes, true, hasMore)
    {
      hide HttpSyntax.AddHeader, FindCRLF;
      hasMore := true;
      var crlf := buf.SearchCRLF();
      if crlf.Some? {
        var line := buf.bytes[..crlf.value];
        var colon := Find(line, ':');
        if colon != |line| {
          request.AddHeader(line, colon);
        } else {
          state := GotAll;
          hasMore := false;
        }
        buf.RetrieveUntil(crlf.value + 2);
      } else {
        hasMore := false;
      }
    }

    /** `parseRequest`: the loop ends, and does what `Parse` says. */
    method ParseRequest(buf: Buffer) returns (ok: bool)
      requires Ready(View())
      modifies this`state, request, buf
      ensures Outcome(View(), buf.bytes, ok) == Parse(old(View()), old(buf.bytes))
    {
      hide Parse;
      ok := true;
      var hasMore := true;
      while hasMore
        invariant hasMore ==> ok && Ready(View())
        invariant hasMore ==> Parse(View(), buf.bytes) == Parse(old(View()), old(buf.bytes))
        invariant !hasMore ==> Outcome(View(), buf.bytes, ok) == Parse(old(View()), old(buf.bytes))
        decreases hasMore, |buf.bytes|
      {
        if state == ExpectRequestLine {
          ok, hasMore := ReadRequestLine(buf);
        } else {
          hasMore := ReadHeader(buf);
        }
      }
    }
  }

  /** `HttpServer::onMessage`, less the replies: a finished request is handed on and the context
      starts over.  Unless a line was refused, it is ready for the next message. */
  method OnMessage(context: HttpContext, buf: Buffer) returns (ok: bool, request: Option<Request>)
    requires Ready(context.View())
    modifies context, context.request, buf
    ensures var o := Parse(old(context.View()), old(buf.bytes));
      && ok == o.ok && buf.bytes == o.rest
      && request == (if o.context.state == GotAll then Some(o.context.request) else None)
      && context.View() == if o.context.state == GotAll then NewContext else o.context
    ensures ok ==> Ready(context.View())
  {
    ghost var before, input := context.View(), buf.bytes;
    ok := context.ParseRequest(buf);
    if ok { ReadyAfter(before, input); }
    request := None;
    if context.state == GotAll {
      request := Some(context.request.View());
      context.Reset();
    }
  }
}
