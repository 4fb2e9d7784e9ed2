/** The request grammar the parser recognises, as functions on character strings. */
module HttpSyntax {
  import opened Basics

  datatype Method = Invalid | Get | Post | Head | Put | Delete
  datatype Version = Unknown | Http10 | Http11

  datatype Request = Request(verb: Method, version: Version, path: string, query: string, headers: map<string, string>)

  const EmptyRequest := Request(Invalid, Unknown, "", "", map[])
  const CRLF := "\r\n"

  // ---------------------------------------------------------------- searching

  /** `std::find`: the first `c`, or the end. */
  function Find(s: string, c: char): (i: nat)
    ensures i <= |s| && c !in s[..i] && (i < |s| ==> s[i] == c)
  {
    if s == [] || s[0] == c then 0
    else
      assert s[..1 + Find(s[1..], c)] == [s[0]] + s[1..][..Find(s[1..], c)];
      1 + Find(s[1..], c)
  }

  predicate CrlfAt(s: string, i: nat) {
    i + 1 < |s| && s[i] == '\r' && s[i + 1] == '\n'
  }

  /** `findCRLF`: the first CR LF, if any. */
  function FindCRLF(s: string): (r: Option<nat>)
    ensures r.Some? ==> CrlfAt(s, r.value) && forall j: nat | j < r.value :: !CrlfAt(s, j)
    ensures r.None? ==> forall j: nat :: !CrlfAt(s, j)
  {
    if |s| < 2 then None
    else if CrlfAt(s, 0) then Some(0)
    else
      assert forall j: nat | 0 < j :: CrlfAt(s, j) <==> CrlfAt(s[1..], j - 1);
      match FindCRLF(s[1..])
      case None => None
      case Some(i) => Some(i + 1)
  }

  lemma CrlfIs(s: string, i: nat)
    requires CrlfAt(s, i) && forall j: nat | j < i :: !CrlfAt(s, j)
    ensures FindCRLF(s) == Some(i)
  {
  }

  /** More input does not move the first line end. */
  lemma CrlfInPrefix(s: string, t: string)
    requires FindCRLF(s).Some?
    ensures FindCRLF(s + t) == FindCRLF(s)
  {
    var i := FindCRLF(s).value;
    assert forall j: nat | j <= i :: CrlfAt(s + t, j) <==> CrlfAt(s, j);
    CrlfIs(s + t, i);
  }

  // ---------------------------------------------------------------- methods and versions

  function Name(m: Method): string {
    match m
    case Get => "GET"
    case Post => "POST"
    case Head => "HEAD"
    case Put => "PUT"
    case Delete => "DELETE"
    case Invalid => "UNKNOWN"
  }

  function MethodOf(name: string): (m: Method)
    ensures m != Invalid ==> Name(m) == name
    ensures forall k: Method :: k != Invalid && Name(k) == name ==> m == k
  {
    if name == "GET" then Get
    else if name == "POST" then Post
    else if name == "HEAD" then Head
    else if name == "PUT" then Put
    else if name == "DELETE" then Delete
    else Invalid
  }

  function Digit(v: Version): string {
    if v == Http11 then "1" else "0"
  }

  // ---------------------------------------------------------------- the request line

  datatype LineResult = LineResult(request: Request, ok: bool)

  /** `processRequestLine`. */
  function ProcessRequestLine(request: Request, line: string): LineResult {
    var space := Find(line, ' ');
    if space == |line| then LineResult(request, false)
    else
      var r1 := request.(verb := MethodOf(line[..space]));
      if r1.verb == Invalid then LineResult(r1, false)
      else ProcessTarget(r1, line[space + 1..])
  }

  function ProcessTarget(request: Request, rest: string): LineResult {
    var space := Find(rest, ' ');
    if space == |rest| then LineResult(request, false)
    else
      var target := rest[..space];
      var question := Find(target, '?');
      var r := if question != |target| then request.(path := target[..question], query := target[question..])
               else request.(path := target);
      ProcessVersion(r, rest[space + 1..])
  }

  function ProcessVersion(request: Request, version: string): LineResult {
    if |version| == 8 && version[..7] == "HTTP/1." then
      if version[7] == '1' then LineResult(request.(version := Http11), true)
      else if version[7] == '0' then LineResult(request.(version := Http10), true)
      else LineResult(request, false)
    else LineResult(request, false)
  }

  /** The same by grammar: method SP target SP HTTP/1.0 or HTTP/1.1. */
  function RequestLine(m: Method, target: string, v: Version): string {
    Name(m) + " " + target + " HTTP/1." + Digit(v)
  }

  ghost predicate IsRequestLine(line: string, m: Method, target: string, v: Version) {
    m != Invalid && v != Unknown && ' ' !in target && line == RequestLine(m, target, v)
  }

  lemma {:induction false} FindIn(s: string, c: char, t: string)
    requires c !in s
    ensures Find(s + [c] + t, c) == |s|
  {
    if s != [] {
      FindIn(s[1..], c, t);
      assert (s + [c] + t)[1..] == s[1..] + [c] + t;
    }
  }

  lemma FindNowhere(s: string, c: char)
    requires c !in s
    ensures Find(s, c) == |s|
  {
  }

  lemma VersionAccepted(request: Request, v: Version)
    requires v != Unknown
    ensures |"HTTP/1." + Digit(v)| == 8
    ensures ProcessVersion(request, "HTTP/1." + Digit(v)) == LineResult(request.(version := v), true)
  {
    var version := "HTTP/1." + Digit(v);
    assert version[..7] == "HTTP/1." && version[7] == Digit(v)[0];
  }

  function WithTarget(request: Request, target: string): Request {
    if '?' in target then
      request.(path := target[..Find(target, '?')], query := target[Find(target, '?')..])
    else request.(path := target)
  }

  lemma TargetAccepted(request: Request, target: string, version: string)
    requires ' ' !in target
    ensures ProcessTarget(request, target + [' '] + version) == ProcessVersion(WithTarget(request, target), version)
  {
    FindIn(target, ' ', version);
    var rest := target + [' '] + version;
    assert rest[..|target|] == target && rest[|target| + 1..] == version;
    if '?' !in target {
      FindNowhere(target, '?');
    }
  }

  lemma LineShape(m: Method, target: string, v: Version)
    ensures RequestLine(m, target, v) == Name(m) + [' '] + (target + [' '] + ("HTTP/1." + Digit(v)))
  {
    hide Name, Digit;
  }

  /** Every line of the grammar is accepted, with its parts in the right fields. */
  lemma GrammarIsAccepted(request: Request, m: Method, target: string, v: Version)
    requires m != Invalid && v != Unknown && ' ' !in target
    ensures ProcessRequestLine(request, RequestLine(m, target, v))
         == LineResult(WithTarget(request.(verb := m), target).(version := v), true)
  {
    hide ProcessTarget, ProcessVersion, WithTarget;
    var rest := target + [' '] + ("HTTP/1." + Digit(v));
    var line := RequestLine(m, target, v);
    LineShape(m, target, v);
    assert ' ' !in Name(m);
    FindIn(Name(m), ' ', rest);
    assert line[..|Name(m)|] == Name(m) && line[|Name(m)| + 1..] == rest;
    assert MethodOf(Name(m)) == m;
    TargetAccepted(request.(verb := m), target, "HTTP/1." + Digit(v));
    VersionAccepted(WithTarget(request.(verb := m), target), v);
  }

  lemma VersionIsGrammar(request: Request, version: string) returns (v: Version)
    requires ProcessVersion(request, version).ok
    ensures v != Unknown && version == "HTTP/1." + Digit(v)
  {
    v := if version[7] == '1' then Http11 else Http10;
    assert version == version[..7] + [version[7]];
  }

  lemma TargetIsGrammar(request: Request, rest: string) returns (target: string, v: Version)
    requires ProcessTarget(request, rest).ok
    ensures v != Unknown && ' ' !in target && rest == target + [' '] + ("HTTP/1." + Digit(v))
  {
    hide ProcessVersion;
    var space := Find(rest, ' ');
    target := rest[..space];
    v := VersionIsGrammar(WithTarget(request, target), rest[space + 1..]) by {
      assert ProcessTarget(request, rest) == ProcessVersion(WithTarget(request, target), rest[space + 1..]) by {
        if '?' !in target { FindNowhere(target, '?'); }
      }
    }
    assert rest == target + [' '] + rest[space + 1..];
  }

  /** And nothing else is. */
  lemma AcceptedIsGrammar(request: Request, line: string) returns (m: Method, target: string, v: Version)
    requires ProcessRequestLine(request, line).ok
    ensures IsRequestLine(line, m, target, v)
  {
    hide ProcessTarget, RequestLine;
    var space := Find(line, ' ');
    m := MethodOf(line[..space]);
    var rest := line[space + 1..];
    target, v := TargetIsGrammar(request.(verb := m), rest);
    assert line == Name(m) + [' '] + rest;
    LineShape(m, target, v);
  }

  /** `processRequestLine` succeeds on exactly the lines of the grammar. */
  lemma RequestLineIff(request: Request, line: string)
    ensures ProcessRequestLine(request, line).ok <==> exists m, target, v :: IsRequestLine(line, m, target, v)
  {
    if ProcessRequestLine(request, line).ok {
      var m, target, v := AcceptedIsGrammar(request, line);
    }
    forall m, target, v | IsRequestLine(line, m, target, v) ensures ProcessRequestLine(request, line).ok {
      GrammarIsAccepted(request, m, target, v);
    }
  }

  // ---------------------------------------------------------------- header lines

  predicate IsSpace(c: char) {
    c == ' ' || c == '\t' || c == '\n' || c == '\r' || c as int == 11 || c as int == 12
  }

  function TrimLeft(s: string): string {
    if s != [] && IsSpace(s[0]) then TrimLeft(s[1..]) else s
  }

  function TrimRight(s: string): string {
    if s != [] && IsSpace(s[|s| - 1]) then TrimRight(s[..|s| - 1]) else s
  }

  function Trim(s: string): string {
    TrimRight(TrimLeft(s))
  }

  predicate AllSpace(s: string) {
    forall c | c in s :: IsSpace(c)
  }

  predicate Trimmed(s: string) {
    s != [] ==> !IsSpace(s[0]) && !IsSpace(s[|s| - 1])
  }

  lemma {:induction false} TrimLeftOf(a: string, s: string)
    requires AllSpace(a) && (s != [] ==> !IsSpace(s[0]))
    ensures TrimLeft(a + s) == s
  {
    if a != [] {
      assert (a + s)[1..] == a[1..] + s;
      TrimLeftOf(a[1..], s);
    } else {
      assert a + s == s;
    }
  }

  lemma {:induction false} TrimRightOf(s: string, b: string)
    requires AllSpace(b) && (s != [] ==> !IsSpace(s[|s| - 1]))
    ensures TrimRight(s + b) == s
  {
    if b != [] {
      assert (s + b)[..|s + b| - 1] == s + b[..|b| - 1];
      TrimRightOf(s, b[..|b| - 1]);
    } else {
      assert s + b == s;
    }
  }

  /** Trimming recovers a value from any white space put around it. */
  lemma TrimOf(a: string, value: string, b: string)
    requires AllSpace(a) && AllSpace(b) && Trimmed(value)
    ensures Trim(a + value + b) == value
  {
    if value == [] {
      assert a + value + b == (a + b) + [];
      TrimLeftOf(a + b, []);
    } else {
      assert a + value + b == a + (value + b);
      TrimLeftOf(a, value + b);
      TrimRightOf(value, b);
    }
  }

  /** `addHeader`, given the colon. */
  function AddHeader(request: Request, line: string, colon: nat): Request
    requires colon < |line|
  {
    request.(headers := request.headers[line[..colon] := Trim(line[colon + 1..])])
  }

  // ---------------------------------------------------------------- what is stored

  /** The six characters of white space: blank, tab, line feed, vertical tab, form feed, return. */
  const WHITE: string := " \t\n\U{0B}\U{0C}\r"

  predicate AllWhite(s: string) {
    forall c | c in s :: c in WHITE
  }

  predicate NoWhiteEnds(s: string) {
    s != [] ==> s[0] !in WHITE && s[|s| - 1] !in WHITE
  }

  lemma IsSpaceIs(c: char)
    ensures IsSpace(c) <==> c in WHITE
  {
    assert WHITE == [' ', '\t', '\n', '\U{0B}', '\U{0C}', '\r'];
    assert WHITE[0] == ' ' && WHITE[1] == '\t' && WHITE[2] == '\n' && WHITE[5] == '\r';
    assert WHITE[3] as int == 11 && WHITE[4] as int == 12;
    if c as int == 11 { assert c == WHITE[3]; }
    if c as int == 12 { assert c == WHITE[4]; }
  }

  /** A value is stored without the white space around it. */
  lemma StoredValue(request: Request, field: string, before: string, value: string, after: string)
    requires AllWhite(before) && AllWhite(after) && NoWhiteEnds(value)
    ensures AddHeader(request, field + ":" + before + value + after, |field|).headers == request.headers[field := value]
  {
    forall c ensures IsSpace(c) <==> c in WHITE {
      IsSpaceIs(c);
    }
    var line := field + ":" + before + value + after;
    assert line[..|field|] == field && line[|field| + 1..] == before + value + after;
    TrimOf(before, value, after);
  }

  lemma {:induction false} TrimLeftKeeps(s: string) returns (a: string)
    ensures s == a + TrimLeft(s) && AllSpace(a) && (TrimLeft(s) != [] ==> !IsSpace(TrimLeft(s)[0]))
  {
    a := [];
    if s != [] && IsSpace(s[0]) {
      var b := TrimLeftKeeps(s[1..]);
      a := [s[0]] + b;
    }
  }

  lemma {:induction false} TrimRightKeeps(s: string) returns (b: string)
    ensures s == TrimRight(s) + b && AllSpace(b) && (TrimRight(s) != [] ==> !IsSpace(TrimRight(s)[|TrimRight(s)| - 1]))
  {
    b := [];
    if s != [] && IsSpace(s[|s| - 1]) {
      var a := TrimRightKeeps(s[..|s| - 1]);
      b := a + [s[|s| - 1]];
    }
  }

  /** And nothing else is removed: what follows the colon is the stored value between white space, and
      the stored value neither begins nor ends with any. */
  lemma NothingElseRemoved(request: Request, line: string, colon: nat) returns (before: string, after: string)
    requires colon < |line|
    ensures line[..colon] in AddHeader(request, line, colon).headers
    ensures var value := AddHeader(request, line, colon).headers[line[..colon]];
      line[colon + 1..] == before + value + after && NoWhiteEnds(value)
    ensures AllWhite(before) && AllWhite(after)
  {
    forall c ensures IsSpace(c) <==> c in WHITE {
      IsSpaceIs(c);
    }
    var s := line[colon + 1..];
    before := TrimLeftKeeps(s);
    after := TrimRightKeeps(TrimLeft(s));
    assert Trim(s) != [] ==> Trim(s)[0] == TrimLeft(s)[0];
  }
}
