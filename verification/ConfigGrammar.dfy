/** The grammar of the Chain server list as syntax trees, and the two halves of what the parser does: every
    rendering of a tree parses to the tree's meaning, and every accepted text is such a rendering. */
module ConfigGrammar {
  import opened Basics
  import opened ChainConfig

  // ----- trees

  datatype Item = Plain(c: char) | Escaped(e: char)
  datatype Str = Str(ws: string, items: seq<Item>)

  datatype Members =
    | NoMore(ws: string)
    | HostMember(key: Str, colon: string, value: Str, tail: Tail)
    | PortMember(key: Str, colon: string, ws: string, digits: string, tail: Tail)
  datatype Tail = Close(ws: string) | Comma(ws: string, more: Members)

  datatype Elements = Element(open: string, members: Members, next: Next)
  datatype Next = EndArray(ws: string) | NextElement(ws: string, more: Elements)

  datatype ConfigBody =
    | NoServers(ws: string)
    | Servers(key: Str, colon: string, open: string, elements: Elements, tail: ConfigEnd)
  datatype ConfigEnd = EndConfig(ws: string) | MoreConfig(ws: string, more: ConfigBody)

  datatype Doc = Doc(open: string, body: ConfigBody, end: string)

  // ----- their text

  function ItemText(i: Item): string {
    match i case Plain(c) => [c] case Escaped(e) => ['\\', e]
  }

  function BodyText(items: seq<Item>): string {
    if items == [] then [] else ItemText(items[0]) + BodyText(items[1..])
  }

  function StrText(s: Str): string {
    s.ws + (['"'] + (BodyText(s.items) + ['"']))
  }

  function MembersText(m: Members): string {
    match m
    case NoMore(ws) => ws + ['}']
    case HostMember(key, colon, value, tail) => StrText(key) + (colon + ([':'] + (StrText(value) + TailText(tail))))
    case PortMember(key, colon, ws, digits, tail) => StrText(key) + (colon + ([':'] + (ws + (digits + TailText(tail)))))
  }

  function TailText(t: Tail): string {
    match t
    case Close(ws) => ws + ['}']
    case Comma(ws, more) => ws + ([','] + MembersText(more))
  }

  function ElementsText(e: Elements): string {
    e.open + (['{'] + (MembersText(e.members) + NextText(e.next)))
  }

  function NextText(n: Next): string {
    match n
    case EndArray(ws) => ws + [']']
    case NextElement(ws, more) => ws + ([','] + ElementsText(more))
  }

  function ConfigText(b: ConfigBody): string {
    match b
    case NoServers(ws) => ws + ['}']
    case Servers(key, colon, open, elements, tail) =>
      StrText(key) + (colon + ([':'] + (open + (['['] + (ElementsText(elements) + ConfigTailText(tail))))))
  }

  function ConfigTailText(t: ConfigEnd): string {
    match t
    case EndConfig(ws) => ws + ['}']
    case MoreConfig(ws, more) => ws + ([','] + ConfigText(more))
  }

  function DocText(d: Doc): string {
    d.open + (['{'] + (ConfigText(d.body) + d.end))
  }

  // ----- well-formed trees

  predicate ItemOk(i: Item) {
    match i case Plain(c) => c !in {'"', '\\', NUL} case Escaped(e) => Unescape(e).Some?
  }

  predicate ItemsOk(items: seq<Item>) {
    forall i :: 0 <= i < |items| ==> ItemOk(items[i])
  }

  function ItemValue(i: Item): char
    requires ItemOk(i)
  {
    match i case Plain(c) => c case Escaped(e) => Unescape(e).value
  }

  function BodyValue(items: seq<Item>): string
    requires ItemsOk(items)
  {
    if items == [] then [] else [ItemValue(items[0])] + BodyValue(items[1..])
  }

  predicate StrOk(s: Str) {
    AllSpace(s.ws) && ItemsOk(s.items)
  }

  predicate KeyOk(s: Str, name: string) {
    StrOk(s) && BodyValue(s.items) == name
  }

  predicate MembersOk(m: Members) {
    match m
    case NoMore(ws) => AllSpace(ws)
    case HostMember(key, colon, value, tail) => KeyOk(key, "host") && AllSpace(colon) && StrOk(value) && TailOk(tail)
    case PortMember(key, colon, ws, digits, tail) =>
      KeyOk(key, "port") && AllSpace(colon) && AllSpace(ws) && digits != [] && AllDigits(digits) && TailOk(tail)
  }

  predicate TailOk(t: Tail) {
    match t
    case Close(ws) => AllSpace(ws)
    case Comma(ws, more) => AllSpace(ws) && MembersOk(more)
  }

  predicate ElementsOk(e: Elements) {
    AllSpace(e.open) && MembersOk(e.members) && NextOk(e.next)
  }

  predicate NextOk(n: Next) {
    match n
    case EndArray(ws) => AllSpace(ws)
    case NextElement(ws, more) => AllSpace(ws) && ElementsOk(more)
  }

  predicate ConfigOk(b: ConfigBody) {
    match b
    case NoServers(ws) => AllSpace(ws)
    case Servers(key, colon, open, elements, tail) =>
      KeyOk(key, "chain_servers") && AllSpace(colon) && AllSpace(open) && ElementsOk(elements) && ConfigTailOk(tail)
  }

  predicate ConfigTailOk(t: ConfigEnd) {
    match t
    case EndConfig(ws) => AllSpace(ws)
    case MoreConfig(ws, more) => AllSpace(ws) && ConfigOk(more)
  }

  predicate DocOk(d: Doc) {
    AllSpace(d.open) && ConfigOk(d.body) && AllSpace(d.end)
  }

  // ----- their meaning

  /** A server has one non-empty host and one port in range, in either order. */
  function MembersMeaning(m: Members, host: Option<string>, port: Option<nat>): Option<Entry>
    requires MembersOk(m)
  {
    match m
    case NoMore(_) => if host.Some? && port.Some? then Some(Entry(host.value, port.value)) else None
    case HostMember(_, _, value, tail) =>
      if host.Some? || BodyValue(value.items) == "" then None else TailMeaning(tail, Some(BodyValue(value.items)), port)
    case PortMember(_, _, _, digits, tail) =>
      if port.Some? || !PortOk(Decimal(digits)) then None else TailMeaning(tail, host, Some(Decimal(digits)))
  }

  function TailMeaning(t: Tail, host: Option<string>, port: Option<nat>): Option<Entry>
    requires TailOk(t)
  {
    match t
    case Close(_) => if host.Some? && port.Some? then Some(Entry(host.value, port.value)) else None
    case Comma(_, more) => MembersMeaning(more, host, port)
  }

  function ElementsMeaning(e: Elements): Option<seq<Entry>>
    requires ElementsOk(e)
  {
    var first := MembersMeaning(e.members, None, None);
    assert NextOk(e.next);
    if first.None? then None else
    match e.next
    case EndArray(_) => Some([first.value])
    case NextElement(_, more) =>
      var rest := ElementsMeaning(more);
      if rest.None? then None else Some([first.value] + rest.value)
  }

  function ConfigMeaning(b: ConfigBody, servers: Option<seq<Entry>>): Option<Option<seq<Entry>>>
    requires ConfigOk(b)
  {
    match b
    case NoServers(_) => Some(servers)
    case Servers(_, _, _, elements, tail) =>
      var list := ElementsMeaning(elements);
      assert ConfigTailOk(tail);
      if servers.Some? || list.None? then None else EndMeaning(tail, list)
  }

  function EndMeaning(t: ConfigEnd, servers: Option<seq<Entry>>): Option<Option<seq<Entry>>>
    requires ConfigTailOk(t)
  {
    match t
    case EndConfig(_) => Some(servers)
    case MoreConfig(_, more) => ConfigMeaning(more, servers)
  }

  function DocMeaning(d: Doc): Option<seq<Entry>>
    requires DocOk(d)
  {
    var r := ConfigMeaning(d.body, None);
    if r.None? then None else r.value
  }

  // ----- every rendering parses to its meaning

  lemma {:induction false} SkipSpaces(ws: string, s: string)
    requires AllSpace(ws) && !IsSpace(Head(s))
    ensures SkipSpace(ws + s) == s
  {
    if ws == [] {
      assert ws + s == s;
    } else {
      assert (ws + s)[1..] == ws[1..] + s;
      SkipSpaces(ws[1..], s);
    }
  }

  lemma Reassoc(a: string, b: string, c: string)
    ensures (a + b) + c == a + (b + c)
  {
  }

  lemma ConsText(c: char, s: string)
    ensures Head([c] + s) == c && ([c] + s)[1..] == s && ([c] + s)[0] == c
  {
  }

  lemma {:induction false} BodyParses(items: seq<Item>, rest: string)
    requires ItemsOk(items)
    ensures ParseBody(BodyText(items) + (['"'] + rest)) == Parsed(BodyValue(items), rest)
  {
    var tail := ['"'] + rest;
    if items == [] {
      assert BodyText(items) + tail == tail;
    } else {
      BodyParses(items[1..], rest);
      var after := BodyText(items[1..]) + tail;
      assert BodyText(items) + tail == ItemText(items[0]) + after;
      ItemParses(items[0], after);
    }
  }

  lemma ItemParses(i: Item, after: string)
    requires ItemOk(i) && ParseBody(after).Parsed?
    ensures ParseBody(ItemText(i) + after) == Parsed([ItemValue(i)] + ParseBody(after).value, ParseBody(after).rest)
  {
    var s := ItemText(i) + after;
    match i
    case Plain(c) => assert s[1..] == after;
    case Escaped(e) => assert s[1..] == [e] + after && s[2..] == after;
  }

  lemma StrParses(s: Str, rest: string)
    requires StrOk(s)
    ensures ParseString(StrText(s) + rest) == Parsed(BodyValue(s.items), rest)
  {
    var body := BodyText(s.items) + (['"'] + rest);
    Reassoc(BodyText(s.items), ['"'], rest);
    Reassoc(['"'], BodyText(s.items) + ['"'], rest);
    Reassoc(s.ws, ['"'] + (BodyText(s.items) + ['"']), rest);
    ConsText('"', body);
    SkipSpaces(s.ws, ['"'] + body);
    BodyParses(s.items, rest);
  }

  /** A white-space-padded token is expected and found. */
  lemma TokenParses(ws: string, c: char, rest: string)
    requires AllSpace(ws) && c != NUL && !IsSpace(c)
    ensures Expect(ws + ([c] + rest), c) == Parsed((), rest)
    ensures SkipSpace(ws + ([c] + rest)) == [c] + rest
    ensures Head([c] + rest) == c && ([c] + rest)[1..] == rest
  {
    ConsText(c, rest);
    SkipSpaces(ws, [c] + rest);
  }

  lemma {:induction false} DigitsRun(d: string, s: string)
    requires AllDigits(d) && !IsDigit(Head(s))
    ensures DigitRun(d + s) == d && (d + s)[|d|..] == s
  {
    if d == [] {
      assert d + s == s;
    } else {
      assert (d + s)[1..] == d[1..] + s;
      DigitsRun(d[1..], s);
    }
  }

  lemma PortParses(ws: string, d: string, s: string)
    requires AllSpace(ws) && d != [] && AllDigits(d) && !IsDigit(Head(s))
    ensures ParsePort(ws + (d + s)) == if PortOk(Decimal(d)) then Parsed(Decimal(d), s) else Failed
  {
    assert Head(d + s) == d[0];
    SkipSpaces(ws, d + s);
    DigitsRun(d, s);
  }

  function Outcome(meaning: Option<Entry>, rest: string): Parsed<Entry> {
    if meaning.Some? then Parsed(meaning.value, rest) else Failed
  }

  lemma TailHead(t: Tail, rest: string)
    requires TailOk(t)
    ensures !IsDigit(Head(TailText(t) + rest))
  {
  }

  lemma {:induction false} MembersParse(m: Members, host: Option<string>, port: Option<nat>, rest: string)
    requires MembersOk(m)
    ensures ServerMembers(MembersText(m) + rest, host, port) == Outcome(MembersMeaning(m, host, port), rest)
    decreases m, 1
  {
    match m {
      case NoMore(ws) =>
        Reassoc(ws, ['}'], rest);
        TokenParses(ws, '}', rest);
      case HostMember(key, colon, value, tail) =>
        var after := TailText(tail) + rest;
        var body := StrText(value) + after;
        HostText(key, colon, value, tail, rest);
        StartsWithQuote(key, colon + ([':'] + body));
        StrParses(key, colon + ([':'] + body));
        TokenParses(colon, ':', body);
        StrParses(value, after);
        hide SkipSpace, ParseString, Expect, StrText, TailText, BodyValue, StrOk;
        MemberTurn(MembersText(m) + rest, host, port);
        if host.None? && BodyValue(value.items) != "" {
          TailParse(tail, Some(BodyValue(value.items)), port, rest);
        }
      case PortMember(key, colon, ws, digits, tail) =>
        var after := TailText(tail) + rest;
        var body := ws + (digits + after);
        PortText(key, colon, ws, digits, tail, rest);
        StartsWithQuote(key, colon + ([':'] + body));
        StrParses(key, colon + ([':'] + body));
        TokenParses(colon, ':', body);
        TailHead(tail, rest);
        PortParses(ws, digits, after);
        hide SkipSpace, ParseString, Expect, ParsePort, StrText, TailText, BodyValue, StrOk, Decimal;
        MemberTurn(MembersText(m) + rest, host, port);
        if port.None? && PortOk(Decimal(digits)) {
          TailParse(tail, host, Some(Decimal(digits)), rest);
        }
    }
  }

  /** One turn of the loop on a text that does not start with a closing brace. */
  lemma MemberTurn(s: string, host: Option<string>, port: Option<nat>)
    requires Head(SkipSpace(s)) != '}' && ParseString(SkipSpace(s)).Parsed?
    requires Expect(ParseString(SkipSpace(s)).rest, ':').Parsed?
    ensures var key := ParseString(SkipSpace(s));
            var v := Expect(key.rest, ':').rest;
            && (key.value == "host" ==>
                  ServerMembers(s, host, port)
                  == if host.Some? || ParseString(v).Failed? || ParseString(v).value == "" then Failed
                     else ServerTail(ParseString(v).rest, Some(ParseString(v).value), port))
            && (key.value == "port" ==>
                  ServerMembers(s, host, port)
                  == if port.Some? || ParsePort(v).Failed? then Failed
                     else ServerTail(ParsePort(v).rest, host, Some(ParsePort(v).value)))
  {
    hide SkipSpace, ParseString, Expect, ParsePort, ServerTail;
  }

  lemma StartsWithQuote(s: Str, rest: string)
    requires StrOk(s)
    ensures Head(SkipSpace(StrText(s) + rest)) == '"'
    ensures ParseString(SkipSpace(StrText(s) + rest)) == ParseString(StrText(s) + rest)
  {
    var quoted := ['"'] + (BodyText(s.items) + ['"'] + rest);
    assert StrText(s) + rest == s.ws + quoted;
    assert Head(quoted) == '"';
    SkipSpaces(s.ws, quoted);
    SkipSpaces([], quoted);
    assert [] + quoted == quoted;
  }

  lemma HostText(key: Str, colon: string, value: Str, tail: Tail, rest: string)
    ensures MembersText(HostMember(key, colon, value, tail)) + rest
         == StrText(key) + (colon + ([':'] + (StrText(value) + (TailText(tail) + rest))))
  {
    hide StrText, TailText;
  }

  lemma PortText(key: Str, colon: string, ws: string, digits: string, tail: Tail, rest: string)
    ensures MembersText(PortMember(key, colon, ws, digits, tail)) + rest
         == StrText(key) + (colon + ([':'] + (ws + (digits + (TailText(tail) + rest)))))
  {
    hide StrText, TailText;
  }

  lemma {:induction false} TailParse(t: Tail, host: Option<string>, port: Option<nat>, rest: string)
    requires TailOk(t)
    ensures ServerTail(TailText(t) + rest, host, port) == Outcome(TailMeaning(t, host, port), rest)
    decreases t, 0
  {
    match t {
      case Close(ws) =>
        Reassoc(ws, ['}'], rest);
        TokenParses(ws, '}', rest);
      case Comma(ws, more) =>
        var after := MembersText(more) + rest;
        assert TailText(t) + rest == ws + ([','] + after);
        TokenParses(ws, ',', after);
        hide SkipSpace, ServerMembers, MembersText, MembersMeaning;
        MembersParse(more, host, port, rest);
    }
  }

  lemma {:induction false} ElementsParse(e: Elements, rest: string)
    requires ElementsOk(e)
    ensures ServerElements(ElementsText(e) + rest)
         == if ElementsMeaning(e).Some? then Parsed(ElementsMeaning(e).value, rest) else Failed
    decreases e
  {
    var after := NextText(e.next) + rest;
    ElementParse(e, after);
    ElementText(e.open, e.members, e.next, rest);
    hide ParseServer, SkipSpace, MembersText, MembersMeaning, MembersOk, ElementsText;
    match e.next {
      case EndArray(ws) =>
        Reassoc(ws, [']'], rest);
        TokenParses(ws, ']', rest);
      case NextElement(ws, more) =>
        NextElementText(ws, more, rest);
        TokenParses(ws, ',', ElementsText(more) + rest);
        ElementsParse(more, rest);
    }
  }

  /** One server object of the array. */
  lemma ElementParse(e: Elements, after: string)
    requires ElementsOk(e)
    ensures ParseServer(e.open + (['{'] + (MembersText(e.members) + after))) == Outcome(MembersMeaning(e.members, None, None), after)
  {
    TokenParses(e.open, '{', MembersText(e.members) + after);
    MembersParse(e.members, None, None, after);
    hide SkipSpace, Expect, ServerMembers, MembersText, MembersMeaning;
  }

  lemma ServersParse(open: string, e: Elements, rest: string)
    requires AllSpace(open) && ElementsOk(e)
    ensures ParseServers(open + (['['] + (ElementsText(e) + rest)))
         == if ElementsMeaning(e).Some? then Parsed(ElementsMeaning(e).value, rest) else Failed
  {
    var text := ElementsText(e) + rest;
    TokenParses(open, '[', text);
    var braced := ['{'] + ((MembersText(e.members) + NextText(e.next)) + rest);
    assert text == e.open + braced by { hide MembersText, NextText; }
    TokenParses(e.open, '{', (MembersText(e.members) + NextText(e.next)) + rest);
    ElementsParse(Element([], e.members, e.next), rest);
    assert ElementsText(Element([], e.members, e.next)) + rest == braced by { hide MembersText, NextText; }
  }

  function ConfigOutcome(meaning: Option<Option<seq<Entry>>>, rest: string): Parsed<Option<seq<Entry>>> {
    if meaning.Some? then Parsed(meaning.value, rest) else Failed
  }

  lemma {:induction false} ConfigParse(b: ConfigBody, servers: Option<seq<Entry>>, rest: string)
    requires ConfigOk(b)
    ensures ConfigMembers(ConfigText(b) + rest, servers) == ConfigOutcome(ConfigMeaning(b, servers), rest)
    decreases b, 1
  {
    match b {
      case NoServers(ws) =>
        Reassoc(ws, ['}'], rest);
        TokenParses(ws, '}', rest);
      case Servers(key, colon, open, elements, tail) =>
        var after := ConfigTailText(tail) + rest;
        var bracketed := open + (['['] + (ElementsText(elements) + after));
        ServersText(key, colon, open, elements, tail, rest);
        StartsWithQuote(key, colon + ([':'] + bracketed));
        StrParses(key, colon + ([':'] + bracketed));
        TokenParses(colon, ':', bracketed);
        ServersParse(open, elements, after);
        hide SkipSpace, ParseString, Expect, ParseServers, StrText, ElementsText, ElementsMeaning, BodyValue, ElementsOk, StrOk, ConfigTail;
        ConfigTurn(ConfigText(b) + rest, servers);
        if servers.None? && ElementsMeaning(elements).Some? {
          ConfigTailParse(tail, ElementsMeaning(elements), rest);
        }
    }
  }

  lemma ConfigTurn(s: string, servers: Option<seq<Entry>>)
    requires Head(SkipSpace(s)) != '}' && ParseString(SkipSpace(s)).Parsed?
    requires Expect(ParseString(SkipSpace(s)).rest, ':').Parsed?
    ensures var key := ParseString(SkipSpace(s));
            var v := Expect(key.rest, ':').rest;
            key.value == "chain_servers" ==>
              ConfigMembers(s, servers)
              == if servers.Some? || ParseServers(v).Failed? then Failed
                 else ConfigTail(ParseServers(v).rest, Some(ParseServers(v).value))
  {
    hide SkipSpace, ParseString, Expect, ParseServers, ConfigTail;
  }

  lemma ServersText(key: Str, colon: string, open: string, e: Elements, tail: ConfigEnd, rest: string)
    ensures ConfigText(Servers(key, colon, open, e, tail)) + rest
         == StrText(key) + (colon + ([':'] + (open + (['['] + (ElementsText(e) + (ConfigTailText(tail) + rest))))))
  {
    hide StrText, ElementsText, ConfigTailText;
  }

  lemma {:induction false} ConfigTailParse(t: ConfigEnd, servers: Option<seq<Entry>>, rest: string)
    requires ConfigTailOk(t)
    ensures ConfigTail(ConfigTailText(t) + rest, servers) == ConfigOutcome(EndMeaning(t, servers), rest)
    decreases t, 0
  {
    match t {
      case EndConfig(ws) =>
        Reassoc(ws, ['}'], rest);
        TokenParses(ws, '}', rest);
      case MoreConfig(ws, more) =>
        var after := ConfigText(more) + rest;
        assert ConfigTailText(t) + rest == ws + ([','] + after) by { hide ConfigText; }
        TokenParses(ws, ',', after);
        hide SkipSpace, ConfigMembers, ConfigText, ConfigMeaning;
        ConfigParse(more, servers, rest);
    }
  }

  /** Round trip: whatever white space, escapes, member order and trailing commas a well-formed text uses,
      it parses to exactly what it means, in order; a text without a meaning is refused. */
  lemma DocParses(d: Doc, after: string)
    requires DocOk(d) && Head(after) == NUL
    ensures ParseConfig(DocText(d) + after) == DocMeaning(d)
  {
    var rest := d.end + after;
    DocTextOf(d, after);
    hide ConfigText, ConfigMembers, ConfigMeaning, ConfigOk, DocText;
    TokenParses(d.open, '{', ConfigText(d.body) + rest);
    ConfigParse(d.body, None, rest);
    SkipSpaces(d.end, after);
  }

  // ----- every accepted text is a rendering

  lemma {:induction false} SpaceSplit(s: string) returns (ws: string)
    ensures AllSpace(ws) && s == ws + SkipSpace(s)
  {
    if s != [] && IsSpace(s[0]) {
      var w := SpaceSplit(s[1..]);
      ws := [s[0]] + w;
    } else {
      ws := [];
    }
  }

  /** A token that was found: white space, the character, the rest. */
  lemma TokenSound(s: string, c: char) returns (ws: string)
    requires c != NUL && Head(SkipSpace(s)) == c
    ensures AllSpace(ws) && s == ws + ([c] + SkipSpace(s)[1..])
  {
    ws := SpaceSplit(s);
    assert SkipSpace(s) == [c] + SkipSpace(s)[1..];
  }

  lemma {:induction false} BodySound(s: string) returns (items: seq<Item>)
    requires ParseBody(s).Parsed?
    ensures ItemsOk(items) && s == BodyText(items) + (['"'] + ParseBody(s).rest)
  {
    if s[0] == '"' {
      items := [];
      assert s == ['"'] + s[1..];
    } else {
      var item, rest := ItemSound(s);
      var more := BodySound(rest);
      items := [item] + more;
      BodyCons(item, more, ['"'] + ParseBody(rest).rest);
    }
  }

  lemma ItemSound(s: string) returns (item: Item, rest: string)
    requires ParseBody(s).Parsed? && s[0] != '"'
    ensures ItemOk(item) && s == ItemText(item) + rest && |rest| < |s|
    ensures ParseBody(rest).Parsed? && ParseBody(rest).rest == ParseBody(s).rest
  {
    if s[0] == '\\' {
      item, rest := Escaped(s[1]), s[2..];
    } else {
      item, rest := Plain(s[0]), s[1..];
    }
  }

  lemma BodyCons(item: Item, more: seq<Item>, rest: string)
    ensures BodyText([item] + more) + rest == ItemText(item) + (BodyText(more) + rest)
  {
    assert ([item] + more)[1..] == more;
  }

  lemma StrSound(s: string) returns (str: Str)
    requires ParseString(s).Parsed?
    ensures StrOk(str) && s == StrText(str) + ParseString(s).rest && BodyValue(str.items) == ParseString(s).value
  {
    var ws := TokenSound(s, '"');
    var items := BodySound(SkipSpace(s)[1..]);
    str := Str(ws, items);
    var rest := ParseString(s).rest;
    hide SkipSpace, ParseBody, BodyText, AllSpace, ItemsOk;
    Reassoc(BodyText(items), ['"'], rest);
    Reassoc(['"'], BodyText(items) + ['"'], rest);
    Reassoc(ws, ['"'] + (BodyText(items) + ['"']), rest);
    StrParses(str, rest);
  }

  lemma ExpectSound(s: string, c: char) returns (ws: string)
    requires c != NUL && Expect(s, c).Parsed?
    ensures AllSpace(ws) && s == ws + ([c] + Expect(s, c).rest)
  {
    ws := TokenSound(s, c);
  }

  lemma PortSound(s: string) returns (ws: string, digits: string)
    requires ParsePort(s).Parsed?
    ensures AllSpace(ws) && digits != [] && AllDigits(digits) && s == ws + (digits + ParsePort(s).rest)
  {
    ws := SpaceSplit(s);
    digits := DigitRun(SkipSpace(s));
    assert SkipSpace(s) == digits + SkipSpace(s)[|digits|..];
  }

  /** A key, a colon and what follows. */
  lemma KeySound(s: string) returns (key: Str, colon: string)
    requires ParseString(SkipSpace(s)).Parsed? && Expect(ParseString(SkipSpace(s)).rest, ':').Parsed?
    ensures KeyOk(key, ParseString(SkipSpace(s)).value) && AllSpace(colon)
    ensures s == StrText(key) + (colon + ([':'] + Expect(ParseString(SkipSpace(s)).rest, ':').rest))
  {
    var lead := SpaceSplit(s);
    var k := StrSound(SkipSpace(s));
    key := Str(lead + k.ws, k.items);
    colon := ExpectSound(ParseString(SkipSpace(s)).rest, ':');
    hide SkipSpace, ParseString, Expect, BodyText, ItemsOk, BodyValue;
    LeadingText(lead, k, ParseString(SkipSpace(s)).rest);
  }

  lemma LeadingText(lead: string, k: Str, rest: string)
    ensures StrText(Str(lead + k.ws, k.items)) + rest == lead + (StrText(k) + rest)
  {
    hide BodyText;
  }

  /** What a successful turn of parse_server has done. */
  lemma MembersInv(s: string, host: Option<string>, port: Option<nat>)
    requires ServerMembers(s, host, port).Parsed? && Head(SkipSpace(s)) != '}'
    ensures ParseString(SkipSpace(s)).Parsed? && Expect(ParseString(SkipSpace(s)).rest, ':').Parsed?
    ensures var v := Expect(ParseString(SkipSpace(s)).rest, ':').rest;
            var r := ServerMembers(s, host, port);
            || (&& ParseString(SkipSpace(s)).value == "host" && ParseString(v).Parsed?
                && r == ServerTail(ParseString(v).rest, Some(ParseString(v).value), port))
            || (&& ParseString(SkipSpace(s)).value == "port" && ParsePort(v).Parsed?
                && r == ServerTail(ParsePort(v).rest, host, Some(ParsePort(v).value)))
  {
    hide SkipSpace, ParseString, Expect, ParsePort, ServerTail;
  }

  lemma {:induction false} MembersSound(s: string, host: Option<string>, port: Option<nat>) returns (m: Members)
    requires ServerMembers(s, host, port).Parsed?
    ensures MembersOk(m) && s == MembersText(m) + ServerMembers(s, host, port).rest
    decreases |s|, 1
  {
    if Head(SkipSpace(s)) == '}' {
      var ws := TokenSound(s, '}');
      m := NoMore(ws);
    } else {
      MembersInv(s, host, port);
      hide ServerMembers, SkipSpace, ParseString, Expect, ParsePort, ServerTail, StrText, TailText, TailOk, KeyOk, StrOk;
      var key, colon := KeySound(s);
      var r := ServerMembers(s, host, port);
      var v := Expect(ParseString(SkipSpace(s)).rest, ':').rest;
      if ParseString(SkipSpace(s)).value == "host" {
        var value := StrSound(v);
        var tail := TailSound(ParseString(v).rest, Some(ParseString(v).value), port);
        m := HostMember(key, colon, value, tail);
        HostText(key, colon, value, tail, r.rest);
      } else {
        var ws, digits := PortSound(v);
        var tail := TailSound(ParsePort(v).rest, host, Some(ParsePort(v).value));
        m := PortMember(key, colon, ws, digits, tail);
        PortText(key, colon, ws, digits, tail, r.rest);
      }
    }
  }

  lemma {:induction false} TailSound(s: string, host: Option<string>, port: Option<nat>) returns (t: Tail)
    requires ServerTail(s, host, port).Parsed?
    ensures TailOk(t) && s == TailText(t) + ServerTail(s, host, port).rest
    decreases |s|, 0
  {
    hide SkipSpace, MembersText, MembersOk, ServerMembers;
    if Head(SkipSpace(s)) == ',' {
      var ws := TokenSound(s, ',');
      var more := MembersSound(SkipSpace(s)[1..], host, port);
      t := Comma(ws, more);
      CommaText(ws, more, ServerTail(s, host, port).rest);
    } else {
      var ws := TokenSound(s, '}');
      t := Close(ws);
    }
  }

  lemma CommaText(ws: string, more: Members, rest: string)
    ensures TailText(Comma(ws, more)) + rest == ws + ([','] + (MembersText(more) + rest))
  {
    hide MembersText;
  }

  lemma ServerSound(s: string) returns (open: string, members: Members)
    requires ParseServer(s).Parsed?
    ensures AllSpace(open) && MembersOk(members) && s == open + (['{'] + (MembersText(members) + ParseServer(s).rest))
  {
    hide ServerMembers, SkipSpace, MembersText, MembersOk;
    open := ExpectSound(s, '{');
    members := MembersSound(Expect(s, '{').rest, None, None);
  }

  lemma ElementsInv(s: string)
    requires ServerElements(s).Parsed?
    ensures ParseServer(s).Parsed?
    ensures var after := SkipSpace(ParseServer(s).rest);
            || (&& Head(after) == ',' && ServerElements(after[1..]).Parsed?
                && ServerElements(s).rest == ServerElements(after[1..]).rest)
            || (Head(after) == ']' && ServerElements(s).rest == after[1..])
  {
    hide SkipSpace, ParseServer;
  }

  lemma {:induction false} ElementsSound(s: string) returns (e: Elements)
    requires ServerElements(s).Parsed?
    ensures ElementsOk(e) && s == ElementsText(e) + ServerElements(s).rest
    decreases |s|
  {
    hide ServerElements, ParseServer, SkipSpace, ElementsText, ElementsOk, NextText, NextOk, MembersText, MembersOk;
    ElementsInv(s);
    var open, members := ServerSound(s);
    var after, rest := ParseServer(s).rest, ServerElements(s).rest;
    var next: Next;
    if Head(SkipSpace(after)) == ',' {
      var more := ElementsSound(SkipSpace(after)[1..]);
      next := CommaSound(after, more, rest);
    } else {
      next := BracketSound(after, rest);
    }
    e := Element(open, members, next);
    ElementOk(open, members, next);
    ElementText(open, members, next, rest);
  }

  lemma CommaSound(after: string, more: Elements, rest: string) returns (next: Next)
    requires Head(SkipSpace(after)) == ',' && ElementsOk(more) && SkipSpace(after)[1..] == ElementsText(more) + rest
    ensures NextOk(next) && after == NextText(next) + rest
  {
    hide SkipSpace, ElementsText, ElementsOk;
    var ws := TokenSound(after, ',');
    next := NextElement(ws, more);
    NextElementText(ws, more, rest);
  }

  lemma BracketSound(after: string, rest: string) returns (next: Next)
    requires Head(SkipSpace(after)) == ']' && SkipSpace(after)[1..] == rest
    ensures NextOk(next) && after == NextText(next) + rest
  {
    hide SkipSpace;
    var ws := TokenSound(after, ']');
    next := EndArray(ws);
    assert ws + ([']'] + rest) == ws + [']'] + rest;
  }

  lemma ElementOk(open: string, members: Members, next: Next)
    requires AllSpace(open) && MembersOk(members) && NextOk(next)
    ensures ElementsOk(Element(open, members, next))
  {
  }

  lemma NextElementText(ws: string, more: Elements, rest: string)
    ensures NextText(NextElement(ws, more)) + rest == ws + ([','] + (ElementsText(more) + rest))
  {
    hide ElementsText;
  }

  lemma ElementText(open: string, members: Members, next: Next, rest: string)
    ensures ElementsText(Element(open, members, next)) + rest == open + (['{'] + (MembersText(members) + (NextText(next) + rest)))
  {
    hide MembersText, NextText;
  }

  lemma ServersSound(s: string) returns (open: string, e: Elements)
    requires ParseServers(s).Parsed?
    ensures AllSpace(open) && ElementsOk(e) && s == open + (['['] + (ElementsText(e) + ParseServers(s).rest))
  {
    hide ServerElements, SkipSpace, MembersText, MembersOk, NextText, NextOk;
    open := ExpectSound(s, '[');
    var inner := Expect(s, '[').rest;
    var lead := SpaceSplit(inner);
    var e' := ElementsSound(SkipSpace(inner));
    e := Element(lead + e'.open, e'.members, e'.next);
    ElementText(lead + e'.open, e'.members, e'.next, ParseServers(s).rest);
    ElementText(e'.open, e'.members, e'.next, ParseServers(s).rest);
    hide ElementsText;
    assert e' == Element(e'.open, e'.members, e'.next);
  }

  lemma ConfigInv(s: string, servers: Option<seq<Entry>>)
    requires ConfigMembers(s, servers).Parsed? && Head(SkipSpace(s)) != '}'
    ensures ParseString(SkipSpace(s)).Parsed? && Expect(ParseString(SkipSpace(s)).rest, ':').Parsed?
    ensures ParseString(SkipSpace(s)).value == "chain_servers"
    ensures var v := Expect(ParseString(SkipSpace(s)).rest, ':').rest;
            && ParseServers(v).Parsed?
            && ConfigMembers(s, servers) == ConfigTail(ParseServers(v).rest, Some(ParseServers(v).value))
  {
    hide SkipSpace, ParseString, Expect, ParseServers, ConfigTail;
  }

  lemma {:induction false} ConfigSound(s: string, servers: Option<seq<Entry>>) returns (b: ConfigBody)
    requires ConfigMembers(s, servers).Parsed?
    ensures ConfigOk(b) && s == ConfigText(b) + ConfigMembers(s, servers).rest
    decreases |s|, 1
  {
    if Head(SkipSpace(s)) == '}' {
      var ws := TokenSound(s, '}');
      b := NoServers(ws);
    } else {
      ConfigInv(s, servers);
      hide ConfigMembers, SkipSpace, ParseString, Expect, ParseServers, ConfigTail, StrText, ConfigTailText, ConfigTailOk, KeyOk, ElementsText, ElementsOk;
      var key, colon := KeySound(s);
      var v := Expect(ParseString(SkipSpace(s)).rest, ':').rest;
      var open, e := ServersSound(v);
      var tail := ConfigTailSound(ParseServers(v).rest, Some(ParseServers(v).value));
      b := Servers(key, colon, open, e, tail);
      ServersText(key, colon, open, e, tail, ConfigMembers(s, servers).rest);
    }
  }

  lemma {:induction false} ConfigTailSound(s: string, servers: Option<seq<Entry>>) returns (t: ConfigEnd)
    requires ConfigTail(s, servers).Parsed?
    ensures ConfigTailOk(t) && s == ConfigTailText(t) + ConfigTail(s, servers).rest
    decreases |s|, 0
  {
    hide SkipSpace, ConfigText, ConfigOk, ConfigMembers;
    if Head(SkipSpace(s)) == ',' {
      var ws := TokenSound(s, ',');
      var more := ConfigSound(SkipSpace(s)[1..], servers);
      t := MoreConfig(ws, more);
      MoreText(ws, more, ConfigTail(s, servers).rest);
    } else {
      var ws := TokenSound(s, '}');
      t := EndConfig(ws);
    }
  }

  lemma MoreText(ws: string, more: ConfigBody, rest: string)
    ensures ConfigTailText(MoreConfig(ws, more)) + rest == ws + ([','] + (ConfigText(more) + rest))
  {
    hide ConfigText;
  }

  lemma DocSound(t: string) returns (d: Doc, after: string)
    requires ParseConfig(t).Some?
    ensures DocOk(d) && Head(after) == NUL && t == DocText(d) + after
  {
    hide ConfigMembers, SkipSpace, ConfigText, ConfigOk;
    var open := ExpectSound(t, '{');
    var inner := Expect(t, '{').rest;
    var body := ConfigSound(inner, None);
    var rest := ConfigMembers(inner, None).rest;
    var end := SpaceSplit(rest);
    after := SkipSpace(rest);
    d := Doc(open, body, end);
    DocTextOf(d, after);
  }

  lemma DocTextOf(d: Doc, after: string)
    ensures DocText(d) + after == d.open + (['{'] + (ConfigText(d.body) + (d.end + after)))
  {
    hide ConfigText;
  }

  /** A text is a rendering of a tree with this meaning, up to the terminator. */
  ghost predicate Means(t: string, list: seq<Entry>) {
    exists d: Doc, after: string :: Renders(t, d, after) && DocMeaning(d) == Some(list)
  }

  ghost predicate Renders(t: string, d: Doc, after: string) {
    DocOk(d) && Head(after) == NUL && t == DocText(d) + after
  }

  /** The parser accepts exactly the texts with a meaning, and returns it. */
  lemma ParserExact(t: string, list: seq<Entry>)
    ensures ParseConfig(t) == Some(list) <==> Means(t, list)
  {
    hide ParseConfig, DocOk, DocText, DocMeaning;
    if ParseConfig(t) == Some(list) {
      var d, after := DocSound(t);
      DocParses(d, after);
      assert Renders(t, d, after);
    }
    if Means(t, list) {
      var d: Doc, after: string :| Renders(t, d, after) && DocMeaning(d) == Some(list);
      DocParses(d, after);
    }
  }

  // ----- every list can be written down

  predicate Writable(list: seq<Entry>) {
    list != [] && forall i :: 0 <= i < |list| ==> list[i].host != "" && NUL !in list[i].host && PortOk(list[i].port)
  }

  function PrintItem(c: char): (i: Item)
    requires c != NUL
    ensures ItemOk(i) && ItemValue(i) == c
  {
    if c == '"' then Escaped('"') else if c == '\\' then Escaped('\\') else Plain(c)
  }

  function PrintItems(s: string): (items: seq<Item>)
    requires NUL !in s
    ensures ItemsOk(items) && BodyValue(items) == s
  {
    if s == [] then [] else
    var items := [PrintItem(s[0])] + PrintItems(s[1..]);
    assert items[1..] == PrintItems(s[1..]);
    items
  }

  function PrintNumber(n: nat): (d: string)
    ensures d != [] && AllDigits(d) && Decimal(d) == n
  {
    var last := ('0' as int + n % 10) as char;
    if n < 10 then
      assert [last][..0] == [];
      [last]
    else
      var d := PrintNumber(n / 10) + [last];
      assert d[..|d| - 1] == PrintNumber(n / 10);
      d
  }

  function PrintKey(name: string, ws: string): (s: Str)
    requires NUL !in name && AllSpace(ws)
    ensures KeyOk(s, name)
  {
    Str(ws, PrintItems(name))
  }

  function PrintServer(e: Entry, ws: string): (m: Members)
    requires e.host != "" && NUL !in e.host && PortOk(e.port) && AllSpace(ws)
  {
    HostMember(PrintKey("host", ws), ws, Str(ws, PrintItems(e.host)),
               Comma(ws, PortMember(PrintKey("port", ws), ws, ws, PrintNumber(e.port), Close(ws))))
  }

  lemma PrintedServer(e: Entry, ws: string)
    requires e.host != "" && NUL !in e.host && PortOk(e.port) && AllSpace(ws)
    ensures MembersOk(PrintServer(e, ws)) && MembersMeaning(PrintServer(e, ws), None, None) == Some(e)
  {
    hide PrintKey, PrintItems, PrintNumber, KeyOk, ItemsOk, AllSpace;
    var end := Close(ws);
    var port := PortMember(PrintKey("port", ws), ws, ws, PrintNumber(e.port), end);
    var tail := Comma(ws, port);
    assert TailOk(end) && TailMeaning(end, Some(e.host), Some(e.port)) == Some(e);
    assert MembersOk(port) && MembersMeaning(port, Some(e.host), None) == Some(e);
    assert TailOk(tail) && TailMeaning(tail, Some(e.host), None) == Some(e);
  }

  function PrintList(list: seq<Entry>, ws: string): Elements
    requires Writable(list) && AllSpace(ws)
  {
    Element(ws, PrintServer(list[0], ws), if |list| == 1 then EndArray(ws) else NextElement(ws, PrintList(list[1..], ws)))
  }

  lemma {:induction false} PrintedList(list: seq<Entry>, ws: string)
    requires Writable(list) && AllSpace(ws)
    ensures ElementsOk(PrintList(list, ws)) && ElementsMeaning(PrintList(list, ws)) == Some(list)
  {
    hide PrintServer, MembersOk, MembersMeaning, AllSpace;
    PrintedServer(list[0], ws);
    if |list| == 1 {
      assert NextOk(EndArray(ws));
      assert list == [list[0]];
    } else {
      PrintedList(list[1..], ws);
      assert NextOk(NextElement(ws, PrintList(list[1..], ws)));
      assert list == [list[0]] + list[1..];
    }
  }

  /** The escapes there are, by character code. */
  lemma EscapeCodes(e: char, c: char)
    ensures Unescape(e) == Some(c) <==>
              (e as int, c as int) in {(34, 34), (92, 92), (47, 47), (98, 8), (102, 12), (110, 10), (114, 13), (116, 9)}
  {
  }

  /** The white space there is: blank, tab, line feed, vertical tab, form feed and carriage return. */
  lemma SpaceCodes(c: char)
    ensures IsSpace(c) <==> c as int == 32 || 9 <= c as int <= 13
  {
  }

  /** Every non-empty list of non-empty, NUL-free hosts and ports in range, laid out with any such white
      space before every token, for example over lines, is a text that parses back to it. */
  lemma EveryListWritable(list: seq<Entry>, ws: string) returns (d: Doc)
    requires Writable(list) && Raw(ws)
    ensures AllSpace(ws) && d == Doc(ws, Servers(PrintKey("chain_servers", ws), ws, ws, PrintList(list, ws), EndConfig(ws)), ws)
    ensures DocOk(d) && DocMeaning(d) == Some(list) && ParseConfig(DocText(d)) == Some(list)
  {
    hide PrintKey, PrintList, KeyOk, ElementsOk, ElementsMeaning, ParseConfig, DocText, AllSpace, IsSpace, DocOk, DocMeaning, Writable;
    RawSpaces(ws);
    PrintedList(list, ws);
    d := Doc(ws, Servers(PrintKey("chain_servers", ws), ws, ws, PrintList(list, ws), EndConfig(ws)), ws);
    DocPrinted(d, list);
    DocParses(d, "");
    assert DocText(d) + "" == DocText(d);
  }

  predicate Raw(ws: string) {
    forall i :: 0 <= i < |ws| ==> ws[i] as int == 32 || 9 <= ws[i] as int <= 13
  }

  lemma RawSpaces(ws: string)
    requires Raw(ws)
    ensures AllSpace(ws)
  {
    forall i | 0 <= i < |ws|
      ensures IsSpace(ws[i])
    {
      SpaceCodes(ws[i]);
    }
  }

  lemma DocPrinted(d: Doc, list: seq<Entry>)
    requires AllSpace(d.open) && AllSpace(d.end) && d.body.Servers? && d.body.tail.EndConfig? && AllSpace(d.body.tail.ws)
    requires KeyOk(d.body.key, "chain_servers") && AllSpace(d.body.colon) && AllSpace(d.body.open)
    requires ElementsOk(d.body.elements) && ElementsMeaning(d.body.elements) == Some(list)
    ensures DocOk(d) && DocMeaning(d) == Some(list)
  {
    hide KeyOk, ElementsOk, ElementsMeaning, AllSpace;
    assert ConfigTailOk(d.body.tail) && EndMeaning(d.body.tail, Some(list)) == Some(Some(list));
    assert ConfigOk(d.body) && ConfigMeaning(d.body, None) == Some(Some(list));
  }

  // ----- what such a text looks like

  predicate PlainOnly(s: string) {
    forall i :: 0 <= i < |s| ==> s[i] != '"' && s[i] != '\\' && s[i] != NUL
  }

  lemma {:induction false} PlainText(s: string)
    requires PlainOnly(s)
    ensures NUL !in s && BodyText(PrintItems(s)) == s
  {
    if s != [] {
      PlainText(s[1..]);
      assert NUL !in s;
      var items := PrintItems(s);
      assert items[0] == Plain(s[0]) && items[1..] == PrintItems(s[1..]);
      assert [s[0]] + s[1..] == s;
    }
  }

  function Quoted(ws: string, s: string): string {
    ws + (['"'] + (s + ['"']))
  }

  /** One server, its host given first. */
  function ServerLayout(e: Entry, ws: string): string {
    Quoted(ws, "host") + (ws + ([':'] + (Quoted(ws, e.host)
    + (ws + ([','] + (Quoted(ws, "port") + (ws + ([':'] + (ws + (PrintNumber(e.port) + (ws + ['}'])))))))))))
  }

  function ListLayout(list: seq<Entry>, ws: string): string
    requires list != []
  {
    ws + (['{'] + (ServerLayout(list[0], ws)
                   + (if |list| == 1 then ws + [']'] else ws + ([','] + ListLayout(list[1..], ws)))))
  }

  function FileLayout(list: seq<Entry>, ws: string): string
    requires list != []
  {
    ws + (['{'] + ((Quoted(ws, "chain_servers") + (ws + ([':'] + (ws + (['['] + (ListLayout(list, ws) + (ws + ['}'])))))))
                   + ws))
  }

  lemma KeyText(name: string, ws: string)
    requires PlainOnly(name) && NUL !in name && AllSpace(ws)
    ensures StrText(PrintKey(name, ws)) == Quoted(ws, name)
  {
    PlainText(name);
  }

  lemma ServerText(e: Entry, ws: string)
    requires e.host != "" && NUL !in e.host && PlainOnly(e.host) && PortOk(e.port) && AllSpace(ws)
    ensures MembersText(PrintServer(e, ws)) == ServerLayout(e, ws)
  {
    hide PrintItems, PrintNumber, BodyText, AllSpace;
    KeyText("host", ws);
    KeyText("port", ws);
    PlainText(e.host);
    var port := PortMember(PrintKey("port", ws), ws, ws, PrintNumber(e.port), Close(ws));
    hide PrintKey;
    assert TailText(Close(ws)) == ws + ['}'];
    assert MembersText(port) == Quoted(ws, "port") + (ws + ([':'] + (ws + (PrintNumber(e.port) + TailText(Close(ws))))));
    assert TailText(Comma(ws, port)) == ws + ([','] + MembersText(port));
    assert StrText(Str(ws, PrintItems(e.host))) == Quoted(ws, e.host);
    assert MembersText(PrintServer(e, ws))
        == StrText(PrintKey("host", ws)) + (ws + ([':'] + (StrText(Str(ws, PrintItems(e.host))) + TailText(Comma(ws, port)))));
  }

  lemma {:induction false} ListText(list: seq<Entry>, ws: string)
    requires Writable(list) && AllSpace(ws) && forall i :: 0 <= i < |list| ==> PlainOnly(list[i].host)
    ensures ElementsText(PrintList(list, ws)) == ListLayout(list, ws)
  {
    hide PrintServer, ServerLayout, AllSpace, MembersText, PlainOnly;
    ServerText(list[0], ws);
    if |list| > 1 {
      ListText(list[1..], ws);
    }
  }

  /** The file one would write by hand, any list of servers, any white space between the tokens, is accepted
      and means that list. */
  lemma FileAccepted(list: seq<Entry>, ws: string)
    requires Writable(list) && (forall i :: 0 <= i < |list| ==> PlainOnly(list[i].host)) && Raw(ws)
    ensures ParseConfig(FileLayout(list, ws)) == Some(list)
  {
    hide ParseConfig, PrintKey, PrintList, ListLayout, Quoted, DocOk, DocMeaning, ElementsText, AllSpace;
    RawSpaces(ws);
    var d := EveryListWritable(list, ws);
    ListText(list, ws);
    KeyText("chain_servers", ws);
    hide StrText;
    assert ConfigTailText(EndConfig(ws)) == ws + ['}'];
    assert DocText(d) == FileLayout(list, ws);
  }
}
