/** Connections through switches, as in `switch_1:port_1-port_2,switch_2:port_1-port_3`. */
module SwitchConn {
  import opened Words
  import opened Separated
  import DecimalList

  const COMMA: char := ','
  const COLON: char := ':'
  const HYPHEN: char := '-'

  datatype Port = Port(id: int, enabled: bool, name: string)
  datatype Switch = Switch(id: int, enabled: bool, name: string, ports: seq<Port>)

  /** A way into a switch and out of it, by ids. */
  datatype Conn = Conn(switchId: int, ups: int, dps: int)

  // ------------------------------------------------------------ lookups

  function SwitchById(config: seq<Switch>, id: int): (r: Option<Switch>)
    ensures r.Some? ==> r.value in config && r.value.enabled && r.value.id == id && id > 0
  {
    if config == [] || id <= 0 then None
    else if config[0].id == id && config[0].enabled then Some(config[0])
    else SwitchById(config[1..], id)
  }

  function SwitchByName(config: seq<Switch>, name: string): (r: Option<Switch>)
    ensures r.Some? ==> r.value in config && r.value.enabled && r.value.name == name
  {
    if config == [] then None
    else if config[0].name == name && config[0].enabled then Some(config[0])
    else SwitchByName(config[1..], name)
  }

  function PortById(ports: seq<Port>, id: int): (r: Option<Port>)
    ensures r.Some? ==> r.value in ports && r.value.enabled && r.value.id == id && id > 0
  {
    if ports == [] || id <= 0 then None
    else if ports[0].enabled && ports[0].id == id then Some(ports[0])
    else PortById(ports[1..], id)
  }

  function PortByName(ports: seq<Port>, name: string): (r: Option<Port>)
    ensures r.Some? ==> r.value in ports && r.value.enabled && r.value.name == name
  {
    if ports == [] then None
    else if ports[0].enabled && ports[0].name == name then Some(ports[0])
    else PortByName(ports[1..], name)
  }

  /** Ids and names determine each other, and names hold no separators. */
  predicate WellNamedPorts(ports: seq<Port>) {
    && (forall a, b | a in ports && b in ports :: a.id == b.id || a.name == b.name ==> a == b)
    && (forall a | a in ports :: a.id > 0 && Free(a.name, HYPHEN) && Free(a.name, COMMA))
  }

  predicate WellNamed(config: seq<Switch>) {
    && (forall a, b | a in config && b in config :: a.id == b.id || a.name == b.name ==> a == b)
    && (forall a | a in config :: a.id > 0 && Free(a.name, COLON) && Free(a.name, COMMA) && WellNamedPorts(a.ports))
  }

  lemma {:induction false} PortFound(ports: seq<Port>, p: Port)
    requires p in ports && p.enabled && p.id > 0
    requires forall a, b | a in ports && b in ports :: a.id == b.id || a.name == b.name ==> a == b
    ensures PortById(ports, p.id) == Some(p) && PortByName(ports, p.name) == Some(p)
  {
    if ports[0] != p {
      PortFound(ports[1..], p);
    }
  }

  lemma {:induction false} SwitchFound(config: seq<Switch>, s: Switch)
    requires s in config && s.enabled && s.id > 0
    requires forall a, b | a in config && b in config :: a.id == b.id || a.name == b.name ==> a == b
    ensures SwitchById(config, s.id) == Some(s) && SwitchByName(config, s.name) == Some(s)
  {
    if config[0] != s {
      SwitchFound(config[1..], s);
    }
  }

  /** Switches as the configuration parser builds them: named after their numbers, as are their ports. */
  predicate Built(config: seq<Switch>) {
    && (forall a, b | a in config && b in config && a.id == b.id :: a == b)
    && (forall a | a in config :: a.id > 0 && a.name == "switch_" + DecimalList.Decimal(a.id) && BuiltPorts(a.ports))
  }

  predicate BuiltPorts(ports: seq<Port>) {
    && (forall a, b | a in ports && b in ports && a.id == b.id :: a == b)
    && (forall a | a in ports :: a.id > 0 && a.name == "port_" + DecimalList.Decimal(a.id))
  }

  lemma NumberedName(stem: string, a: nat, b: nat)
    requires Free(stem, HYPHEN) && Free(stem, COMMA) && Free(stem, COLON)
    ensures var name := stem + DecimalList.Decimal(a);
      && Free(name, HYPHEN) && Free(name, COMMA) && Free(name, COLON)
      && (name == stem + DecimalList.Decimal(b) ==> a == b)
  {
    DecimalList.ValueDecimal(a);
    DecimalList.ValueDecimal(b);
    var name := stem + DecimalList.Decimal(a);
    assert name[|stem|..] == DecimalList.Decimal(a);
    assert (stem + DecimalList.Decimal(b))[|stem|..] == DecimalList.Decimal(b);
  }

  lemma BuiltIsWellNamed(config: seq<Switch>)
    requires Built(config)
    ensures WellNamed(config)
  {
    forall a, b | a in config && b in config
      ensures Free(a.name, COLON) && Free(a.name, COMMA) && (a.name == b.name ==> a == b)
    {
      NumberedName("switch_", a.id, b.id);
    }
    forall s | s in config ensures WellNamedPorts(s.ports) {
      forall a, b | a in s.ports && b in s.ports
        ensures Free(a.name, HYPHEN) && Free(a.name, COMMA) && (a.name == b.name ==> a == b)
      {
        NumberedName("port_", a.id, b.id);
      }
    }
  }

  // ------------------------------------------------------------ one connection

  predicate Exists(config: seq<Switch>, conn: Conn) {
    var s := SwitchById(config, conn.switchId);
    s.Some? && PortById(s.value.ports, conn.ups).Some? && PortById(s.value.ports, conn.dps).Some?
  }

  function ConnText(config: seq<Switch>, conn: Conn): string
    requires Exists(config, conn)
  {
    var s := SwitchById(config, conn.switchId).value;
    s.name + [COLON] + (PortById(s.ports, conn.ups).value.name + [HYPHEN] + PortById(s.ports, conn.dps).value.name)
  }

  /** ParseSwitchString */
  ghost function ParseConn(config: seq<Switch>, text: string): (r: Option<Conn>) {
    var colon := FindChar(text, COLON);
    if colon == -1 then None
    else
      var s := SwitchByName(config, text[..colon]);
      var rest := text[colon + 1..];
      var hyphen := FindChar(rest, HYPHEN);
      if s.None? || hyphen == -1 then None
      else
        var p1, p2 := PortByName(s.value.ports, rest[..hyphen]), PortByName(s.value.ports, rest[hyphen + 1..]);
        if p1.None? || p2.None? then None else Some(Conn(s.value.id, p1.value.id, p2.value.id))
  }

  lemma FoundBehind(head: string, c: char, rest: string)
    requires Free(head, c)
    ensures var s := head + [c] + rest; FindChar(s, c) == |head| && s[..|head|] == head && s[|head| + 1..] == rest
  {
    SplitOnce(head, c, rest);
  }

  /** Where the two separators stand. */
  lemma SeparatorsAt(a: string, b: string, d: string)
    requires Free(a, COLON) && Free(b, HYPHEN)
    ensures var text := a + [COLON] + (b + [HYPHEN] + d); var rest := text[|a| + 1..];
      && FindChar(text, COLON) == |a| && text[..|a|] == a
      && FindChar(rest, HYPHEN) == |b| && rest[..|b|] == b && rest[|b| + 1..] == d
  {
    FoundBehind(a, COLON, b + [HYPHEN] + d);
    FoundBehind(b, HYPHEN, d);
  }

  lemma ParseConnAt(config: seq<Switch>, text: string, colon: nat, hyphen: nat)
    requires FindChar(text, COLON) == colon && FindChar(text[colon + 1..], HYPHEN) == hyphen
    requires SwitchByName(config, text[..colon]).Some?
    requires PortByName(SwitchByName(config, text[..colon]).value.ports, text[colon + 1..][..hyphen]).Some?
    requires PortByName(SwitchByName(config, text[..colon]).value.ports, text[colon + 1..][hyphen + 1..]).Some?
    ensures var s := SwitchByName(config, text[..colon]).value; var rest := text[colon + 1..];
      ParseConn(config, text) ==
        Some(Conn(s.id, PortByName(s.ports, rest[..hyphen]).value.id, PortByName(s.ports, rest[hyphen + 1..]).value.id))
  {
  }

  lemma ParseConnOf(config: seq<Switch>, a: string, b: string, d: string)
    requires Free(a, COLON) && Free(b, HYPHEN) && SwitchByName(config, a).Some?
    requires PortByName(SwitchByName(config, a).value.ports, b).Some? &&
      PortByName(SwitchByName(config, a).value.ports, d).Some?
    ensures var s := SwitchByName(config, a).value;
      ParseConn(config, a + [COLON] + (b + [HYPHEN] + d)) ==
        Some(Conn(s.id, PortByName(s.ports, b).value.id, PortByName(s.ports, d).value.id))
  {
    SeparatorsAt(a, b, d);
    ParseConnAt(config, a + [COLON] + (b + [HYPHEN] + d), |a|, |b|);
  }

  lemma ParseConnText(config: seq<Switch>, conn: Conn)
    requires WellNamed(config) && Exists(config, conn)
    ensures ParseConn(config, ConnText(config, conn)) == Some(conn) && Free(ConnText(config, conn), COMMA)
  {
    var s := SwitchById(config, conn.switchId).value;
    var p1, p2 := PortById(s.ports, conn.ups).value, PortById(s.ports, conn.dps).value;
    SwitchFound(config, s);
    PortFound(s.ports, p1);
    PortFound(s.ports, p2);
    ParseConnOf(config, s.name, p1.name, p2.name);
  }

  lemma CutAt(s: string, p: nat)
    requires p < |s|
    ensures s == s[..p] + [s[p]] + s[p + 1..]
  {
  }

  lemma ConnTextParse(config: seq<Switch>, text: string)
    requires WellNamed(config) && ParseConn(config, text).Some?
    ensures Exists(config, ParseConn(config, text).value) && ConnText(config, ParseConn(config, text).value) == text
  {
    var colon := FindChar(text, COLON);
    var s := SwitchByName(config, text[..colon]).value;
    var rest := text[colon + 1..];
    var hyphen := FindChar(rest, HYPHEN);
    SwitchFound(config, s);
    PortFound(s.ports, PortByName(s.ports, rest[..hyphen]).value);
    PortFound(s.ports, PortByName(s.ports, rest[hyphen + 1..]).value);
    CutAt(text, colon);
    CutAt(rest, hyphen);
  }

  // ------------------------------------------------------------ chains

  function Texts(config: seq<Switch>, conns: seq<Conn>): (r: seq<string>)
    requires forall k | 0 <= k < |conns| :: Exists(config, conns[k])
    ensures |r| == |conns|
  {
    seq(|conns|, k requires 0 <= k < |conns| => ConnText(config, conns[k]))
  }

  /** print_switch_conn_to_string */
  function Print(config: seq<Switch>, conns: seq<Conn>): string
    requires conns != [] && forall k | 0 <= k < |conns| :: Exists(config, conns[k])
  {
    Join(Texts(config, conns), COMMA)
  }

  /** Parses every text, or none. */
  function ParseAll(parse: string -> Option<Conn>, texts: seq<string>): (r: Option<seq<Conn>>)
    ensures r.Some? ==> |r.value| == |texts|
  {
    if texts == [] then Some([])
    else if parse(texts[0]).None? then None
    else
      var rest := ParseAll(parse, texts[1..]);
      if rest.None? then None else Some([parse(texts[0]).value] + rest.value)
  }

  ghost function Parser(config: seq<Switch>): string -> Option<Conn> { (text: string) => ParseConn(config, text) }

  /** ParseSwConnsString; no chain comes of a text with a bad connection. */
  ghost function Parse(config: seq<Switch>, text: string): Option<seq<Conn>> {
    ParseAll(Parser(config), Split(text, COMMA))
  }

  lemma {:induction false} ParseEach(parse: string -> Option<Conn>, texts: seq<string>, conns: seq<Conn>)
    requires |texts| == |conns| && forall k | 0 <= k < |conns| :: parse(texts[k]) == Some(conns[k])
    ensures ParseAll(parse, texts) == Some(conns)
  {
    if conns != [] {
      ParseEach(parse, texts[1..], conns[1..]);
      assert conns == [conns[0]] + conns[1..];
    }
  }

  lemma {:induction false} EachParsed(parse: string -> Option<Conn>, texts: seq<string>)
    requires ParseAll(parse, texts).Some?
    ensures forall k | 0 <= k < |texts| :: parse(texts[k]) == Some(ParseAll(parse, texts).value[k])
  {
    if texts != [] {
      EachParsed(parse, texts[1..]);
      forall k | 0 <= k < |texts| ensures parse(texts[k]) == Some(ParseAll(parse, texts).value[k]) {
        if k > 0 {
          assert texts[k] == texts[1..][k - 1];
        }
      }
    }
  }

  /** Parsing what was printed for a chain of existing connections gives the chain back. */
  lemma ParsePrint(config: seq<Switch>, conns: seq<Conn>)
    requires WellNamed(config) && conns != [] && forall k | 0 <= k < |conns| :: Exists(config, conns[k])
    ensures Parse(config, Print(config, conns)) == Some(conns)
  {
    var texts := Texts(config, conns);
    forall k | 0 <= k < |conns| ensures Parser(config)(texts[k]) == Some(conns[k]) && Free(texts[k], COMMA) {
      ParseConnText(config, conns[k]);
    }
    ParseEach(Parser(config), texts, conns);
    SplitJoin(texts, COMMA);
  }

  /** Printing what was parsed gives the text back, whatever was parsed successfully. */
  lemma PrintParse(config: seq<Switch>, text: string)
    requires WellNamed(config) && Parse(config, text).Some?
    ensures var conns := Parse(config, text).value;
      && conns != [] && (forall k | 0 <= k < |conns| :: Exists(config, conns[k]))
      && Print(config, conns) == text
  {
    var texts, conns := Split(text, COMMA), Parse(config, text).value;
    EachParsed(Parser(config), texts);
    forall k | 0 <= k < |conns| ensures Exists(config, conns[k]) && ConnText(config, conns[k]) == texts[k] {
      assert Parser(config)(texts[k]) == Some(conns[k]);
      ConnTextParse(config, texts[k]);
    }
    assert Texts(config, conns) == texts;
    JoinSplit(text, COMMA);
  }

  // ------------------------------------------------------------ the line buffer

  function Greater(a: nat, b: nat): nat { if a < b then b else a }

  /** The length of the longest text that is looked at: parsing stops at the first bad one. */
  function Longest(parse: string -> Option<Conn>, texts: seq<string>): nat {
    if texts == [] then 0
    else Greater(|texts[0]|, if parse(texts[0]).None? then 0 else Longest(parse, texts[1..]))
  }

  /** The texts that are looked at. */
  predicate LookedAt(parse: string -> Option<Conn>, texts: seq<string>, k: nat)
    requires k < |texts|
  {
    forall j | 0 <= j < k :: parse(texts[j]).Some?
  }

  /** All copies stay inside a buffer (of 512 bytes in the source), with room for the zero behind the text, if and
      only if all texts that are looked at are shorter than the buffer; the length of the line is not checked. */
  lemma {:induction false} LongestExactly(parse: string -> Option<Conn>, texts: seq<string>, size: nat)
    requires size > 0
    ensures Longest(parse, texts) < size <==>
      forall k | 0 <= k < |texts| && LookedAt(parse, texts, k) :: |texts[k]| < size
  {
    if texts != [] {
      var rest := texts[1..];
      LongestExactly(parse, rest, size);
      assert LookedAt(parse, texts, 0);
      forall k: nat | k < |rest|
        ensures LookedAt(parse, texts, k + 1) <==> parse(texts[0]).Some? && LookedAt(parse, rest, k)
      {
        if LookedAt(parse, texts, k + 1) {
          assert forall j | 0 <= j < k :: rest[j] == texts[j + 1];
        }
        if parse(texts[0]).Some? && LookedAt(parse, rest, k) {
          forall j | 0 <= j < k + 1 ensures parse(texts[j]).Some? {
            assert j > 0 ==> texts[j] == rest[j - 1];
          }
        }
      }
      if Longest(parse, texts) < size {
        forall k | 0 <= k < |texts| && LookedAt(parse, texts, k) ensures |texts[k]| < size {
          if k > 0 { assert texts[k] == rest[k - 1] && LookedAt(parse, rest, k - 1); }
        }
      } else if |texts[0]| < size {
        var k: nat :| k < |rest| && LookedAt(parse, rest, k) && |rest[k]| >= size;
        assert texts[k + 1] == rest[k] && LookedAt(parse, texts, k + 1);
      }
    }
  }

  /** A line of 512 name characters fills the buffer and leaves no room for the zero. */
  lemma LongPartCopied(config: seq<Switch>)
    ensures var text := seq(512, _ => 'a'); Longest(Parser(config), Split(text, COMMA)) >= 512
  {
    var text := seq(512, _ => 'a');
    assert COMMA !in text;
    assert Split(text, COMMA)[0] == text;
  }

  // ------------------------------------------------------------ the code

  method ParseSwitchString(config: seq<Switch>, text: string) returns (r: Option<Conn>)
    ensures r == ParseConn(config, text)
  {
    var str := text;
    var pos := FindCharInStr(str, COLON);
    if pos == -1 {
      return None;
    }
    var s := SwitchByName(config, str[..pos]);
    if s.None? {
      return None;
    }
    str := str[pos + 1..];
    pos := FindCharInStr(str, HYPHEN);
    if pos == -1 {
      return None;
    }
    var p1, p2 := PortByName(s.value.ports, str[..pos]), PortByName(s.value.ports, str[pos + 1..]);
    if p1.None? || p2.None? {
      return None;
    }
    return Some(Conn(s.value.id, p1.value.id, p2.value.id));
  }

  /** Every part is copied into a line buffer before it is parsed; `longest` is the most that was copied. */
  method ParseSwConnsString(config: seq<Switch>, text: string) returns (r: Option<seq<Conn>>, longest: nat)
    ensures r == Parse(config, text) && longest == Longest(Parser(config), Split(text, COMMA))
  {
    ghost var parse, left := Parser(config), Split(text, COMMA);
    longest := 0;
    var header: seq<Conn> := [];
    var rest, pos := text, 0;
    Begun(parse, left);
    while pos != -1
      invariant left == if pos == -1 then [] else Split(rest, COMMA)
      invariant Continued(parse, header, longest, left) == Finished(parse, Split(text, COMMA))
      decreases if pos == -1 then 0 else 1 + |rest|
    {
      pos := FindCharInStr(rest, COMMA);
      var size := if pos == -1 then |rest| else pos;
      SplitHere(rest, size, pos);
      left := if pos == -1 then [] else Split(rest[pos + 1..], COMMA);
      var conn := ParseSwitchString(config, rest[..size]);
      PartStep(parse, header, longest, rest[..size], left);
      longest := Greater(longest, size);
      if conn.None? {
        return None, longest;
      }
      header := header + [conn.value];
      if pos != -1 {
        rest := rest[pos + 1..];
      }
    }
    Ended(parse, header, longest);
    return Some(header), longest;
  }

  /** The first part of a text and the others. */
  lemma SplitHere(rest: string, size: nat, pos: int)
    requires pos == FindChar(rest, COMMA) && size == if pos == -1 then |rest| else pos
    ensures Split(rest, COMMA) == [rest[..size]] + if pos == -1 then [] else Split(rest[pos + 1..], COMMA)
  {
    if pos == -1 {
      WholeText(rest, size);
      NothingBehind(rest[..size]);
    } else {
      assert size == pos;
    }
  }

  lemma WholeText(rest: string, size: nat)
    requires size == |rest|
    ensures rest[..size] == rest
  {
  }

  lemma NothingBehind(text: string)
    ensures [text] == [text] + []
  {
  }

  /** What parsing all of `texts` comes to. */
  ghost function Finished(parse: string -> Option<Conn>, texts: seq<string>): (Option<seq<Conn>>, nat) {
    (ParseAll(parse, texts), Longest(parse, texts))
  }

  /** What it comes to from a chain found so far and the texts left. */
  ghost function Continued(parse: string -> Option<Conn>, header: seq<Conn>, longest: nat, left: seq<string>)
    : (Option<seq<Conn>>, nat)
  {
    (Behind(header, ParseAll(parse, left)), Greater(longest, Longest(parse, left)))
  }

  function Behind(header: seq<Conn>, r: Option<seq<Conn>>): Option<seq<Conn>> {
    if r.None? then None else Some(header + r.value)
  }

  lemma BehindCons(header: seq<Conn>, x: Conn, r: seq<Conn>)
    ensures Behind(header, Some([x] + r)) == Behind(header + [x], Some(r))
  {
    assert header + ([x] + r) == header + [x] + r;
  }

  lemma Begun(parse: string -> Option<Conn>, texts: seq<string>)
    ensures Continued(parse, [], 0, texts) == Finished(parse, texts)
  {
    var r := ParseAll(parse, texts);
    assert r.Some? ==> [] + r.value == r.value;
  }

  lemma Ended(parse: string -> Option<Conn>, header: seq<Conn>, longest: nat)
    ensures Continued(parse, header, longest, []) == (Some(header), longest)
  {
    assert header + [] == header;
  }

  /** One part. */
  lemma PartStep(parse: string -> Option<Conn>, header: seq<Conn>, longest: nat, text: string, left: seq<string>)
    ensures Continued(parse, header, longest, [text] + left) ==
      if parse(text).None? then (None, Greater(longest, |text|))
      else Continued(parse, header + [parse(text).value], Greater(longest, |text|), left)
  {
    assert ([text] + left)[1..] == left;
    if parse(text).Some? && ParseAll(parse, left).Some? {
      BehindCons(header, parse(text).value, ParseAll(parse, left).value);
    }
  }

  /** print_switch_conn_to_string: every connection is followed by a comma, the last of which is cut off. */
  method PrintSwitchConn(config: seq<Switch>, conns: seq<Conn>) returns (buffer: string)
    requires conns != [] && forall k | 0 <= k < |conns| :: Exists(config, conns[k])
    ensures buffer == Print(config, conns)
  {
    buffer := "";
    ghost var texts := Texts(config, conns);
    for i := 0 to |conns|
      invariant buffer == if i == 0 then [] else Join(texts[..i], COMMA) + [COMMA]
    {
      var s := SwitchById(config, conns[i].switchId).value;
      var p1, p2 := PortById(s.ports, conns[i].ups).value, PortById(s.ports, conns[i].dps).value;
      if i > 0 {
        JoinSnoc(texts[..i], texts[i], COMMA);
        assert texts[..i] + [texts[i]] == texts[..i + 1];
      }
      buffer := buffer + (s.name + [COLON] + (p1.name + [HYPHEN] + p2.name)) + [COMMA];
    }
    assert texts[..|conns|] == texts;
    buffer := buffer[..|buffer| - 1];
  }
}
