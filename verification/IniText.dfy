/** The text of an INI file: lines, blanks around words, and the section and entry lines.
    Text is a sequence of bytes. */
module IniText {
  import opened Words

  const TAB: u8 := 0x09
  const LF: u8 := 0x0A
  const CR: u8 := 0x0D
  const SPACE: u8 := 0x20
  const HASH: u8 := 0x23
  const SEMICOLON: u8 := 0x3B
  const EQUALS: u8 := 0x3D
  const OPEN: u8 := 0x5B
  const CLOSE: u8 := 0x5D

  predicate IsBreak(c: u8) { c == CR || c == LF }
  predicate IsBlank(c: u8) { c == CR || c == LF || c == SPACE || c == TAB }
  predicate IsInk(c: u8) { !IsBlank(c) }
  predicate IsRemark(c: u8) { c == HASH || c == SEMICOLON }

  /** IsValidNameChar: letters, digits and `_ : , . -`. */
  predicate IsNameChar(c: u8) {
    || 0x61 <= c <= 0x7A || 0x41 <= c <= 0x5A || 0x30 <= c <= 0x39
    || c == 0x5F || c == 0x3A || c == 0x2C || c == 0x2E || c == 0x2D
  }

  predicate IsValidName(s: seq<u8>) { forall k | 0 <= k < |s| :: IsNameChar(s[k]) }
  predicate AllBlank(s: seq<u8>) { forall k | 0 <= k < |s| :: IsBlank(s[k]) }

  /** A name as it may stand in a line. */
  predicate IsWord(s: seq<u8>) { s != [] && IsValidName(s) }

  predicate IsFirst(s: seq<u8>, p: u8 -> bool, i: nat, r: nat) {
    i <= r <= |s| && (r < |s| ==> p(s[r])) && forall k | i <= k < r :: !p(s[k])
  }

  lemma {:induction false} FirstExists(s: seq<u8>, p: u8 -> bool, i: nat)
    requires i <= |s|
    ensures exists r: nat :: IsFirst(s, p, i, r)
    decreases |s| - i
  {
    if i < |s| && !p(s[i]) {
      FirstExists(s, p, i + 1);
      var r: nat :| IsFirst(s, p, i + 1, r);
      assert IsFirst(s, p, i, r);
    } else {
      assert IsFirst(s, p, i, i);
    }
  }

  /** The first place from `i` on where `p` holds, or the end of the text. */
  ghost function First(s: seq<u8>, p: u8 -> bool, i: nat): (r: nat)
    requires i <= |s|
    ensures i <= r <= |s| && (r < |s| ==> p(s[r]))
    ensures forall k | i <= k < r :: !p(s[k])
  {
    FirstExists(s, p, i);
    var r: nat :| IsFirst(s, p, i, r);
    r
  }

  lemma FirstIs(s: seq<u8>, p: u8 -> bool, i: nat, r: nat)
    requires i <= r <= |s| && (r < |s| ==> p(s[r]))
    requires forall k | i <= k < r :: !p(s[k])
    ensures First(s, p, i) == r
  {
  }

  predicate IsHexDigit(c: u8) { 0x30 <= c <= 0x39 || 0x61 <= c <= 0x66 || 0x41 <= c <= 0x46 }

  const HYPHEN: u8 := 0x2D
  const GUID_LENGTH: nat := 36

  predicate AtHyphen(k: nat) { k == 8 || k == 13 || k == 18 || k == 23 }

  predicate IsGuid(s: seq<u8>) {
    |s| == GUID_LENGTH && forall k | 0 <= k < |s| :: if AtHyphen(k) then s[k] == HYPHEN else IsHexDigit(s[k])
  }

  /** A value may be a name or a GUID, but every GUID is a name already. */
  predicate IsValidValue(s: seq<u8>) { IsValidName(s) || IsGuid(s) }

  lemma ValuesAreNames(s: seq<u8>)
    ensures IsValidValue(s) <==> IsValidName(s)
  {
    if IsGuid(s) {
      forall k | 0 <= k < |s| ensures IsNameChar(s[k]) {
        assert if AtHyphen(k) then s[k] == HYPHEN else IsHexDigit(s[k]);
      }
    }
  }

  // ------------------------------------------------------------ lines

  /** Length of the first line of a text, its line break included. */
  ghost function LineLength(s: seq<u8>): (n: nat)
    requires s != []
    ensures 0 < n <= |s|
  {
    var b := First(s, IsBreak, 0);
    if b >= |s| - 1 then |s| else if s[b + 1] == LF then b + 2 else b + 1
  }

  /** A line has no break but in its last two bytes; unless it is the whole text it ends with one. */
  lemma LineShape(s: seq<u8>)
    requires s != []
    ensures var n := LineLength(s);
      && (forall k | 0 <= k < n - 2 :: !IsBreak(s[k]))
      && (n < |s| ==> IsBreak(s[n - 1]))
      && (n < |s| && s[n] == LF ==> n >= 2 && IsBreak(s[n - 2]))
  {
    var b := First(s, IsBreak, 0);
  }

  /** A line does not depend on what follows it: cut off behind its end, the text still begins with
      the same line.  This is why the second attempt, on a shortened source, fits its buffer. */
  lemma LineLengthAgain(s: seq<u8>)
    requires s != []
    ensures LineLength(s[..LineLength(s)]) == LineLength(s)
  {
    var n, b := LineLength(s), First(s, IsBreak, 0);
    FirstIs(s[..n], IsBreak, 0, b);
  }

  /** The text cut into lines. */
  ghost function Lines(s: seq<u8>): (r: seq<seq<u8>>) {
    if s == [] then [] else [s[..LineLength(s)]] + Lines(s[LineLength(s)..])
  }

  function Joined(parts: seq<seq<u8>>): seq<u8> { if parts == [] then [] else parts[0] + Joined(parts[1..]) }

  predicate IsLine(s: seq<u8>) { s != [] && forall k | 0 <= k < |s| - 2 :: !IsBreak(s[k]) }

  /** The lines of a text partition it: together they are the text, and each is a line. */
  lemma {:induction false} LinesPartition(s: seq<u8>)
    ensures Joined(Lines(s)) == s
    ensures forall k | 0 <= k < |Lines(s)| :: IsLine(Lines(s)[k])
  {
    if s != [] {
      var n := LineLength(s);
      LineShape(s);
      LinesPartition(s[n..]);
      JoinedCons(s[..n], Lines(s[n..]));
      assert s == s[..n] + s[n..];
    }
  }

  lemma JoinedCons(first: seq<u8>, parts: seq<seq<u8>>)
    ensures Joined([first] + parts) == first + Joined(parts)
  {
    assert ([first] + parts)[1..] == parts;
  }

  // ------------------------------------------------------------ trimming

  predicate IsTrimEnd(s: seq<u8>, n: nat, r: nat)
    requires n <= |s|
  {
    r <= n && (r > 0 ==> !IsBlank(s[r - 1])) && forall k | r <= k < n :: IsBlank(s[k])
  }

  lemma {:induction false} TrimEndExists(s: seq<u8>, n: nat)
    requires n <= |s|
    ensures exists r: nat :: IsTrimEnd(s, n, r)
  {
    if n > 0 && IsBlank(s[n - 1]) {
      TrimEndExists(s, n - 1);
      var r: nat :| IsTrimEnd(s, n - 1, r);
      assert IsTrimEnd(s, n, r);
    } else {
      assert IsTrimEnd(s, n, n);
    }
  }

  /** Where the trailing blanks of `s[..n]` begin. */
  ghost function TrimEnd(s: seq<u8>, n: nat): (r: nat)
    requires n <= |s|
    ensures r <= n && (r > 0 ==> !IsBlank(s[r - 1]))
    ensures forall k | r <= k < n :: IsBlank(s[k])
  {
    TrimEndExists(s, n);
    var r: nat :| IsTrimEnd(s, n, r);
    r
  }

  ghost function TrimStart(s: seq<u8>): (r: nat)
    ensures r <= |s|
  {
    First(s, IsInk, 0)
  }

  lemma StartBeforeEnd(s: seq<u8>)
    ensures TrimEnd(s, |s|) > 0 ==> TrimStart(s) < TrimEnd(s, |s|)
  {
  }

  ghost function Trimmed(s: seq<u8>): seq<u8> {
    StartBeforeEnd(s);
    if TrimEnd(s, |s|) == 0 then [] else s[TrimStart(s)..TrimEnd(s, |s|)]
  }

  /** A text without blanks at either end. */
  predicate Tight(t: seq<u8>) { t != [] ==> !IsBlank(t[0]) && !IsBlank(t[|t| - 1]) }

  /** Trimming takes blanks off both ends, all of them and nothing else ... */
  lemma TrimSplits(s: seq<u8>) returns (a: seq<u8>, b: seq<u8>)
    ensures s == a + Trimmed(s) + b && AllBlank(a) && AllBlank(b) && Tight(Trimmed(s))
  {
    StartBeforeEnd(s);
    if TrimEnd(s, |s|) == 0 {
      a, b := s, [];
    } else {
      a, b := s[..TrimStart(s)], s[TrimEnd(s, |s|)..];
    }
  }

  /** ... and that determines the result. */
  lemma TrimUnique(a: seq<u8>, t: seq<u8>, b: seq<u8>)
    requires AllBlank(a) && AllBlank(b) && Tight(t)
    ensures Trimmed(a + t + b) == t
  {
    var s := a + t + b;
    if t == [] {
      TrimEndIs(s, |s|, 0);
    } else {
      assert s[|a|] == t[0] && s[|a| + |t| - 1] == t[|t| - 1];
      FirstIs(s, IsInk, 0, |a|);
      TrimEndIs(s, |s|, |a| + |t|);
    }
  }

  lemma TrimEndIs(s: seq<u8>, n: nat, r: nat)
    requires r <= n <= |s| && (r > 0 ==> !IsBlank(s[r - 1]))
    requires forall k | r <= k < n :: IsBlank(s[k])
    ensures TrimEnd(s, n) == r
  {
  }

  /** A word with blanks around it. */
  lemma TrimWord(a: seq<u8>, w: seq<u8>, b: seq<u8>)
    requires AllBlank(a) && AllBlank(b) && IsWord(w)
    ensures Trimmed(a + w + b) == w && |a + w + b| > 0
  {
    assert IsNameChar(w[0]) && IsNameChar(w[|w| - 1]);
    TrimUnique(a, w, b);
  }

  // ------------------------------------------------------------ what a line says

  datatype Line =
    | BlankLine
    | RemarkLine(text: seq<u8>)
    | SectionLine(name: seq<u8>)
    | EntryLine(name: seq<u8>, value: seq<u8>)
    | BrokenEntry
    | InvalidLine

  predicate IsClose(c: u8) { c == CLOSE }
  predicate IsEquals(c: u8) { c == EQUALS }

  /** The name between `[` and the first `]`; what follows the bracket is not looked at. */
  ghost function ReadSection(s: seq<u8>): Line
    requires s != []
  {
    var close := First(s, IsClose, 1);
    if close == |s| || close <= 1 then InvalidLine
    else
      var name := Trimmed(s[1..close]);
      if IsWord(name) then SectionLine(name) else InvalidLine
  }

  /** The name before the first `=` and the value between it and a remark.  With a good name but
      without a good value the line is a broken entry. */
  ghost function ReadEntry(s: seq<u8>): Line {
    var eq := First(s, IsEquals, 0);
    if eq == |s| || eq == 0 || !IsWord(Trimmed(s[..eq])) then InvalidLine
    else
      var stop := First(s, IsRemark, eq + 1);
      if stop == eq + 1 || !IsWord(Trimmed(s[eq + 1..stop])) then BrokenEntry
      else EntryLine(Trimmed(s[..eq]), Trimmed(s[eq + 1..stop]))
  }

  ghost function ReadTrimmed(s: seq<u8>): Line {
    if s == [] then BlankLine
    else if IsRemark(s[0]) then RemarkLine(s)
    else if s[0] == OPEN then ReadSection(s)
    else ReadEntry(s)
  }

  ghost function ReadLine(line: seq<u8>): Line { ReadTrimmed(Trimmed(line)) }

  // ------------------------------------------------------------ the grammar of entry lines

  /** An entry written out: blanks may stand around both words, and a remark may follow. */
  datatype EntryText = EntryText(a: seq<u8>, name: seq<u8>, b: seq<u8>,
                                 c: seq<u8>, value: seq<u8>, d: seq<u8>, remark: seq<u8>) {
    predicate Ok() {
      && AllBlank(a) && AllBlank(b) && AllBlank(c) && AllBlank(d)
      && IsWord(name) && IsWord(value) && (remark != [] ==> IsRemark(remark[0]))
    }
    function Left(): seq<u8> { a + name + b }
    function Right(): seq<u8> { c + value + d }
    function Text(): seq<u8> { Entry(Left(), Right(), remark) }
  }

  predicate Without(s: seq<u8>, p: u8 -> bool) { forall k | 0 <= k < |s| :: !p(s[k]) }

  lemma WordWithout(a: seq<u8>, w: seq<u8>, b: seq<u8>)
    requires AllBlank(a) && AllBlank(b) && IsWord(w)
    ensures Without(a + w + b, IsEquals) && Without(a + w + b, IsRemark)
  {
  }

  /** A scan stops behind a stretch without hits. */
  lemma FirstBehind(s: seq<u8>, i: nat, body: seq<u8>, p: u8 -> bool)
    requires i + |body| <= |s| && s[i..i + |body|] == body && Without(body, p)
    requires i + |body| < |s| ==> p(s[i + |body|])
    ensures First(s, p, i) == i + |body|
  {
    forall k | i <= k < i + |body| ensures !p(s[k]) {
      assert s[k] == body[k - i];
    }
    FirstIs(s, p, i, i + |body|);
  }

  function Entry(left: seq<u8>, right: seq<u8>, remark: seq<u8>): (s: seq<u8>)
    ensures |s| == |left| + 1 + |right| + |remark|
    ensures s[0..|left|] == left && s[|left|] == EQUALS
    ensures s[|left| + 1..|left| + 1 + |right|] == right
    ensures s[|left| + 1 + |right|..] == remark
  {
    left + [EQUALS] + right + remark
  }

  /** What the two scans of an entry find. */
  lemma ReadAt(s: seq<u8>, eq: nat, stop: nat)
    requires First(s, IsEquals, 0) == eq && 0 < eq < |s| && First(s, IsRemark, eq + 1) == stop && eq + 1 < stop
    requires IsWord(Trimmed(s[..eq])) && IsWord(Trimmed(s[eq + 1..stop]))
    ensures ReadEntry(s) == EntryLine(Trimmed(s[..eq]), Trimmed(s[eq + 1..stop]))
  {
  }

  lemma EntryScanned(left: seq<u8>, right: seq<u8>, remark: seq<u8>)
    requires Without(left, IsEquals) && Without(right, IsRemark) && (remark != [] ==> IsRemark(remark[0]))
    ensures var s := Entry(left, right, remark);
      First(s, IsEquals, 0) == |left| && First(s, IsRemark, |left| + 1) == |left| + 1 + |right|
  {
    var s, stop := Entry(left, right, remark), |left| + 1 + |right|;
    assert stop < |s| ==> s[stop] == s[stop..][0];
    FirstBehind(s, 0, left, IsEquals);
    FirstBehind(s, |left| + 1, right, IsRemark);
  }

  lemma PartsRead(left: seq<u8>, right: seq<u8>, remark: seq<u8>)
    requires Without(left, IsEquals) && Without(right, IsRemark) && (remark != [] ==> IsRemark(remark[0]))
    requires IsWord(Trimmed(left)) && IsWord(Trimmed(right)) && left != [] && right != []
    ensures ReadEntry(Entry(left, right, remark)) == EntryLine(Trimmed(left), Trimmed(right))
  {
    EntryScanned(left, right, remark);
    var s := Entry(left, right, remark);
    assert s[..|left|] == s[0..|left|];
    ReadAt(s, |left|, |left| + 1 + |right|);
  }

  /** Every entry that is written out is read back. */
  lemma EntryReads(e: EntryText)
    requires e.Ok()
    ensures ReadEntry(e.Text()) == EntryLine(e.name, e.value)
  {
    WordWithout(e.a, e.name, e.b);
    WordWithout(e.c, e.value, e.d);
    TrimWord(e.a, e.name, e.b);
    TrimWord(e.c, e.value, e.d);
    PartsRead(e.Left(), e.Right(), e.remark);
  }

  lemma CutApart(s: seq<u8>, eq: nat, stop: nat)
    requires eq < stop <= |s|
    ensures s == s[..eq] + [s[eq]] + s[eq + 1..stop] + s[stop..]
  {
  }

  lemma EntryFacts(s: seq<u8>, name: seq<u8>, value: seq<u8>) returns (eq: nat, stop: nat)
    requires ReadEntry(s) == EntryLine(name, value)
    ensures eq < stop <= |s| && s[eq] == EQUALS && (stop < |s| ==> IsRemark(s[stop]))
    ensures Trimmed(s[..eq]) == name && Trimmed(s[eq + 1..stop]) == value && IsWord(name) && IsWord(value)
  {
    eq := First(s, IsEquals, 0);
    stop := First(s, IsRemark, eq + 1);
  }

  lemma EntryTextOf(e: EntryText, s: seq<u8>, eq: nat, stop: nat)
    requires eq < stop <= |s| && s[eq] == EQUALS
    requires e.Left() == s[..eq] && e.Right() == s[eq + 1..stop] && e.remark == s[stop..]
    ensures e.Text() == s
  {
    CutApart(s, eq, stop);
  }

  /** Whatever is read as an entry is an entry written out. */
  lemma EntryWritten(s: seq<u8>, name: seq<u8>, value: seq<u8>) returns (e: EntryText)
    requires ReadEntry(s) == EntryLine(name, value)
    ensures e.Ok() && e.name == name && e.value == value && e.Text() == s
  {
    var eq, stop := EntryFacts(s, name, value);
    var a, b := TrimSplits(s[..eq]);
    var c, d := TrimSplits(s[eq + 1..stop]);
    e := EntryText(a, name, b, c, value, d, s[stop..]);
    EntryTextOf(e, s, eq, stop);
  }

  // ------------------------------------------------------------ whole lines

  lemma Assoc(a: seq<u8>, b: seq<u8>, c: seq<u8>)
    ensures a + b + c == a + (b + c)
  {
  }

  lemma WordStarts(e: EntryText)
    requires e.Ok() && e.a == []
    ensures e.Text()[0] == e.name[0] && IsNameChar(e.Text()[0])
  {
    assert e.Text()[0] == e.Text()[0..|e.Left()|][0];
  }

  lemma WordEnds(e: EntryText)
    requires e.Ok() && e.d == [] && e.remark == []
    ensures var s := e.Text(); s[|s| - 1] == e.value[|e.value| - 1] && IsNameChar(s[|s| - 1])
  {
    var s := e.Text();
    assert s[|s| - 1] == e.Right()[|e.Right()| - 1];
  }

  // Regrouping: what stands before an entry joins its left part, what stands behind it its remark,
  // or its right part if there is no remark.
  lemma Regroup(x: seq<u8>, a: seq<u8>, w: seq<u8>, b: seq<u8>)
    ensures (x + a) + w + b == x + (a + w + b) && a + w + (b + x) == (a + w + b) + x
  {
  }

  lemma EntryBefore(x: seq<u8>, left: seq<u8>, right: seq<u8>, remark: seq<u8>)
    ensures Entry(x + left, right, remark) == x + Entry(left, right, remark)
  {
  }

  lemma EntryBehind(left: seq<u8>, right: seq<u8>, remark: seq<u8>, y: seq<u8>)
    ensures Entry(left, right, remark + y) == Entry(left, right, remark) + y
  {
  }

  lemma EntryLonger(left: seq<u8>, right: seq<u8>, y: seq<u8>)
    ensures Entry(left, right + y, []) == Entry(left, right, []) + y
  {
  }

  /** Blanks before and behind an entry belong to it. */
  lemma Widened(e: EntryText, x: seq<u8>, y: seq<u8>) returns (w: EntryText)
    requires e.Ok() && AllBlank(x) && AllBlank(y)
    ensures w == e.(a := w.a, d := w.d, remark := w.remark)
    ensures w.Ok() && w.Text() == x + e.Text() + y
  {
    Regroup(x, e.a, e.name, e.b);
    EntryBefore(x, e.Left(), e.Right(), e.remark);
    if e.remark == [] {
      w := e.(a := x + e.a, d := e.d + y);
      Regroup(y, e.c, e.value, e.d);
      EntryLonger(x + e.Left(), e.Right(), y);
    } else {
      w := e.(a := x + e.a, remark := e.remark + y);
      EntryBehind(x + e.Left(), e.Right(), e.remark, y);
    }
  }

  /** Taking the blanks off again, first those before the entry, ... */
  lemma NarrowedLeft(e: EntryText)
    requires e.Ok()
    ensures e.(a := []).Ok() && e.Text() == e.a + e.(a := []).Text()
  {
    NoBlanksBefore(e.a, e.name, e.b);
    EntryBefore(e.a, [] + e.name + e.b, e.Right(), e.remark);
  }

  lemma NoBlanksBefore(a: seq<u8>, name: seq<u8>, b: seq<u8>)
    ensures a + name + b == a + ([] + name + b)
  {
  }

  predicate Ends(e: EntryText) { if e.remark == [] then e.d == [] else !IsBlank(e.remark[|e.remark| - 1]) }

  lemma EntryTight(e: EntryText)
    requires e.Ok() && e.a == [] && Ends(e)
    ensures Tight(e.Text())
  {
    WordStarts(e);
    if e.remark == [] {
      WordEnds(e);
    } else {
      RemarkEnds(e);
    }
  }

  lemma BlanksBehind(e: EntryText)
    requires e.Ok() && e.remark == []
    ensures e.(d := []).Ok() && e.Text() == e.(d := []).Text() + e.d
  {
    NoBlanksBehind(e.c, e.value, e.d);
    EntryLonger(e.Left(), e.c + e.value + [], e.d);
  }

  lemma NoBlanksBehind(c: seq<u8>, value: seq<u8>, d: seq<u8>)
    ensures c + value + d == (c + value + []) + d
  {
  }

  lemma BlanksBehindRemark(e: EntryText, r: nat)
    requires e.Ok() && 0 < r <= |e.remark|
    ensures e.(remark := e.remark[..r]).Ok() && e.Text() == e.(remark := e.remark[..r]).Text() + e.remark[r..]
  {
    assert e.remark == e.remark[..r] + e.remark[r..];
    EntryBehind(e.Left(), e.Right(), e.remark[..r], e.remark[r..]);
  }

  /** ... then those behind it. */
  lemma NarrowedRight(e: EntryText) returns (t: EntryText, y: seq<u8>)
    requires e.Ok() && e.a == []
    ensures t == e.(d := t.d, remark := t.remark)
    ensures t.Ok() && AllBlank(y) && Tight(t.Text()) && e.Text() == t.Text() + y
  {
    if e.remark == [] {
      t, y := e.(d := []), e.d;
      BlanksBehind(e);
    } else {
      var r := TrimEnd(e.remark, |e.remark|);
      t, y := e.(remark := e.remark[..r]), e.remark[r..];
      BlanksBehindRemark(e, r);
    }
    EntryTight(t);
  }

  lemma RemarkEnds(e: EntryText)
    requires e.remark != []
    ensures e.Text()[|e.Text()| - 1] == e.remark[|e.remark| - 1]
  {
  }

  /** An entry written out, trimmed, is an entry written out with the same words. */
  lemma TrimmedEntry(e: EntryText) returns (t: EntryText)
    requires e.Ok()
    ensures t.Ok() && t.a == [] && t.name == e.name && t.value == e.value && Trimmed(e.Text()) == t.Text()
  {
    var y: seq<u8>;
    NarrowedLeft(e);
    t, y := NarrowedRight(e.(a := []));
    Assoc(e.a, t.Text(), y);
    TrimUnique(e.a, t.Text(), y);
  }

  lemma EntryTextReads(e: EntryText)
    requires e.Ok()
    ensures ReadLine(e.Text()) == EntryLine(e.name, e.value)
  {
    var t := TrimmedEntry(e);
    WordStarts(t);
    EntryReads(t);
  }

  lemma EntryLineWritten(line: seq<u8>, name: seq<u8>, value: seq<u8>) returns (e: EntryText)
    requires ReadLine(line) == EntryLine(name, value)
    ensures e.Ok() && e.Text() == line && e.name == name && e.value == value
  {
    var x, y := TrimSplits(line);
    e := EntryWritten(Trimmed(line), name, value);
    e := Widened(e, x, y);
  }

  /** The exact meaning of an entry line, its line break included among the blanks: a line is read as
      `name = value` if and only if it is that entry written out. */
  lemma EntryLinesExactly(line: seq<u8>, name: seq<u8>, value: seq<u8>)
    ensures ReadLine(line) == EntryLine(name, value) <==>
      exists e: EntryText :: e.Ok() && e.Text() == line && e.name == name && e.value == value
  {
    if e: EntryText :| e.Ok() && e.Text() == line && e.name == name && e.value == value {
      EntryTextReads(e);
    }
    if ReadLine(line) == EntryLine(name, value) {
      var e := EntryLineWritten(line, name, value);
    }
  }

  /** A section header written out; whatever follows the bracket is ignored. */
  datatype SectionText = SectionText(a: seq<u8>, b: seq<u8>, name: seq<u8>, c: seq<u8>, rest: seq<u8>) {
    predicate Ok() { AllBlank(a) && AllBlank(b) && AllBlank(c) && IsWord(name) }
    function Inner(): seq<u8> { b + name + c }
    function Text(): seq<u8> { a + Bracketed(Inner(), rest) }
  }

  function Bracketed(inner: seq<u8>, rest: seq<u8>): (s: seq<u8>)
    ensures |s| == |inner| + 2 + |rest| && s[0] == OPEN
    ensures s[1..1 + |inner|] == inner && s[1 + |inner|] == CLOSE && s[2 + |inner|..] == rest
  {
    [OPEN] + inner + [CLOSE] + rest
  }

  lemma SectionReads(inner: seq<u8>, rest: seq<u8>)
    requires Without(inner, IsClose) && IsWord(Trimmed(inner)) && inner != []
    ensures ReadSection(Bracketed(inner, rest)) == SectionLine(Trimmed(inner))
  {
    FirstBehind(Bracketed(inner, rest), 1, inner, IsClose);
  }

  lemma BracketedBehind(inner: seq<u8>, rest: seq<u8>, y: seq<u8>)
    ensures Bracketed(inner, rest + y) == Bracketed(inner, rest) + y
  {
  }

  lemma BracketedTight(inner: seq<u8>, rest: seq<u8>)
    requires rest == [] || !IsBlank(rest[|rest| - 1])
    ensures Tight(Bracketed(inner, rest))
  {
    var t := Bracketed(inner, rest);
    assert t[|t| - 1] == if rest == [] then CLOSE else rest[|rest| - 1];
  }

  /** A header, trimmed, is still a header with the same brackets. */
  lemma TrimmedSection(e: SectionText) returns (rest: seq<u8>)
    requires e.Ok()
    ensures Trimmed(e.Text()) == Bracketed(e.Inner(), rest)
  {
    var n := TrimEnd(e.rest, |e.rest|);
    rest := e.rest[..n];
    TrimmedBracket(e.a, e.Inner(), rest, e.rest[n..]);
    assert e.rest == rest + e.rest[n..];
  }

  lemma TrimmedBracket(a: seq<u8>, inner: seq<u8>, rest: seq<u8>, y: seq<u8>)
    requires AllBlank(a) && AllBlank(y) && (rest == [] || !IsBlank(rest[|rest| - 1]))
    ensures Trimmed(a + Bracketed(inner, rest + y)) == Bracketed(inner, rest)
  {
    var t := Bracketed(inner, rest);
    BracketedBehind(inner, rest, y);
    BracketedTight(inner, rest);
    TrimUnique(a, t, y);
    Assoc(a, t, y);
  }

  lemma BracketedApart(s: seq<u8>, close: nat)
    requires 1 < close < |s| && s[0] == OPEN && s[close] == CLOSE
    ensures s == Bracketed(s[1..close], s[close + 1..])
  {
  }

  lemma WordClosed(a: seq<u8>, w: seq<u8>, b: seq<u8>)
    requires AllBlank(a) && AllBlank(b) && IsWord(w)
    ensures Without(a + w + b, IsClose)
  {
  }

  /** Every section header that is written out is read back. */
  lemma SectionTextReads(e: SectionText)
    requires e.Ok()
    ensures ReadLine(e.Text()) == SectionLine(e.name)
  {
    var rest := TrimmedSection(e);
    TrimWord(e.b, e.name, e.c);
    WordClosed(e.b, e.name, e.c);
    SectionReads(e.Inner(), rest);
  }

  /** Whatever is read as a section header is one written out. */
  lemma SectionWritten(line: seq<u8>, name: seq<u8>) returns (e: SectionText)
    requires ReadLine(line) == SectionLine(name)
    ensures e.Ok() && e.Text() == line && e.name == name
  {
    var s := Trimmed(line);
    var x, y := TrimSplits(line);
    var close := First(s, IsClose, 1);
    var b, c := TrimSplits(s[1..close]);
    e := SectionText(x, b, name, c, s[close + 1..] + y);
    BracketedApart(s, close);
    BracketedBehind(s[1..close], s[close + 1..], y);
    Assoc(x, s, y);
    assert e.Inner() == s[1..close];
  }

  /** The exact meaning of a section line. */
  lemma SectionLinesExactly(line: seq<u8>, name: seq<u8>)
    ensures ReadLine(line) == SectionLine(name) <==>
      exists e: SectionText :: e.Ok() && e.Text() == line && e.name == name
  {
    if e: SectionText :| e.Ok() && e.Text() == line && e.name == name {
      SectionTextReads(e);
    }
    if ReadLine(line) == SectionLine(name) {
      var e := SectionWritten(line, name);
    }
  }

  /** `[a]` is a header ... */
  lemma ShortHeader()
    ensures ReadLine([OPEN, 0x61, CLOSE]) == SectionLine([0x61])
  {
    var e := SectionText([], [], [0x61], [], []);
    assert e.Text() == [OPEN, 0x61, CLOSE];
    SectionTextReads(e);
  }

  /** ... and `b=$` an entry with a good name and a bad value. */
  lemma BadValue()
    ensures ReadLine([0x62, EQUALS, 0x24]) == BrokenEntry
  {
    var entry, name, value := [0x62, EQUALS, 0x24], [0x62], [0x24];
    assert [] + entry + [] == entry && [] + name + [] == name && [] + value + [] == value;
    TrimUnique([], entry, []);
    TrimUnique([], name, []);
    TrimUnique([], value, []);
    BadValueScanned(entry);
    assert !IsNameChar(value[0]);
  }

  lemma BadValueScanned(entry: seq<u8>)
    requires entry == [0x62, EQUALS, 0x24]
    ensures First(entry, IsEquals, 0) == 1 && First(entry, IsRemark, 2) == 3
    ensures entry[..1] == [0x62] && entry[2..3] == [0x24]
  {
    FirstIs(entry, IsEquals, 0, 1);
    FirstIs(entry, IsRemark, 2, 3);
  }
}
