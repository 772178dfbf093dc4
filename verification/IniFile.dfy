/** The INI front end: a file is read line by line into a list of section and entry nodes,
    newest first, and settings are looked up in that list. */
module IniFile {
  import opened Words
  import opened IniText

  /** A node of the list: a section header, or an entry with a copy of its section's name.  After a
      broken entry the source leaves a node in the list whose strings have been freed; a name copied
      from such a node is as undefined as the node. */
  datatype Item =
    | Header(section: seq<u8>)
    | Setting(section: seq<u8>, name: seq<u8>, value: seq<u8>)
    | Freed

  /** What one line does to the list. */
  function Push(items: seq<Item>, line: Line): seq<Item> {
    match line
    case SectionLine(name) => [Header(name)] + items
    case EntryLine(name, value) =>
      if items == [] then items
      else if items[0].Freed? then [Freed] + items
      else [Setting(items[0].section, name, value)] + items
    case BrokenEntry => if items == [] then items else [Freed] + items
    case _ => items
  }

  function Items(lines: seq<Line>): seq<Item> {
    if lines == [] then [] else Push(Items(lines[..|lines| - 1]), lines[|lines| - 1])
  }

  function PushRemark(remarks: seq<seq<u8>>, line: Line): seq<seq<u8>> {
    if line.RemarkLine? then [line.text] + remarks else remarks
  }

  /** The remark lines, newest first. */
  function Remarks(lines: seq<Line>): seq<seq<u8>> {
    if lines == [] then [] else PushRemark(Remarks(lines[..|lines| - 1]), lines[|lines| - 1])
  }

  /** One text behind another: the remarks of the second come first; a line that is no remark adds none. */
  lemma {:induction false} RemarksConcat(a: seq<Line>, b: seq<Line>)
    ensures Remarks(a + b) == Remarks(b) + Remarks(a)
    ensures |b| == 1 ==> Remarks(b) == if b[0].RemarkLine? then [b[0].text] else []
  {
    if b == [] {
      assert a + b == a;
    } else {
      var n := |b| - 1;
      assert (a + b)[..|a + b| - 1] == a + b[..n];
      RemarksConcat(a, b[..n]);
      assert |b| == 1 ==> Remarks(b[..n]) == [];
    }
  }

  /** UpdateGetProfileString: the first node that matches. */
  function Lookup(items: seq<Item>, section: seq<u8>, name: seq<u8>): Option<seq<u8>> {
    if items == [] then None
    else if items[0].Setting? && items[0].section == section && items[0].name == name then Some(items[0].value)
    else Lookup(items[1..], section, name)
  }

  /** What the lines of a text say. */
  ghost function Contents(text: seq<u8>): seq<Line> { Read(Lines(text)) }

  ghost function Read(lines: seq<seq<u8>>): (r: seq<Line>)
    ensures |r| == |lines|
  {
    seq(|lines|, k requires 0 <= k < |lines| => ReadLine(lines[k]))
  }

  // ------------------------------------------------------------ what a file means

  /** Line `k` stands under a section header: the last header before it has this name. */
  predicate Under(lines: seq<Line>, k: nat, section: seq<u8>)
    requires k <= |lines|
  {
    exists h :: 0 <= h < k && lines[h] == SectionLine(section) && NoHeader(lines, h + 1, k)
  }

  predicate NoHeader(lines: seq<Line>, lo: nat, hi: nat)
    requires hi <= |lines|
  {
    forall j | lo <= j < hi :: !lines[j].SectionLine?
  }

  /** Line `k` sets a name of a section. */
  predicate Sets(lines: seq<Line>, k: nat, section: seq<u8>, name: seq<u8>)
    requires k < |lines|
  {
    lines[k].EntryLine? && lines[k].name == name && Under(lines, k, section)
  }

  /** No entry below a section header has a good name without a good value. */
  predicate WellFormed(lines: seq<Line>) {
    forall k | 0 <= k < |lines| && lines[k].BrokenEntry? :: NoHeader(lines, 0, k)
  }

  lemma UnderNext(lines: seq<Line>, k: nat, section: seq<u8>)
    requires k < |lines|
    ensures Under(lines, k + 1, section) <==>
      lines[k] == SectionLine(section) || (!lines[k].SectionLine? && Under(lines, k, section))
  {
    if Under(lines, k + 1, section) && lines[k] != SectionLine(section) {
      var h :| 0 <= h < k + 1 && lines[h] == SectionLine(section) && NoHeader(lines, h + 1, k + 1);
      assert NoHeader(lines, h + 1, k);
    }
    if !lines[k].SectionLine? && Under(lines, k, section) {
      var h :| 0 <= h < k && lines[h] == SectionLine(section) && NoHeader(lines, h + 1, k);
      assert NoHeader(lines, h + 1, k + 1);
    }
    if lines[k] == SectionLine(section) {
      assert NoHeader(lines, k + 1, k + 1);
    }
  }

  /** A header counts for at most one section. */
  lemma {:induction false} UnderOne(lines: seq<Line>, k: nat, a: seq<u8>, b: seq<u8>)
    requires k <= |lines| && Under(lines, k, a) && Under(lines, k, b)
    ensures a == b
  {
    if k > 0 {
      UnderNext(lines, k - 1, a);
      UnderNext(lines, k - 1, b);
      if Under(lines, k - 1, a) && Under(lines, k - 1, b) {
        UnderOne(lines, k - 1, a, b);
      }
    }
  }

  /** What a line says under its section does not depend on what follows. */
  lemma {:induction false} UnderPrefix(lines: seq<Line>, n: nat, k: nat, section: seq<u8>)
    requires k <= n <= |lines|
    ensures Under(lines[..n], k, section) <==> Under(lines, k, section)
  {
    if k > 0 {
      UnderPrefix(lines, n, k - 1, section);
      UnderNext(lines, k - 1, section);
      UnderNext(lines[..n], k - 1, section);
    }
  }

  /** The list is empty before the first header; in a well-formed file no node is freed, and the node
      at the head belongs to the current section. */
  lemma {:induction false} HeadIsCurrent(lines: seq<Line>)
    ensures Items(lines) == [] <==> NoHeader(lines, 0, |lines|)
    ensures Freed in Items(lines) <==> !WellFormed(lines)
    ensures WellFormed(lines) && Items(lines) != [] ==> Under(lines, |lines|, Items(lines)[0].section)
  {
    if lines != [] {
      var n := |lines| - 1;
      HeadIsCurrent(lines[..n]);
      WellFormedNext(lines);
      if Items(lines[..n]) != [] && !Items(lines[..n])[0].Freed? {
        UnderPrefix(lines, n, n, Items(lines[..n])[0].section);
        UnderNext(lines, n, Items(lines[..n])[0].section);
      }
      if lines[n].SectionLine? {
        UnderNext(lines, n, lines[n].name);
      }
    }
  }

  lemma WellFormedNext(lines: seq<Line>)
    requires lines != []
    ensures var n := |lines| - 1;
      && (WellFormed(lines) <==> WellFormed(lines[..n]) && (lines[n].BrokenEntry? ==> NoHeader(lines[..n], 0, n)))
      && (NoHeader(lines, 0, |lines|) <==> NoHeader(lines[..n], 0, n) && !lines[n].SectionLine?)
  {
    var n := |lines| - 1;
    forall k | 0 <= k <= n ensures NoHeader(lines[..n], 0, k) <==> NoHeader(lines, 0, k) {
      assert forall j | 0 <= j < k :: lines[..n][j] == lines[j];
    }
  }

  /** The last of the first `n` lines that sets the name. */
  predicate LastSets(lines: seq<Line>, n: nat, k: nat, section: seq<u8>, name: seq<u8>)
    requires n <= |lines|
  {
    k < n && Sets(lines, k, section, name) && forall j | k < j < n :: !Sets(lines, j, section, name)
  }

  /** What the list says of the first `n` lines. */
  predicate Answers(lines: seq<Line>, n: nat, section: seq<u8>, name: seq<u8>, r: Option<seq<u8>>)
    requires n <= |lines|
  {
    match r
    case None => forall k | 0 <= k < n :: !Sets(lines, k, section, name)
    case Some(v) => exists k: nat | k < n :: LastSets(lines, n, k, section, name) && lines[k].value == v
  }

  lemma AnswersPrefix(lines: seq<Line>, section: seq<u8>, name: seq<u8>, r: Option<seq<u8>>)
    requires lines != [] && Answers(lines[..|lines| - 1], |lines| - 1, section, name, r)
    ensures Answers(lines, |lines| - 1, section, name, r)
  {
    var n := |lines| - 1;
    forall k: nat | k < n ensures Sets(lines[..n], k, section, name) <==> Sets(lines, k, section, name) {
      UnderPrefix(lines, n, k, section);
    }
    if r.Some? {
      var k: nat :| k < n && LastSets(lines[..n], n, k, section, name) && lines[..n][k].value == r.value;
      assert LastSets(lines, n, k, section, name);
    }
  }

  lemma AnswersNext(lines: seq<Line>, n: nat, section: seq<u8>, name: seq<u8>, r: Option<seq<u8>>)
    requires n < |lines| && Answers(lines, n, section, name, r)
    ensures Answers(lines, n + 1, section, name, if Sets(lines, n, section, name) then Some(lines[n].value) else r)
  {
    if Sets(lines, n, section, name) {
      assert LastSets(lines, n + 1, n, section, name);
    } else if r.Some? {
      var k: nat :| k < n && LastSets(lines, n, k, section, name) && lines[k].value == r.value;
      assert LastSets(lines, n + 1, k, section, name);
    }
  }

  /** The list refines the file: in a well-formed file a setting is found if and only if some line
      sets it below a header of its section, and the value is that of the last such line. */
  lemma {:induction false} LookupRefines(lines: seq<Line>, section: seq<u8>, name: seq<u8>)
    requires WellFormed(lines)
    ensures Answers(lines, |lines|, section, name, Lookup(Items(lines), section, name))
  {
    if lines != [] {
      var n := |lines| - 1;
      var before := Items(lines[..n]);
      WellFormedNext(lines);
      HeadIsCurrent(lines[..n]);
      LookupRefines(lines[..n], section, name);
      AnswersPrefix(lines, section, name, Lookup(before, section, name));
      AnswersNext(lines, n, section, name, Lookup(before, section, name));
      HeadSets(lines, section, name);
    }
  }

  lemma HeadSets(lines: seq<Line>, section: seq<u8>, name: seq<u8>)
    requires lines != [] && WellFormed(lines)
    ensures Lookup(Items(lines), section, name) ==
      if Sets(lines, |lines| - 1, section, name) then Some(lines[|lines| - 1].value)
      else Lookup(Items(lines[..|lines| - 1]), section, name)
  {
    var n := |lines| - 1;
    var before := Items(lines[..n]);
    WellFormedNext(lines);
    HeadIsCurrent(lines[..n]);
    if before == [] {
      NotUnder(lines, n, section);
    } else {
      UnderPrefix(lines, n, n, before[0].section);
      if Under(lines, n, section) {
        UnderOne(lines, n, section, before[0].section);
      }
    }
  }

  lemma NotUnder(lines: seq<Line>, n: nat, section: seq<u8>)
    requires n <= |lines| && NoHeader(lines[..n], 0, n)
    ensures !Under(lines, n, section)
  {
    forall h | 0 <= h < n ensures !lines[h].SectionLine? {
      assert lines[..n][h] == lines[h];
    }
  }

  /** `[a]` and `b=$`, the shortest such file. */
  lemma BadValueFrees()
    ensures Freed in Items(Read([[OPEN, 0x61, CLOSE], [0x62, EQUALS, 0x24]]))
  {
    ShortHeader();
    BadValue();
    FreedBehind([0x61]);
    assert Read([[OPEN, 0x61, CLOSE], [0x62, EQUALS, 0x24]]) == [SectionLine([0x61]), BrokenEntry];
  }

  lemma FreedBehind(section: seq<u8>)
    ensures Items([SectionLine(section), BrokenEntry]) == [Freed, Header(section)]
  {
    var lines := [SectionLine(section), BrokenEntry];
    assert lines[..1] == [SectionLine(section)] && [SectionLine(section)][..0] == [];
    assert Items([]) == [] && Items([SectionLine(section)]) == Push(Items([]), SectionLine(section));
    assert Items(lines) == Push(Items(lines[..1]), lines[1]);
  }
}
