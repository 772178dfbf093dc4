/** The parser itself: it copies one line at a time into a line buffer, trims it in place and
    takes it apart in place. */
module IniParser {
  import opened Words
  import opened IniText
  import opened IniFile

  const MAX_LINE_LENGTH: nat := 512

  /** Where the first line of `data[at..at + size]` ends. */
  method FindLineEnd(data: array<u8>, at: nat, size: nat) returns (length: nat)
    requires at + size <= data.Length && size > 0
    ensures length == LineLength(data[at..at + size])
  {
    var p := at;
    while p < at + size && !IsBreak(data[p])
      invariant at <= p <= at + size
      invariant forall k | at <= k < p :: !IsBreak(data[k])
    {
      p := p + 1;
    }
    LineBreakIs(data[at..at + size], p - at);
    if p >= at + size - 1 {
      length := size;
    } else if data[p + 1] == LF {
      length := p - at + 2;
    } else {
      length := p - at + 1;
    }
  }

  lemma LineBreakIs(s: seq<u8>, b: nat)
    requires s != [] && b <= |s| && (b < |s| ==> IsBreak(s[b]))
    requires forall k | 0 <= k < b :: !IsBreak(s[k])
    ensures LineLength(s) == if b >= |s| - 1 then |s| else if s[b + 1] == LF then b + 2 else b + 1
  {
    FirstIs(s, IsBreak, 0, b);
  }

  /** Copies the first line of `data[at..at + size]` into the line buffer, if it fits, and clears
      the rest of the buffer; otherwise only tells how long the line is. */
  method ProfileGetLine(data: array<u8>, at: nat, size: nat, line: array<u8>) returns (ok: bool, length: nat)
    requires at + size <= data.Length && size > 0 && line != data
    modifies line
    ensures length == LineLength(data[at..at + size])
    ensures ok <==> length <= line.Length
    ensures if ok then line[..length] == data[at..at + length] else line[..] == old(line[..])
    ensures ok ==> forall k | length <= k < line.Length :: line[k] == 0
  {
    length := FindLineEnd(data, at, size);
    ok := length <= line.Length;
    if ok {
      for k := 0 to line.Length
        invariant forall j | 0 <= j < k :: line[j] == 0
      {
        line[k] := 0;
      }
      for k := 0 to length
        invariant line[..k] == data[at..at + k]
        invariant forall j | length <= j < line.Length :: line[j] == 0
      {
        line[k] := data[at + k];
      }
    }
  }

  /** Trims `size` bytes of a buffer in place: the trimmed text ends up at the front, and bytes
      outside the given ones do not change. */
  method ProfileTrim(buffer: array<u8>, at: nat, size: nat) returns (length: nat)
    requires at + size <= buffer.Length
    modifies buffer
    ensures length <= size && buffer[at..at + length] == Trimmed(old(buffer[at..at + size]))
    ensures forall k | 0 <= k < buffer.Length && !(at <= k < at + size) :: buffer[k] == old(buffer[k])
  {
    var end := TrimTail(buffer, at, size);
    if end == 0 {
      return 0;
    }
    length := TrimHead(buffer, at, at + end);
  }

  /** Trailing blanks do not matter. */
  lemma TailIs(s: seq<u8>, end: nat)
    requires end <= |s| && (end > 0 ==> !IsBlank(s[end - 1])) && forall k | end <= k < |s| :: IsBlank(s[k])
    ensures Trimmed(s[..end]) == Trimmed(s) && (end == 0 ==> Trimmed(s) == [])
  {
    var a, b := TrimSplits(s[..end]);
    var t := Trimmed(s[..end]);
    assert s == s[..end] + s[end..];
    Reassociate(a, t, b, s[end..]);
    TrimUnique(a, t, b + s[end..]);
  }

  lemma Reassociate(a: seq<u8>, t: seq<u8>, b: seq<u8>, c: seq<u8>)
    ensures a + t + b + c == a + t + (b + c)
  {
  }

  /** The first half of the trimming: where the trailing blanks begin. */
  method TrimTail(buffer: array<u8>, at: nat, size: nat) returns (end: nat)
    requires at + size <= buffer.Length
    ensures end <= size && (end == 0 ==> Trimmed(buffer[at..at + size]) == [])
    ensures end > 0 ==> !IsBlank(buffer[at + end - 1])
    ensures Trimmed(buffer[at..at + end]) == Trimmed(buffer[at..at + size])
  {
    end := SkipBack(buffer, at, size);
    ghost var s := buffer[at..at + size];
    assert s[..end] == buffer[at..at + end];
    TailIs(s, end);
  }

  method SkipBack(buffer: array<u8>, at: nat, size: nat) returns (end: nat)
    requires at + size <= buffer.Length
    ensures end <= size && (end > 0 ==> !IsBlank(buffer[at + end - 1]))
    ensures forall k | at + end <= k < at + size :: IsBlank(buffer[k])
  {
    var p: int := at + size - 1;
    while p >= at && IsBlank(buffer[p])
      invariant at - 1 <= p < at + size
      invariant forall k | p < k < at + size :: IsBlank(buffer[k])
    {
      p := p - 1;
    }
    end := p + 1 - at;
  }

  lemma TrimmedIs(s: seq<u8>, start: nat, end: nat)
    requires start < end <= |s| && TrimEnd(s, |s|) == end
    requires !IsBlank(s[start]) && forall k | 0 <= k < start :: IsBlank(s[k])
    ensures Trimmed(s) == s[start..end]
  {
    FirstIs(s, IsInk, 0, start);
  }

  /** The second half of the trimming: the text from `at` up to `stop` ends without a blank. */
  method TrimHead(buffer: array<u8>, at: nat, stop: nat) returns (length: nat)
    requires at < stop <= buffer.Length && !IsBlank(buffer[stop - 1])
    modifies buffer
    ensures length <= stop - at && buffer[at..at + length] == Trimmed(old(buffer[at..stop]))
    ensures forall k | 0 <= k < buffer.Length && !(at <= k < stop) :: buffer[k] == old(buffer[k])
  {
    var p := SkipBlanks(buffer, at, stop);
    length := stop - p;
    if p != at {
      MoveDown(buffer, at, p, length);
    }
  }

  method SkipBlanks(buffer: array<u8>, at: nat, stop: nat) returns (p: nat)
    requires at < stop <= buffer.Length && !IsBlank(buffer[stop - 1])
    ensures at <= p < stop && Trimmed(buffer[at..stop]) == buffer[p..stop]
  {
    p := at;
    while p < stop && IsBlank(buffer[p])
      invariant at <= p < stop
      invariant forall k | at <= k < p :: IsBlank(buffer[k])
    {
      p := p + 1;
    }
    BlanksSkipped(buffer[at..stop], p - at);
  }

  lemma BlanksSkipped(s: seq<u8>, start: nat)
    requires start < |s| && !IsBlank(s[start]) && !IsBlank(s[|s| - 1]) && forall k | 0 <= k < start :: IsBlank(s[k])
    ensures Trimmed(s) == s[start..]
  {
    TrimEndIs(s, |s|, |s|);
    TrimmedIs(s, start, |s|);
  }

  /** Moves `length` bytes from `p` down to `at`. */
  method MoveDown(buffer: array<u8>, at: nat, p: nat, length: nat)
    requires at < p && p + length <= buffer.Length
    modifies buffer
    ensures buffer[at..at + length] == old(buffer[p..p + length])
    ensures forall k | 0 <= k < buffer.Length && !(at <= k < at + length) :: buffer[k] == old(buffer[k])
  {
    for k := 0 to length
      invariant buffer[at..at + k] == old(buffer[p..p + k])
      invariant forall j | 0 <= j < buffer.Length && !(at <= j < at + k) :: buffer[j] == old(buffer[j])
    {
      buffer[at + k] := buffer[p + k];
      assert buffer[at..at + k + 1] == buffer[at..at + k] + [old(buffer[p + k])];
    }
  }

  method CheckName(buffer: array<u8>, at: nat, length: nat) returns (r: bool)
    requires at + length <= buffer.Length
    ensures r <==> IsValidName(buffer[at..at + length])
  {
    for k := at to at + length
      invariant forall j | at <= j < k :: IsNameChar(buffer[j])
    {
      if !IsNameChar(buffer[k]) {
        assert buffer[at..at + length][k - at] == buffer[k];
        return false;
      }
    }
    return true;
  }

  method CheckValue(buffer: array<u8>, at: nat, length: nat) returns (r: bool)
    requires at + length <= buffer.Length
    ensures r <==> IsValidName(buffer[at..at + length])
  {
    ValuesAreNames(buffer[at..at + length]);
    r := CheckName(buffer, at, length);
    if !r {
      r := IsGuid(buffer[at..at + length]);
    }
  }

  lemma PartOfPrefix(s: seq<u8>, size: nat, start: nat, stop: nat)
    requires start <= stop <= size <= |s|
    ensures s[..size][start..stop] == s[start..stop] && s[..size][..stop] == s[..stop] == s[0..stop]
  {
  }

  /** Scans from `p` up to `end` for a byte. */
  method Scan(buffer: array<u8>, p: nat, end: nat, stop: u8 -> bool) returns (r: nat)
    requires p <= end <= buffer.Length
    ensures p <= r && r == First(buffer[..end], stop, p)
  {
    r := p;
    while r < end && !stop(buffer[r])
      invariant p <= r <= end
      invariant forall k | p <= k < r :: !stop(buffer[k])
    {
      r := r + 1;
    }
    FirstIs(buffer[..end], stop, p, r);
  }

  /** The next line in a line buffer; if it does not fit, in a new buffer of its length. */
  method NextLine(data: array<u8>, current: nat, line: array<u8>) returns (buffer: array<u8>, length: nat)
    requires current < data.Length && line != data
    modifies line
    ensures fresh(buffer) || buffer == line
    ensures length == LineLength(data[current..]) && length <= buffer.Length
    ensures buffer[..length] == data[current..current + length]
  {
    buffer := line;
    var ok: bool;
    assert data[current..] == data[current..current + (data.Length - current)];
    ok, length := ProfileGetLine(data, current, data.Length - current, buffer);
    if !ok {
      buffer := SecondAttempt(data, current, length);
    }
  }

  /** The second attempt, on a source cut off behind the line, fits its buffer. */
  method SecondAttempt(data: array<u8>, current: nat, length: nat) returns (buffer: array<u8>)
    requires current < data.Length && length == LineLength(data[current..])
    ensures fresh(buffer) && buffer.Length == length && buffer[..length] == data[current..current + length]
  {
    buffer := new u8[length];
    LineLengthAgain(data[current..]);
    assert data[current..][..length] == data[current..current + length];
    var ok, again := ProfileGetLine(data, current, length, buffer);
  }

  lemma LinesStep(s: seq<u8>)
    requires s != []
    ensures Lines(s) == [s[..LineLength(s)]] + Lines(s[LineLength(s)..])
  {
  }

  lemma Assoc3(a: seq<seq<u8>>, b: seq<seq<u8>>, c: seq<seq<u8>>)
    ensures a + (b + c) == a + b + c
  {
  }

  lemma NextPart(all: seq<seq<u8>>, done: seq<seq<u8>>, rest: seq<u8>, n: nat)
    requires rest != [] && n == LineLength(rest) && all == done + Lines(rest)
    ensures all == done + [rest[..n]] + Lines(rest[n..])
  {
    LinesStep(rest);
    Assoc3(done, [rest[..n]], Lines(rest[n..]));
  }

  lemma ReadOneMore(done: seq<seq<u8>>, text: seq<u8>)
    ensures Items(Read(done + [text])) == Push(Items(Read(done)), ReadLine(text))
    ensures Remarks(Read(done + [text])) == PushRemark(Remarks(Read(done)), ReadLine(text))
  {
    ReadSnoc(done, text);
    NewestLine(Read(done), ReadLine(text));
  }

  lemma ReadSnoc(done: seq<seq<u8>>, text: seq<u8>)
    ensures Read(done + [text]) == Read(done) + [ReadLine(text)]
  {
  }

  lemma NewestLine(lines: seq<Line>, line: Line)
    ensures Items(lines + [line]) == Push(Items(lines), line)
    ensures Remarks(lines + [line]) == PushRemark(Remarks(lines), line)
  {
    assert (lines + [line])[..|lines|] == lines;
  }

  /** The lines `done` have been read, `rest` is still to be read. */
  ghost predicate Progress(all: seq<seq<u8>>, done: seq<seq<u8>>, rest: seq<u8>, items: seq<Item>,
                           remarks: seq<seq<u8>>) {
    all == done + Lines(rest) && items == Items(Read(done)) && remarks == Remarks(Read(done))
  }

  lemma Advance(all: seq<seq<u8>>, done: seq<seq<u8>>, rest: seq<u8>, n: nat, items: seq<Item>, remarks: seq<seq<u8>>)
    requires Progress(all, done, rest, items, remarks) && rest != [] && n == LineLength(rest)
    ensures var line := ReadLine(rest[..n]);
      Progress(all, done + [rest[..n]], rest[n..], Push(items, line), PushRemark(remarks, line))
  {
    NextPart(all, done, rest, n);
    ReadOneMore(done, rest[..n]);
  }

  lemma Finished(text: seq<u8>, done: seq<seq<u8>>, items: seq<Item>, remarks: seq<seq<u8>>)
    requires Progress(Lines(text), done, [], items, remarks)
    ensures items == Items(Contents(text)) && remarks == Remarks(Contents(text))
  {
    assert done == Lines(text);
  }

  class IniContext {
    var sections: seq<Item>
    var comments: seq<seq<u8>>

    constructor ()
      ensures sections == [] && comments == []
    {
      sections, comments := [], [];
    }

    method ProfileGetComments(line: array<u8>, size: nat)
      requires size <= line.Length
      modifies `comments
      ensures comments == [line[..size]] + old(comments)
    {
      comments := [line[..size]] + comments;
    }

    /** A section header: its node is prepended, or the line is skipped. */
    method ProfileGetSection(line: array<u8>, size: nat)
      requires 0 < size <= line.Length
      modifies line, `sections
      ensures sections == Push(old(sections), ReadSection(old(line[..size])))
    {
      var name := GetSectionName(line, size);
      if name != [] {
        sections := [Header(name)] + sections;
      }
    }

    /** One line, already trimmed. */
    method ProcessLine(line: array<u8>, size: nat)
      requires size <= line.Length
      modifies line, this
      ensures sections == Push(old(sections), ReadTrimmed(old(line[..size])))
      ensures comments == PushRemark(old(comments), ReadTrimmed(old(line[..size])))
    {
      if size == 0 {
        return;
      }
      assert old(line[..size])[0] == line[0];
      if line[0] == HASH || line[0] == SEMICOLON {
        ProfileGetComments(line, size);
      } else if line[0] == OPEN {
        ProfileGetSection(line, size);
      } else {
        ProfileGetEntry(line, size);
      }
    }

    method ReadOne(line: array<u8>, length: nat)
      requires length <= line.Length
      modifies line, this
      ensures sections == Push(old(sections), ReadLine(old(line[..length])))
      ensures comments == PushRemark(old(comments), ReadLine(old(line[..length])))
    {
      assert line[0..length] == line[..length];
      var size := ProfileTrim(line, 0, length);
      assert line[..size] == line[0..size];
      ProcessLine(line, size);
    }

    /** One turn of the loop: gets the line at `current` and reads it. */
    method ReadNext(data: array<u8>, current: nat, line: array<u8>, ghost all: seq<seq<u8>>, ghost done: seq<seq<u8>>)
      returns (buffer: array<u8>, next: nat, ghost done': seq<seq<u8>>)
      requires current < data.Length && line != data
      requires Progress(all, done, data[current..], sections, comments)
      modifies line, this
      ensures current < next <= data.Length && (fresh(buffer) || buffer == line)
      ensures Progress(all, done', data[next..], sections, comments)
    {
      ghost var rest := data[current..];
      var length: nat;
      buffer, length := NextLine(data, current, line);
      Advance(all, done, rest, length, sections, comments);
      assert rest[..length] == data[current..current + length] == buffer[..length];
      ReadOne(buffer, length);
      next := current + length;
      done' := done + [rest[..length]];
      assert rest[length..] == data[next..];
    }

    /** Reads a whole file. */
    method PreProcessDataFile(data: array<u8>)
      modifies this
      ensures sections == Items(Contents(data[..]))
      ensures comments == Remarks(Contents(data[..]))
    {
      sections, comments := [], [];
      var line := new u8[MAX_LINE_LENGTH];
      var current := 0;
      ghost var text := data[..];
      ghost var done: seq<seq<u8>> := [];
      assert data[0..] == text;
      while current < data.Length
        invariant current <= data.Length && fresh(line) && data[..] == text
        invariant Progress(Lines(text), done, data[current..], sections, comments)
      {
        line, current, done := ReadNext(data, current, line, Lines(text), done);
      }
      Finished(text, done, sections, comments);
    }

    /** OpenIniFile: an empty file is refused, every other one is read, bad lines and all. */
    static method OpenIniFile(data: array<u8>) returns (context: Option<IniContext>)
      ensures context.None? <==> data.Length == 0
      ensures context.Some? ==> fresh(context.value) && context.value.sections == Items(Contents(data[..]))
    {
      if data.Length == 0 {
        return None;
      }
      var c := new IniContext();
      c.PreProcessDataFile(data);
      context := Some(c);
    }

    /** GetStringFromDataFile, on a list without freed nodes. */
    method GetString(section: seq<u8>, name: seq<u8>) returns (value: Option<seq<u8>>)
      requires Freed !in sections
      ensures value == Lookup(sections, section, name)
    {
      for k := 0 to |sections|
        invariant Lookup(sections, section, name) == Lookup(sections[k..], section, name)
      {
        var item := sections[k];
        if item.Setting? && item.section == section && item.name == name {
          return Some(item.value);
        }
      }
      return None;
    }

    /** An entry: its node is prepended with the section of the node at the head.  With a good name
        and a bad value the node stays in the list although its strings are freed. */
    method ProfileGetEntry(line: array<u8>, size: nat)
      requires 0 < size <= line.Length
      modifies line, `sections
      ensures sections == Push(old(sections), ReadEntry(old(line[..size])))
    {
      ghost var entry: Line;
      entry := GetEntry(line, size);
    }

    method GetEntry(line: array<u8>, size: nat) returns (ghost entry: Line)
      requires 0 < size <= line.Length
      modifies line, `sections
      ensures entry == ReadEntry(old(line[..size])) && sections == Push(old(sections), entry)
    {
      var eq: nat, name: seq<u8>;
      eq, name, entry := GetName(line, size);
      if name == [] || sections == [] {
        return;
      }
      var value := GetValue(line, eq + 1, size);
      AddEntry(name, value);
    }

    method AddEntry(name: seq<u8>, value: seq<u8>)
      requires sections != []
      modifies `sections
      ensures sections == Push(old(sections), EntryOf(name, value))
    {
      if value == [] {
        sections := [Freed] + sections;
      } else {
        sections := [if sections[0].Freed? then Freed else Setting(sections[0].section, name, value)] + sections;
      }
    }
  }

  /** An entry with a good name; an empty value stands for a bad one. */
  function EntryOf(name: seq<u8>, value: seq<u8>): Line { if value == [] then BrokenEntry else EntryLine(name, value) }

  /** The name between the brackets, trimmed in place; nothing if there is no good name. */
  method GetSectionName(line: array<u8>, size: nat) returns (name: seq<u8>)
    requires 0 < size <= line.Length
    modifies line
    ensures ReadSection(old(line[..size])) == if name == [] then InvalidLine else SectionLine(name)
  {
    ghost var s := line[..size];
    var p := Scan(line, 1, size, IsClose);
    if p == size || p <= 1 {
      return [];
    }
    PartOfPrefix(line[..], size, 1, p);
    name := TrimName(line, 1, p - 1);
  }

  /** The name before `=`, trimmed in place; nothing if the line has no good name. */
  method GetName(line: array<u8>, size: nat) returns (eq: nat, name: seq<u8>, ghost entry: Line)
    requires 0 < size <= line.Length
    modifies line
    ensures entry == ReadEntry(old(line[..size]))
    ensures if name == [] then entry == InvalidLine
      else eq < size && entry == EntryOf(name, ValueFrom(line[..size], eq + 1))
  {
    ghost var before := line[..];
    assert line[..size] == before[..size];
    entry := ReadEntry(before[..size]);
    eq := Scan(line, 0, size, IsEquals);
    if eq == size || eq == 0 {
      NoName(before[..size], eq);
      return eq, [], entry;
    }
    assert line[0..eq] == before[0..eq];
    name := TrimName(line, 0, eq);
    ghost var after := line[..];
    assert line[..size] == after[..size];
    NameIsTrimmed(before, after, size, eq, name);
  }

  lemma NameIsTrimmed(before: seq<u8>, after: seq<u8>, size: nat, eq: nat, name: seq<u8>)
    requires 0 < eq < size <= |before| == |after| && eq == First(before[..size], IsEquals, 0)
    requires forall k | eq <= k < |before| :: after[k] == before[k]
    requires var v := Trimmed(before[0..eq]); name == if IsValidName(v) then v else []
    ensures ReadEntry(before[..size]) ==
      if name == [] then InvalidLine else EntryOf(name, ValueFrom(after[..size], eq + 1))
  {
    PartOfPrefix(before, size, 0, eq);
    NameIsRead(before[..size], after[..size], eq, name);
  }

  /** Trims a name in place; nothing if it is not a good one. */
  method TrimName(line: array<u8>, start: nat, size: nat) returns (name: seq<u8>)
    requires start + size <= line.Length
    modifies line
    ensures var v := Trimmed(old(line[start..start + size])); name == if IsValidName(v) then v else []
    ensures forall k | 0 <= k < line.Length && !(start <= k < start + size) :: line[k] == old(line[k])
  {
    var length := ProfileTrim(line, start, size);
    var valid := CheckName(line, start, length);
    name := if valid then line[start..start + length] else [];
  }

  lemma NoName(s: seq<u8>, eq: nat)
    requires eq == First(s, IsEquals, 0) && (eq == |s| || eq == 0)
    ensures ReadEntry(s) == InvalidLine
  {
  }

  lemma NameIsRead(s: seq<u8>, s': seq<u8>, eq: nat, name: seq<u8>)
    requires eq == First(s, IsEquals, 0) && 0 < eq < |s| == |s'| && forall k | eq <= k < |s| :: s'[k] == s[k]
    requires name == if IsValidName(Trimmed(s[..eq])) then Trimmed(s[..eq]) else []
    ensures ReadEntry(s) == if name == [] then InvalidLine else EntryOf(name, ValueFrom(s', eq + 1))
  {
    ValuePlace(s, s', eq);
  }

  /** The value from `start` on, up to a remark; nothing if it is not a good value. */
  method GetValue(line: array<u8>, start: nat, size: nat) returns (value: seq<u8>)
    requires start <= size <= line.Length
    modifies line
    ensures value == ValueFrom(old(line[..size]), start)
  {
    ghost var s := line[..size];
    var stop := Scan(line, start, size, IsRemark);
    if stop == start {
      return [];
    }
    PartOfPrefix(line[..], size, start, stop);
    value := TrimValue(line, start, stop - start);
  }

  method TrimValue(line: array<u8>, start: nat, size: nat) returns (value: seq<u8>)
    requires start + size <= line.Length
    modifies line
    ensures var v := Trimmed(old(line[start..start + size])); value == if IsWord(v) then v else []
  {
    var length := ProfileTrim(line, start, size);
    if length == 0 {
      return [];
    }
    var valid := CheckValue(line, start, length);
    return if valid then line[start..start + length] else [];
  }

  ghost function ValueFrom(s: seq<u8>, start: nat): seq<u8>
    requires start <= |s|
  {
    var v := Trimmed(s[start..First(s, IsRemark, start)]);
    if IsWord(v) then v else []
  }

  /** Trimming the name in place leaves the value where it was. */
  lemma ValuePlace(s: seq<u8>, s': seq<u8>, eq: nat)
    requires eq < |s| == |s'| && forall k | eq <= k < |s| :: s'[k] == s[k]
    ensures ValueFrom(s', eq + 1) == ValueFrom(s, eq + 1)
  {
    var stop := First(s, IsRemark, eq + 1);
    FirstIs(s', IsRemark, eq + 1, stop);
    assert s'[eq + 1..stop] == s[eq + 1..stop];
  }

  /** From bytes to settings: whatever is asked of a well-formed file after it was read is answered by
      the last line that sets the name below a header of the section, and by nothing else. */
  lemma FileAnswers(text: seq<u8>, section: seq<u8>, name: seq<u8>)
    requires WellFormed(Contents(text))
    ensures Freed !in Items(Contents(text))
    ensures Answers(Contents(text), |Contents(text)|, section, name, Lookup(Items(Contents(text)), section, name))
  {
    HeadIsCurrent(Contents(text));
    LookupRefines(Contents(text), section, name);
  }
}
