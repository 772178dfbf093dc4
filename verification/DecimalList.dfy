/** Lists of decimal numbers, as in `1,2,3`: the printer and the parser. */
module DecimalList {
  import opened Words
  import opened Separated

  const COMMA: char := ','
  const TWO_31: int := 0x8000_0000

  function Digit(d: nat): char
    requires d < 10
  {
    '0' + d as char
  }

  predicate IsDigit(c: char) { '0' <= c <= '9' }
  function DigitValue(c: char): nat requires IsDigit(c) { (c - '0') as nat }

  predicate AllDigits(s: string) { forall k | 0 <= k < |s| :: IsDigit(s[k]) }

  /** A number in decimal. */
  function Decimal(n: nat): string { if n < 10 then [Digit(n)] else Decimal(n / 10) + [Digit(n % 10)] }

  /** strtoul on digits. */
  function Value(s: string): nat
    requires AllDigits(s)
  {
    if s == [] then 0 else 10 * Value(s[..|s| - 1]) + DigitValue(s[|s| - 1])
  }

  lemma {:induction false} ValueDecimal(n: nat)
    ensures Decimal(n) != [] && AllDigits(Decimal(n)) && Value(Decimal(n)) == n
  {
    if n >= 10 {
      ValueDecimal(n / 10);
      assert Decimal(n)[..|Decimal(n)| - 1] == Decimal(n / 10);
    } else {
      assert Value([]) == 0;
      assert Decimal(n)[..0] == [];
    }
  }

  /** The printer's %d shows a word as a signed number. */
  function Printed(x: u32): string { if x < TWO_31 then Decimal(x) else ['-'] + Decimal(TWO_32 - x) }

  function PrintedAll(a: seq<u32>): (r: seq<string>)
    ensures |r| == |a|
  {
    seq(|a|, k requires 0 <= k < |a| => Printed(a[k]))
  }

  /** print_array_to_buffer, when everything fits. */
  function Print(a: seq<u32>): string { if a == [] then [] else Join(PrintedAll(a), COMMA) }

  /** What strtok yields: the parts that are not empty. */
  function Tokens(parts: seq<string>): seq<string> {
    if parts == [] then [] else (if parts[0] == [] then [] else [parts[0]]) + Tokens(parts[1..])
  }

  ghost function TokensOf(s: string): seq<string> { Tokens(Split(s, COMMA)) }

  lemma TokensSkip(rest: string)
    requires rest != [] && rest[0] == COMMA
    ensures TokensOf(rest) == TokensOf(rest[1..])
  {
    assert rest == [] + [COMMA] + rest[1..];
    SplitOnce([], COMMA, rest[1..]);
    TokensCons([], Split(rest[1..], COMMA));
  }

  lemma TokensCons(part: string, parts: seq<string>)
    ensures Tokens([part] + parts) == (if part == [] then [] else [part]) + Tokens(parts)
  {
    assert ([part] + parts)[1..] == parts;
  }

  lemma TokensNone()
    ensures TokensOf([]) == []
  {
    assert Split([], COMMA) == [[]] + [];
    TokensCons([], []);
  }

  lemma TokensNext(rest: string, p: int)
    requires rest != [] && rest[0] != COMMA && p == FindChar(rest, COMMA)
    ensures p != 0
    ensures TokensOf(rest) == if p == -1 then [rest] else [rest[..p]] + TokensOf(rest[p + 1..])
  {
    if p == -1 {
      assert Split(rest, COMMA) == [rest] + [];
      TokensCons(rest, []);
    } else {
      TokensCons(rest[..p], Split(rest[p + 1..], COMMA));
    }
  }

  function ParseToken(t: string): Option<u32> {
    if AllDigits(t) && Value(t) < TWO_32 then Some(Value(t)) else None
  }

  function ParseTokens(tokens: seq<string>): (r: Option<seq<u32>>)
    ensures r.Some? ==> |r.value| == |tokens|
  {
    if tokens == [] then Some([])
    else
      var before, last := ParseTokens(tokens[..|tokens| - 1]), ParseToken(tokens[|tokens| - 1]);
      if before.None? || last.None? then None else Some(before.value + [last.value])
  }

  /** get_uint32_array_from_string; without an array there is no capacity, and only the count matters. */
  ghost function Parse(s: string, capacity: Option<nat>): Option<seq<u32>> {
    var tokens := TokensOf(s);
    if tokens == [] || (capacity.Some? && capacity.value < |tokens|) then None else ParseTokens(tokens)
  }

  lemma {:induction false} ParsedTokens(tokens: seq<string>, a: seq<u32>)
    ensures ParseTokens(tokens) == Some(a) <==>
      |a| == |tokens| && forall k | 0 <= k < |a| :: AllDigits(tokens[k]) && Value(tokens[k]) == a[k]
  {
    if tokens != [] && a != [] && |a| == |tokens| {
      var n := |tokens| - 1;
      ParsedTokens(tokens[..n], a[..n]);
      assert a == a[..n] + [a[n]];
      forall k | 0 <= k < n ensures tokens[..n][k] == tokens[k] && a[..n][k] == a[k] {}
    }
  }

  /** A text is read as an array if and only if it has parts, no more than there is room for, and they are the
      numbers of the array written with digits alone. */
  lemma ParsedExactly(s: string, capacity: Option<nat>, a: seq<u32>)
    ensures Parse(s, capacity) == Some(a) <==>
      var tokens := TokensOf(s);
      && 0 < |tokens| == |a| && (capacity.Some? ==> |a| <= capacity.value)
      && forall k | 0 <= k < |a| :: AllDigits(tokens[k]) && Value(tokens[k]) == a[k]
  {
    ParsedTokens(TokensOf(s), a);
  }

  // ------------------------------------------------------------ round trip

  lemma PrintedToken(x: u32)
    ensures Printed(x) != [] && Free(Printed(x), COMMA)
    ensures ParseToken(Printed(x)) == if x < TWO_31 then Some(x) else None
  {
    if x < TWO_31 {
      ValueDecimal(x);
    } else {
      ValueDecimal(TWO_32 - x);
      assert !IsDigit(Printed(x)[0]);
    }
  }

  lemma {:induction false} TokensAll(parts: seq<string>)
    requires forall k | 0 <= k < |parts| :: parts[k] != []
    ensures Tokens(parts) == parts
  {
    if parts != [] {
      TokensAll(parts[1..]);
    }
  }

  predicate AllSmall(a: seq<u32>) { forall k | 0 <= k < |a| :: a[k] < TWO_31 }

  lemma ParseTokensSnoc(tokens: seq<string>, last: string)
    ensures ParseTokens(tokens + [last]) ==
      if ParseTokens(tokens).None? || ParseToken(last).None? then None
      else Some(ParseTokens(tokens).value + [ParseToken(last).value])
  {
    assert (tokens + [last])[..|tokens|] == tokens;
  }

  lemma PrintedSnoc(a: seq<u32>, x: u32)
    ensures PrintedAll(a + [x]) == PrintedAll(a) + [Printed(x)]
  {
  }

  lemma AllSmallSnoc(a: seq<u32>, x: u32)
    ensures AllSmall(a + [x]) <==> AllSmall(a) && x < TWO_31
  {
    assert forall k | 0 <= k < |a| :: (a + [x])[k] == a[k];
    assert (a + [x])[|a|] == x;
  }

  lemma {:induction false} ParsePrintedAll(a: seq<u32>)
    ensures ParseTokens(PrintedAll(a)) == if AllSmall(a) then Some(a) else None
  {
    if a != [] {
      var front, last := a[..|a| - 1], a[|a| - 1];
      assert a == front + [last];
      ParsePrintedAll(front);
      PrintedToken(last);
      PrintedSnoc(front, last);
      AllSmallSnoc(front, last);
      ParseTokensSnoc(PrintedAll(front), Printed(last));
    }
  }

  /** For every array that is not empty, parsing what was printed gives the array back if and only if no
      value has its top bit set; otherwise it fails. */
  lemma RoundTripExactly(a: seq<u32>)
    requires a != []
    ensures Parse(Print(a), Some(|a|)) == Some(a) <==> AllSmall(a)
    ensures Parse(Print(a), Some(|a|)) != Some(a) ==> Parse(Print(a), Some(|a|)) == None
  {
    forall k | 0 <= k < |a| ensures PrintedAll(a)[k] != [] && Free(PrintedAll(a)[k], COMMA) {
      PrintedToken(a[k]);
    }
    SplitJoin(PrintedAll(a), COMMA);
    TokensAll(PrintedAll(a));
    ParsePrintedAll(a);
  }

  /** The smallest number that is lost: it is printed as `-2147483648`. */
  lemma TopBitLost()
    ensures Parse(Print([0x8000_0000]), Some(1)) == None
  {
    RoundTripExactly([0x8000_0000]);
    assert !AllSmall([0x8000_0000]) by { assert [0x8000_0000][0] >= TWO_31; }
  }

  /** The pass that only counts and the pass that fills an array of that size agree. */
  lemma PassesAgree(s: string)
    ensures Parse(s, None).Some? ==> Parse(s, Some(|Parse(s, None).value|)) == Parse(s, None)
    ensures Parse(s, None).None? ==> forall n: nat :: Parse(s, Some(n)).None?
  {
  }

  // ------------------------------------------------------------ the code

  /** The length of the first `i` numbers as printed. */
  function TextLength(a: seq<u32>, i: nat): nat
    requires 0 < i <= |a|
  {
    |Join(PrintedAll(a)[..i], COMMA)|
  }

  lemma {:induction false} TextGrows(a: seq<u32>, i: nat, j: nat)
    requires 0 < i < j <= |a|
    ensures TextLength(a, i) < TextLength(a, j)
    decreases j
  {
    JoinPrefix(PrintedAll(a), j - 1);
    if i < j - 1 {
      TextGrows(a, i, j - 1);
    }
  }

  /** The size check forgets the zero that ends the text: every write stays inside the buffer if and only if no
      first part of the list, with its comma, fills the buffer to the last byte. */
  predicate NeverFull(size: nat, a: seq<u32>) { forall i | 0 < i <= |a| :: TextLength(a, i) + 1 != size }

  lemma StoppedAt(size: nat, a: seq<u32>, i: nat)
    requires i <= |a| && (i > 0 ==> TextLength(a, i) + 1 <= size) && (i < |a| ==> TextLength(a, i + 1) + 1 > size)
    ensures NeverFull(size, a) <==> i == 0 || TextLength(a, i) + 2 <= size
  {
    forall j | 0 < j <= |a| && j != i ensures TextLength(a, j) + 1 != size {
      if j < i {
        TextGrows(a, j, i);
      } else if i + 1 < j {
        TextGrows(a, i + 1, j);
      }
    }
  }

  /** print_array_to_buffer: every number is followed by a comma, and the last comma is cut off.  `reach` says how
      many bytes of the buffer were written, the zeros that end the text included. */
  method PrintArrayToBuffer(size: nat, a: seq<u32>) returns (buffer: Option<string>, reach: nat)
    ensures a == [] ==> buffer == Some("") && reach == 1
    ensures a != [] ==> buffer == if |Print(a)| + 1 <= size then Some(Print(a)) else None
    ensures a != [] ==> reach <= size + 1 && (reach <= size <==> NeverFull(size, a))
    ensures a != [] && buffer.Some? ==> reach == |Print(a)| + 2
  {
    if a == [] {
      return Some(""), 1;
    }
    var text := "";
    reach := 0;
    for i := 0 to |a|
      invariant text == if i == 0 then [] else Join(PrintedAll(a)[..i], COMMA) + [COMMA]
      invariant |text| <= size && reach == if i == 0 then 0 else |text| + 1
    {
      PrefixLonger(a, i);
      var temp := Printed(a[i]);
      if |temp| + 1 + |text| > size {
        StoppedAt(size, a, i);
        return None, reach;
      }
      text := text + temp + [COMMA];
      reach := |text| + 1;
    }
    assert PrintedAll(a)[..|a|] == PrintedAll(a);
    StoppedAt(size, a, |a|);
    return Some(text[..|text| - 1]), reach;
  }

  /** A buffer of the size that the check asks for is written past its end. */
  lemma ZeroBehindTheEnd()
    ensures !NeverFull(2, [7]) && |Print([7])| + 1 <= 2
  {
    assert PrintedAll([7]) == ["7"] && PrintedAll([7])[..1] == ["7"];
    assert TextLength([7], 1) == 1;
  }

  lemma JoinPrefix(parts: seq<string>, i: nat)
    requires i < |parts|
    ensures Join(parts[..i + 1], COMMA) == if i == 0 then parts[0] else Join(parts[..i], COMMA) + [COMMA] + parts[i]
    ensures |Join(parts[..i + 1], COMMA)| <= |Join(parts, COMMA)|
  {
    JoinGrows(parts, i);
    if i > 0 {
      JoinSnoc(parts[..i], parts[i], COMMA);
      assert parts[..i] + [parts[i]] == parts[..i + 1];
    }
  }

  lemma {:induction false} JoinGrows(parts: seq<string>, i: nat)
    requires i < |parts|
    ensures |Join(parts[..i + 1], COMMA)| <= |Join(parts, COMMA)|
    decreases |parts| - i
  {
    if i + 1 < |parts| {
      JoinGrows(parts, i + 1);
      JoinSnoc(parts[..i + 1], parts[i + 1], COMMA);
      assert parts[..i + 1] + [parts[i + 1]] == parts[..i + 2];
    } else {
      assert parts[..i + 1] == parts;
    }
  }

  lemma PrefixLonger(a: seq<u32>, i: nat)
    requires i < |a|
    ensures var parts := PrintedAll(a);
      && Join(parts[..i + 1], COMMA) == (if i == 0 then [] else Join(parts[..i], COMMA) + [COMMA]) + Printed(a[i])
      && |Join(parts[..i + 1], COMMA)| <= |Print(a)|
  {
    JoinPrefix(PrintedAll(a), i);
  }

  /** strtok: steps over commas and takes what stands before the next one. */
  method StrTok(text: string) returns (token: Option<string>, rest: string)
    ensures token.None? ==> TokensOf(text) == []
    ensures token.Some? ==> TokensOf(text) == [token.value] + TokensOf(rest) && |rest| < |text|
  {
    TokensNone();
    rest := text;
    while rest != [] && rest[0] == COMMA
      invariant TokensOf(rest) == TokensOf(text) && |rest| <= |text|
    {
      TokensSkip(rest);
      rest := rest[1..];
    }
    if rest == [] {
      return None, [];
    }
    var p := FindCharInStr(rest, COMMA);
    TokensNext(rest, p);
    if p == -1 {
      token, rest := Some(rest), [];
    } else {
      token, rest := Some(rest[..p]), rest[p + 1..];
    }
  }

  /** The first tokens were parsed to `values`, these are still to come. */
  predicate Parsed(tokens: seq<string>, values: seq<u32>, left: seq<string>) {
    && |values| <= |tokens| && ParseTokens(tokens[..|values|]) == Some(values) && tokens[|values|..] == left
  }

  /** get_uint32_array_from_string */
  method GetUint32ArrayFromString(s: string, capacity: Option<nat>) returns (r: Option<seq<u32>>)
    ensures r == Parse(s, capacity)
  {
    ghost var tokens := TokensOf(s);
    TokensNone();
    if s == [] {
      return None;
    }
    var values: seq<u32> := [];
    var token, rest := StrTok(s);
    assert tokens[..0] == [];
    while token.Some?
      invariant Parsed(tokens, values, if token.None? then [] else [token.value] + TokensOf(rest))
      invariant capacity.Some? ==> |values| <= capacity.value
      decreases token.Some?, |rest|
    {
      var value := ParseToken(token.value);
      TakeOne(tokens, values, token.value, TokensOf(rest));
      if value.None? || (capacity.Some? && |values| == capacity.value) {
        return None;
      }
      values := values + [value.value];
      token, rest := StrTok(rest);
    }
    AllTaken(tokens, values);
    return if values == [] then None else Some(values);
  }

  lemma AllTaken(tokens: seq<string>, values: seq<u32>)
    requires Parsed(tokens, values, [])
    ensures |tokens| == |values| && ParseTokens(tokens) == Some(values)
  {
    assert tokens[..|values|] == tokens;
  }

  lemma TakeOne(tokens: seq<string>, values: seq<u32>, token: string, left: seq<string>)
    requires Parsed(tokens, values, [token] + left)
    ensures |values| < |tokens| && (ParseToken(token).None? ==> ParseTokens(tokens).None?)
    ensures ParseToken(token).Some? ==> Parsed(tokens, values + [ParseToken(token).value], left)
  {
    var n := |values|;
    assert token == tokens[n..][0] == tokens[n];
    assert tokens[n + 1..] == tokens[n..][1..];
    OneBadToken(tokens, n);
    if ParseToken(token).Some? {
      ParseNext(tokens, n);
    }
  }

  lemma ParseNext(tokens: seq<string>, n: nat)
    requires n < |tokens| && ParseTokens(tokens[..n]).Some? && ParseToken(tokens[n]).Some?
    ensures ParseTokens(tokens[..n + 1]) == Some(ParseTokens(tokens[..n]).value + [ParseToken(tokens[n]).value])
  {
    assert tokens[..n + 1][..n] == tokens[..n];
  }

  lemma {:induction false} OneBadToken(tokens: seq<string>, n: nat)
    requires n < |tokens|
    ensures ParseToken(tokens[n]).None? ==> ParseTokens(tokens).None?
    decreases |tokens|
  {
    if n < |tokens| - 1 {
      OneBadToken(tokens[..|tokens| - 1], n);
    }
  }
}
