/**
 Text the daemon writes and reads back: unsigned decimals and newline-terminated lines.  A char stands for a byte.
 */
module Text {
  import opened Basics

  const UINT64_LIMIT := 0x1_0000_0000_0000_0000

  // ---------- decimals ----------

  predicate IsDigit(c: char) { '0' <= c <= '9' }

  predicate AllDigits(s: string) { forall i :: 0 <= i < |s| ==> IsDigit(s[i]) }

  function DigitValue(c: char): nat
    requires IsDigit(c)
  {
    c as int - '0' as int
  }

  function Digit(d: nat): char
    requires d < 10
  {
    ('0' as int + d) as char
  }

  // std::to_string
  function Print(n: nat): string {
    if n < 10 then [Digit(n)] else Print(n / 10) + [Digit(n % 10)]
  }

  function Value(s: string): nat
    requires AllDigits(s)
  {
    if s == [] then 0 else 10 * Value(s[..|s| - 1]) + DigitValue(s[|s| - 1])
  }

  // std::from_chars on an unsigned 64-bit integer that has to consume all of its input
  function ParseUint64(s: string): Option<nat> {
    if s == [] || !AllDigits(s) || Value(s) >= UINT64_LIMIT then None else Some(Value(s))
  }

  lemma {:induction false} PrintIsDecimal(n: nat)
    ensures AllDigits(Print(n)) && Value(Print(n)) == n && |Print(n)| > 0
    ensures n > 0 ==> Print(n)[0] != '0'
    decreases n
  {
    if n < 10 {
    } else {
      PrintIsDecimal(n / 10);
      assert Print(n)[..|Print(n)| - 1] == Print(n / 10);
    }
  }

  lemma {:induction false} PositiveValue(s: string)
    requires AllDigits(s) && s != [] && s[0] != '0'
    ensures Value(s) > 0
    decreases |s|
  {
    if |s| <= 1 {
    } else {
      PositiveValue(s[..|s| - 1]);
    }
  }

  lemma LastDigitOf(x: nat, d: nat)
    requires d < 10
    ensures (10 * x + d) / 10 == x && (10 * x + d) % 10 == d
  {}

  /** A decimal without a superfluous leading zero is what its value prints as. */
  lemma {:induction false} PrintOfValue(s: string)
    requires AllDigits(s) && (|s| == 1 || (|s| > 1 && s[0] != '0'))
    ensures Print(Value(s)) == s
    decreases |s|
  {
    var n := |s| - 1;
    if n == 0 {
      assert s[..0] == [];
      assert s == [s[0]];
    } else {
      PrintOfValue(s[..n]);
      PrintIsDecimal(Value(s[..n]));
      PositiveValue(s[..n]);
      LastDigitOf(Value(s[..n]), DigitValue(s[n]));
      assert s == s[..n] + [s[n]];
    }
  }

  lemma ParsePrint(n: nat)
    ensures ParseUint64(Print(n)) == if n < UINT64_LIMIT then Some(n) else None
  {
    PrintIsDecimal(n);
  }

  lemma {:induction false} ZeroPrefix(s: string)
    requires AllDigits(s)
    ensures AllDigits("0" + s) && Value("0" + s) == Value(s)
    decreases |s|
  {
    if s == [] {
    } else {
      ZeroPrefix(s[..|s| - 1]);
      assert ("0" + s)[..|s|] == "0" + s[..|s| - 1];
    }
  }

  function Pow10(k: nat): nat { if k == 0 then 1 else 10 * Pow10(k - 1) }

  lemma {:induction false} PrintLength(n: nat, k: nat)
    requires k > 0 && n < Pow10(k)
    ensures |Print(n)| <= k
    decreases k
  {
    if n < 10 {
    } else {
      PrintLength(n / 10, k - 1);
    }
  }

  lemma PrintUint64Length(n: nat)
    requires n < UINT64_LIMIT
    ensures 0 < |Print(n)| <= 20
  {
    assert Pow10(20) == 100000000000000000000 by {
      assert Pow10(4) == 10000;
      assert Pow10(8) == 100000000;
      assert Pow10(12) == 1000000000000;
      assert Pow10(16) == 10000000000000000;
    }
    PrintLength(n, 20);
    PrintIsDecimal(n);
  }

  // A number without its last k decimal places.
  function Shifted(n: nat, k: nat): nat { if k == 0 then n else Shifted(n / 10, k - 1) }

  /** The character k places before the last one of a printed number is its k-th decimal digit, in ASCII. */
  lemma {:induction false} PrintByPosition(n: nat, k: nat)
    requires k < |Print(n)|
    ensures Print(n)[|Print(n)| - 1 - k] as int == 48 + Shifted(n, k) % 10
    decreases k
  {
    if k == 0 {
    } else {
      PrintByPosition(n / 10, k - 1);
    }
  }

  // ---------- lines ----------

  function Find(s: string, c: char): (k: nat)
    ensures k <= |s|
    ensures k < |s| ==> s[k] == c
    ensures forall i :: 0 <= i < k ==> s[i] != c
  {
    if s == [] || s[0] == c then 0 else 1 + Find(s[1..], c)
  }

  function Prepend(line: string, rest: Option<seq<string>>): Option<seq<string>> {
    match rest
    case Some(lines) => Some([line] + lines)
    case None => None
  }

  // The lines of a text in which every line ends in a newline; None otherwise.
  function Lines(s: string): Option<seq<string>>
    decreases |s|
  {
    if s == [] then Some([])
    else
      var k := Find(s, '\n');
      if k == |s| then None else Prepend(s[..k], Lines(s[k + 1..]))
  }

  function Join(lines: seq<string>): string {
    if lines == [] then [] else lines[0] + "\n" + Join(lines[1..])
  }

  predicate SingleLines(lines: seq<string>) { forall i :: 0 <= i < |lines| ==> '\n' !in lines[i] }

  lemma FindInPrefix(a: string, b: string, c: char)
    requires c !in a
    ensures Find(a + [c] + b, c) == |a|
  {
    var k := Find(a + [c] + b, c);
    assert (a + [c] + b)[|a|] == c;
    assert forall i :: 0 <= i < |a| ==> (a + [c] + b)[i] == a[i];
  }

  lemma LinesCons(line: string, rest: string)
    requires '\n' !in line && Lines(rest).Some?
    ensures Lines(line + "\n" + rest) == Some([line] + Lines(rest).value)
  {
    var s := line + "\n" + rest;
    FindInPrefix(line, rest, '\n');
    assert s == line + ['\n'] + rest;
    assert s[..|line|] == line && s[|line| + 1..] == rest;
  }

  lemma NoLines()
    ensures Lines([]) == Some([])
  {}

  /** Splitting undoes joining. */
  lemma {:induction false} LinesOfJoin(lines: seq<string>)
    requires SingleLines(lines)
    ensures Lines(Join(lines)) == Some(lines)
    decreases |lines|
  {
    hide Lines;
    if lines == [] {
      NoLines();
    } else {
      LinesOfJoin(lines[1..]);
      LinesCons(lines[0], Join(lines[1..]));
      assert lines == [lines[0]] + lines[1..];
    }
  }

  lemma JoinTail(lines: seq<string>, rest: string)
    requires lines != []
    ensures Join(lines) + rest == lines[0] + "\n" + (Join(lines[1..]) + rest)
  {}

  lemma NoLinesCons(line: string, rest: string)
    requires '\n' !in line && Lines(rest).None?
    ensures Lines(line + "\n" + rest).None?
  {
    var s := line + "\n" + rest;
    FindInPrefix(line, rest, '\n');
    assert s == line + ['\n'] + rest;
    assert s[|line| + 1..] == rest;
  }

  lemma {:induction false} LinesAppend(lines: seq<string>, rest: string)
    requires SingleLines(lines)
    ensures Lines(rest).Some? ==> Lines(Join(lines) + rest) == Some(lines + Lines(rest).value)
    ensures Lines(rest).None? ==> Lines(Join(lines) + rest).None?
    decreases |lines|
  {
    hide Lines;
    if lines == [] {
      assert Join(lines) + rest == rest;
      assert Lines(rest).Some? ==> lines + Lines(rest).value == Lines(rest).value;
    } else {
      LinesAppend(lines[1..], rest);
      var tail := Join(lines[1..]) + rest;
      JoinTail(lines, rest);
      if Lines(rest).Some? {
        LinesCons(lines[0], tail);
        assert [lines[0]] + (lines[1..] + Lines(rest).value) == lines + Lines(rest).value;
      } else {
        NoLinesCons(lines[0], tail);
      }
    }
  }

  lemma StaysOneLine(a: string, b: string)
    requires '\n' !in a && '\n' !in b
    ensures '\n' !in a + b
  {}

  lemma ConsLine(line: string, rest: seq<string>)
    requires SingleLines(rest) && '\n' !in line
    ensures SingleLines([line] + rest) && Join([line] + rest) == line + "\n" + Join(rest)
  {
    assert ([line] + rest)[1..] == rest;
  }

  lemma SplitAt(s: string, k: nat)
    requires k < |s|
    ensures s[..k] + [s[k]] + s[k + 1..] == s
  {}

  lemma CutAtFind(s: string, c: char)
    requires Find(s, c) < |s|
    ensures c !in s[..Find(s, c)] && s[..Find(s, c)] + [c] + s[Find(s, c) + 1..] == s
  {
    SplitAt(s, Find(s, c));
  }

  lemma LinesUnfold(s: string)
    requires s != []
    ensures var k := Find(s, '\n');
            Lines(s) == if k == |s| then None else Prepend(s[..k], Lines(s[k + 1..]))
  {
    hide Find, Prepend;
  }

  lemma FirstLine(s: string)
    requires s != [] && Lines(s).Some?
    ensures var k := Find(s, '\n');
            && k < |s| && Lines(s[k + 1..]).Some?
            && Lines(s).value == [s[..k]] + Lines(s[k + 1..]).value
  {
    hide Lines, Find;
    LinesUnfold(s);
  }

  /** Joining undoes splitting. */
  lemma {:induction false} JoinOfLines(s: string)
    requires Lines(s).Some?
    ensures SingleLines(Lines(s).value) && Join(Lines(s).value) == s
    decreases |s|
  {
    if s == [] {
    } else {
      hide Lines, Join, Find;
      var k := Find(s, '\n');
      FirstLine(s);
      CutAtFind(s, '\n');
      JoinOfLines(s[k + 1..]);
      ConsLine(s[..k], Lines(s[k + 1..]).value);
    }
  }

  lemma {:induction false} JoinAppend(a: seq<string>, b: seq<string>)
    ensures Join(a + b) == Join(a) + Join(b)
    decreases |a|
  {
    if a == [] {
      assert a + b == b;
    } else {
      JoinAppend(a[1..], b);
      assert (a + b)[1..] == a[1..] + b;
    }
  }

  lemma JoinOne(line: string)
    ensures Join([line]) == line + ['\n']
  {}

  lemma Regroup(s: string, before: string, line: string, tail: string)
    requires s == before + (line + ['\n'] + tail)
    ensures s == (before + (line + ['\n'])) + tail
  {}

  lemma SliceOfSlice(s: string, position: nat, end: nat)
    requires position + end < |s|
    ensures s[position..][..end] == s[position..position + end]
    ensures s[position..][end + 1..] == s[position + end + 1..]
  {}

  // One more line found at `position` by a loop that has collected `lines` before it.
  lemma NextLine(content: string, lines: seq<string>, position: nat, end: nat)
    requires position < |content| && content == Join(lines) + content[position..]
    requires end == Find(content[position..], '\n') < |content| - position
    ensures var line := content[position..position + end];
            '\n' !in line && content == Join(lines + [line]) + content[position + end + 1..]
  {
    hide Find, Join;
    var rest := content[position..];
    var line := rest[..end];
    var tail := rest[end + 1..];
    CutAtFind(rest, '\n');
    JoinAppend(lines, [line]);
    JoinOne(line);
    Regroup(content, Join(lines), line, tail);
    SliceOfSlice(content, position, end);
  }

  lemma JoinCons(line: string, rest: seq<string>)
    ensures Join([line] + rest) == line + ['\n'] + Join(rest)
  {
    assert ([line] + rest)[1..] == rest;
  }

  lemma NoNewline(s: string)
    requires s != [] && Find(s, '\n') == |s|
    ensures Lines(s).None?
  {}

  predicate StartsWith(s: string, prefix: string) { |prefix| <= |s| && s[..|prefix|] == prefix }

  // What follows a prefix, if it is there.
  function After(s: string, prefix: string): Option<string> {
    if StartsWith(s, prefix) then Some(s[|prefix|..]) else None
  }

  lemma AfterPrefix(prefix: string, rest: string)
    ensures After(prefix + rest, prefix) == Some(rest)
  {}

  lemma DigitsAreOneLine(s: string)
    requires AllDigits(s)
    ensures '\n' !in s && '\r' !in s && '\0' !in s && ' ' !in s
  {}
}
