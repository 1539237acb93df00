/** Splitting and rejoining text at a separator character. */
module Text {

  ghost predicate Without(s: string, c: char) {
    forall i | 0 <= i < |s| :: s[i] != c
  }

  /** The pieces of `s` between separators: one more piece than separators. */
  function Split(s: string, sep: char): (parts: seq<string>)
    ensures |parts| >= 1
  {
    if s == [] then [""]
    else
      var rest := Split(s[1..], sep);
      if s[0] == sep then [""] + rest else [[s[0]] + rest[0]] + rest[1..]
  }

  function Join(parts: seq<string>, sep: char): string
    requires |parts| >= 1
  {
    if |parts| == 1 then parts[0] else parts[0] + [sep] + Join(parts[1..], sep)
  }

  lemma {:induction false} JoinOfSplit(s: string, sep: char)
    ensures Join(Split(s, sep), sep) == s
    ensures forall i | 0 <= i < |Split(s, sep)| :: Without(Split(s, sep)[i], sep)
  {
    if s != [] {
      JoinOfSplit(s[1..], sep);
      var rest := Split(s[1..], sep);
      if s[0] == sep {
        assert ([""] + rest)[1..] == rest;
      } else {
        assert ([[s[0]] + rest[0]] + rest[1..])[1..] == rest[1..];
      }
    }
  }

  lemma {:induction false} SplitPlain(s: string, sep: char)
    requires Without(s, sep)
    ensures Split(s, sep) == [s]
  {
    if s != [] {
      SplitPlain(s[1..], sep);
      assert [s[0]] + s[1..] == s;
    }
  }

  lemma {:induction false} SplitFirst(a: string, sep: char, b: string)
    requires Without(a, sep)
    ensures Split(a + [sep] + b, sep) == [a] + Split(b, sep)
  {
    var s := a + [sep] + b;
    if a == [] {
      assert s[1..] == b;
    } else {
      assert s[1..] == a[1..] + [sep] + b;
      SplitFirst(a[1..], sep, b);
      assert ([a[1..]] + Split(b, sep))[1..] == Split(b, sep);
      assert [a[0]] + a[1..] == a;
    }
  }

  /** Joining pieces without separators and splitting again gives the pieces back. */
  lemma {:induction false} SplitOfJoin(parts: seq<string>, sep: char)
    requires |parts| >= 1 && forall i | 0 <= i < |parts| :: Without(parts[i], sep)
    ensures Split(Join(parts, sep), sep) == parts
  {
    if |parts| == 1 {
      SplitPlain(parts[0], sep);
    } else {
      SplitFirst(parts[0], sep, Join(parts[1..], sep));
      SplitOfJoin(parts[1..], sep);
      assert parts == [parts[0]] + parts[1..];
    }
  }

  /** Every line with its line end. */
  function Unlines(lines: seq<string>): string {
    if lines == [] then "" else lines[0] + ['\n'] + Unlines(lines[1..])
  }

  lemma {:induction false} SplitUnlines(lines: seq<string>)
    requires forall i | 0 <= i < |lines| :: Without(lines[i], '\n')
    ensures Split(Unlines(lines), '\n') == lines + [""]
  {
    if lines != [] {
      SplitFirst(lines[0], '\n', Unlines(lines[1..]));
      SplitUnlines(lines[1..]);
      assert lines == [lines[0]] + lines[1..];
    }
  }

  lemma {:induction false} UnlinesSnoc(lines: seq<string>, x: string)
    ensures Unlines(lines + [x]) == Unlines(lines) + (x + "\n")
  {
    if lines == [] {
      assert Unlines([x]) == x + "\n" + Unlines([x][1..]);
    } else {
      assert (lines + [x])[1..] == lines[1..] + [x];
      UnlinesSnoc(lines[1..], x);
    }
  }

  function Decimal(n: nat): string {
    if n < 10 then [('0' as int + n) as char]
    else Decimal(n / 10) + [('0' as int + n % 10) as char]
  }

  predicate IsDigit(c: char) { '0' <= c <= '9' }

  predicate Digits(s: string) { forall i | 0 <= i < |s| :: IsDigit(s[i]) }

  function DecimalValue(s: string): nat
    requires Digits(s)
  {
    if s == [] then 0
    else DecimalValue(s[..|s| - 1]) * 10 + (s[|s| - 1] as int - '0' as int)
  }

  /** Unicode white space. */
  predicate IsSpace(c: char) {
    || c in " \t\n\r" || c == 0xB as char || c == 0xC as char || c == 0x85 as char || c == 0xA0 as char
    || c == 0x1680 as char || 0x2000 as char <= c <= 0x200A as char || c == 0x2028 as char || c == 0x2029 as char
    || c == 0x202F as char || c == 0x205F as char || c == 0x3000 as char
  }

  function TrimStart(s: string): string {
    if s != [] && IsSpace(s[0]) then TrimStart(s[1..]) else s
  }

  function TrimEnd(s: string): string {
    if s != [] && IsSpace(s[|s| - 1]) then TrimEnd(s[..|s| - 1]) else s
  }

  function Trim(s: string): string {
    TrimEnd(TrimStart(s))
  }

  lemma {:induction false} TrimStartMeaning(s: string)
    ensures TrimStart(s) == [] || !IsSpace(TrimStart(s)[0])
    ensures s != [] && !IsSpace(s[0]) ==> TrimStart(s) == s
  {
    if s != [] && IsSpace(s[0]) { TrimStartMeaning(s[1..]); }
  }

  lemma {:induction false} TrimEndMeaning(s: string)
    ensures TrimEnd(s) <= s
    ensures TrimEnd(s) == [] || !IsSpace(TrimEnd(s)[|TrimEnd(s)| - 1])
  {
    if s != [] && IsSpace(s[|s| - 1]) { TrimEndMeaning(s[..|s| - 1]); }
  }

  predicate Trimmed(s: string) {
    s == [] || (!IsSpace(s[0]) && !IsSpace(s[|s| - 1]))
  }

  /** Trimming leaves no white space at either end, and leaves trimmed text alone. */
  lemma {:induction false} TrimMeaning(s: string)
    ensures Trimmed(Trim(s)) && (Trimmed(s) ==> Trim(s) == s)
  {
    TrimStartMeaning(s);
    TrimEndMeaning(TrimStart(s));
  }
}
