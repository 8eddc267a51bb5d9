/** The few string operations of the Go standard library that the model relies on:
    strings.TrimSpace, strings.Split on one character, strings.Cut, strings.Join
    and the decimal form printed by %d. */
module Text {

  datatype Option<+T> = None | Some(value: T)

  /** unicode.IsSpace: the Latin-1 spaces and the White_Space characters above them. */
  predicate IsSpace(c: char) {
    c == ' ' || c == '\t' || c == '\n' || c == '\r' || c as int == 11 || c as int == 12
    || c as int == 0x85 || c as int == 0xA0 || IsWideSpace(c as int)
  }

  predicate IsWideSpace(c: int) {
    c == 0x1680 || 0x2000 <= c <= 0x200A || c == 0x2028 || c == 0x2029 || c == 0x202F || c == 0x205F || c == 0x3000
  }

  predicate Free(s: string, c: char) {
    forall i :: 0 <= i < |s| ==> s[i] != c
  }

  predicate AllFree(lines: seq<string>, c: char) {
    forall i :: 0 <= i < |lines| ==> Free(lines[i], c)
  }

  function TrimLeft(s: string): string {
    if |s| > 0 && IsSpace(s[0]) then TrimLeft(s[1..]) else s
  }

  function TrimRight(s: string): string {
    if |s| > 0 && IsSpace(s[|s| - 1]) then TrimRight(s[..|s| - 1]) else s
  }

  function Trim(s: string): string {
    TrimRight(TrimLeft(s))
  }

  function Split(s: string, sep: char): (parts: seq<string>)
    ensures |parts| > 0
    ensures forall i :: 0 <= i < |parts| ==> Free(parts[i], sep)
  {
    if s == "" then [""]
    else
      var rest := Split(s[1..], sep);
      if s[0] == sep then [""] + rest
      else [[s[0]] + rest[0]] + rest[1..]
  }

  function Join(parts: seq<string>, sep: string): string {
    if |parts| == 0 then ""
    else if |parts| == 1 then parts[0]
    else parts[0] + sep + Join(parts[1..], sep)
  }

  /** strings.Cut: the text around the first occurrence of the separator. */
  function Cut(s: string, sep: char): Option<(string, string)> {
    if s == "" then None
    else if s[0] == sep then Some(("", s[1..]))
    else
      match Cut(s[1..], sep)
      case None => None
      case Some(p) => Some(([s[0]] + p.0, p.1))
  }

  function Digit(d: nat): char
    requires d < 10
  {
    '0' + (d as char)
  }

  /** The decimal form of a natural number. */
  function Itoa(n: nat): (s: string)
    ensures |s| > 0
    ensures forall i :: 0 <= i < |s| ==> '0' <= s[i] <= '9'
  {
    if n < 10 then [Digit(n)] else Itoa(n / 10) + [Digit(n % 10)]
  }

  /** The %d form of an integer. */
  function FormatInt(n: int): (s: string)
    ensures |s| > 0 && Free(s, '\n')
  {
    if n < 0 then "-" + Itoa(-n) else Itoa(n)
  }

  /** The value a decimal string denotes; the left inverse of Itoa. */
  function Atoi(s: string): nat
    requires forall i :: 0 <= i < |s| ==> '0' <= s[i] <= '9'
  {
    if s == "" then 0 else Atoi(s[..|s| - 1]) * 10 + (s[|s| - 1] - '0') as nat
  }

  lemma {:induction false} AtoiItoa(n: nat)
    ensures Atoi(Itoa(n)) == n
  {
    if n < 10 {
      assert Atoi([]) == 0;
      assert [Digit(n)][..0] == [];
    } else {
      AtoiItoa(n / 10);
      assert (Itoa(n / 10) + [Digit(n % 10)])[..|Itoa(n / 10)|] == Itoa(n / 10);
    }
  }

  lemma {:induction false} ItoaInjective(m: nat, n: nat)
    requires Itoa(m) == Itoa(n)
    ensures m == n
  {
    AtoiItoa(m);
    AtoiItoa(n);
  }

  /** The lines of a text whose every line is ended by a newline. */
  function Unlines(lines: seq<string>): string {
    if lines == [] then "" else lines[0] + "\n" + Unlines(lines[1..])
  }

  lemma {:induction false} ConcatAssoc(a: string, b: string, c: string)
    ensures a + b + c == a + (b + c)
  {
  }

  lemma {:induction false} AllFreeConcat(a: seq<string>, b: seq<string>, c: char)
    requires AllFree(a, c) && AllFree(b, c)
    ensures AllFree(a + b, c)
  {
  }

  lemma {:induction false} UnlinesConcat(a: seq<string>, b: seq<string>)
    ensures Unlines(a + b) == Unlines(a) + Unlines(b)
  {
    if a == [] {
      assert a + b == b;
    } else {
      UnlinesConcat(a[1..], b);
      assert (a + b)[1..] == a[1..] + b;
      ConcatAssoc(a[0] + "\n", Unlines(a[1..]), Unlines(b));
    }
  }

  lemma {:induction false} JoinFree(parts: seq<string>, sep: string, c: char)
    requires Free(sep, c)
    requires forall i :: 0 <= i < |parts| ==> Free(parts[i], c)
    ensures Free(Join(parts, sep), c)
  {
    if |parts| > 1 {
      JoinFree(parts[1..], sep, c);
    }
  }

  lemma {:induction false} SplitHead(line: string, rest: string, sep: char)
    requires Free(line, sep)
    ensures Split(line + [sep] + rest, sep) == [line] + Split(rest, sep)
  {
    if line == "" {
      assert (line + [sep] + rest)[1..] == rest;
    } else {
      SplitHead(line[1..], rest, sep);
      assert (line + [sep] + rest)[1..] == line[1..] + [sep] + rest;
      assert [line[0]] + line[1..] == line;
    }
  }

  /** Splitting a text of newline-ended lines gives the lines back, then one empty part. */
  lemma {:induction false} SplitUnlines(lines: seq<string>)
    requires AllFree(lines, '\n')
    ensures Split(Unlines(lines), '\n') == lines + [""]
  {
    if lines == [] {
    } else {
      SplitUnlines(lines[1..]);
      assert lines[0] + "\n" + Unlines(lines[1..]) == lines[0] + ['\n'] + Unlines(lines[1..]);
      SplitHead(lines[0], Unlines(lines[1..]), '\n');
      assert lines == [lines[0]] + lines[1..];
    }
  }

  lemma {:induction false} TrimRightConcat(a: string, b: string)
    ensures TrimRight(a + b) == if TrimRight(b) == "" then TrimRight(a) else a + TrimRight(b)
  {
    if b == "" {
      assert a + b == a;
    } else if IsSpace(b[|b| - 1]) {
      TrimRightConcat(a, b[..|b| - 1]);
      assert (a + b)[..|a + b| - 1] == a + b[..|b| - 1];
    }
  }

  lemma {:induction false} TrimsCommute(s: string)
    ensures TrimLeft(TrimRight(s)) == Trim(s)
  {
    if s == "" {
    } else if IsSpace(s[0]) {
      TrimsCommute(s[1..]);
      assert s == [s[0]] + s[1..];
      TrimRightConcat([s[0]], s[1..]);
    } else {
      assert s == [s[0]] + s[1..];
      TrimRightConcat([s[0]], s[1..]);
      assert TrimRight([s[0]]) == [s[0]];
    }
  }

  lemma {:induction false} TrimRightIdempotent(s: string)
    ensures TrimRight(TrimRight(s)) == TrimRight(s)
  {
    if |s| > 0 && IsSpace(s[|s| - 1]) {
      TrimRightIdempotent(s[..|s| - 1]);
    }
  }

  /** Trimming after a right trim changes nothing more than trimming at once. */
  lemma {:induction false} TrimAfterRight(s: string)
    ensures Trim(TrimRight(s)) == Trim(s)
  {
    TrimsCommute(s);
    TrimRightIdempotent(TrimLeft(s));
  }

  /** The separator found by Cut in a text whose head is free of it. */
  lemma {:induction false} CutHead(head: string, tail: string, sep: char)
    requires Free(head, sep)
    ensures Cut(head + [sep] + tail, sep) == Some((head, tail))
  {
    if head == "" {
      assert (head + [sep] + tail)[1..] == tail;
    } else {
      CutHead(head[1..], tail, sep);
      assert (head + [sep] + tail)[1..] == head[1..] + [sep] + tail;
      assert [head[0]] + head[1..] == head;
    }
  }
}
