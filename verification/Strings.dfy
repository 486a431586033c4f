/** Strings as Go compares and takes them apart. */
module Strings {

  /** Lexicographic order of strings by code point. */
  predicate StringLess(a: string, b: string) {
    if b == "" then false
    else if a == "" then true
    else if a[0] != b[0] then a[0] < b[0]
    else StringLess(a[1..], b[1..])
  }

  lemma {:induction false} StringsCompare(a: string, b: string, c: string)
    ensures !StringLess(a, a)
    ensures StringLess(a, b) && StringLess(b, c) ==> StringLess(a, c)
    ensures StringLess(a, b) || StringLess(b, a) || a == b
    ensures !(StringLess(a, b) && StringLess(b, a))
  {
    if a != "" {
      StringsCompare(a[1..], if b == "" then "" else b[1..], if c == "" then "" else c[1..]);
      if b != "" && a[0] == b[0] && a[1..] == b[1..] {
        assert a == [a[0]] + a[1..] && b == [b[0]] + b[1..];
      }
    }
  }

  /** The first difference decides, and a string comes after its own proper prefixes. */
  lemma {:induction false} StringLessIff(a: string, b: string)
    ensures StringLess(a, b) <==> exists k :: 0 <= k <= |a| && k < |b| && a[..k] == b[..k] && (k < |a| ==> a[k] < b[k])
  {
    if a != "" && b != "" && a[0] == b[0] {
      StringLessIff(a[1..], b[1..]);
      var x, y := a[1..], b[1..];
      if k :| 0 <= k <= |x| && k < |y| && x[..k] == y[..k] && (k < |x| ==> x[k] < y[k]) {
        assert a[..k + 1] == [a[0]] + a[1..][..k] && b[..k + 1] == [b[0]] + b[1..][..k];
      }
      if k :| 0 <= k <= |a| && k < |b| && a[..k] == b[..k] && (k < |a| ==> a[k] < b[k]) {
        assert k > 0;
        assert a[1..][..k - 1] == a[..k][1..] && b[1..][..k - 1] == b[..k][1..];
      }
    } else if StringLess(a, b) {
      assert a[..0] == b[..0];
    }
  }

  lemma StringsChain(a: string, b: string, c: string)
    requires !StringLess(b, a) && !StringLess(c, b)
    ensures !StringLess(c, a)
  {
    StringsCompare(c, a, b);
    StringsCompare(b, a, c);
    StringsCompare(c, b, a);
  }

  predicate HasPrefix(s: string, prefix: string) {
    prefix <= s
  }

  predicate HasSuffix(s: string, suffix: string) {
    |suffix| <= |s| && s[|s| - |suffix|..] == suffix
  }

  predicate Contains(s: string, part: string) {
    exists k | 0 <= k <= |s| :: part <= s[k..]
  }

  lemma HasPrefixIff(s: string, part: string)
    ensures HasPrefix(s, part) <==> exists rest :: s == part + rest
  {
    if HasPrefix(s, part) {
      assert s == part + s[|part|..];
    }
  }

  lemma HasSuffixIff(s: string, part: string)
    ensures HasSuffix(s, part) <==> exists front :: s == front + part
  {
    if HasSuffix(s, part) {
      assert s == s[..|s| - |part|] + part;
    }
    if front :| s == front + part {
      assert s[|s| - |part|..] == part;
    }
  }

  lemma ContainsIff(s: string, part: string)
    ensures Contains(s, part) <==> exists front, rest :: s == front + (part + rest)
  {
    if k :| 0 <= k <= |s| && part <= s[k..] {
      assert s == s[..k] + s[k..] && s[k..] == part + s[k..][|part|..];
    }
    if front, rest :| s == front + (part + rest) {
      assert s[|front|..] == part + rest;
    }
  }

  // ---- lines ----

  /** The lines of a text with one more character in front. */
  function Prepend(c: char, lines: seq<string>): (r: seq<string>)
    requires |lines| > 0
    ensures |r| > 0
  {
    if c == '\n' then [""] + lines else [[c] + lines[0]] + lines[1..]
  }

  /** The pieces of `s` between newlines. */
  function Split(s: string): (lines: seq<string>)
    ensures |lines| > 0
  {
    if s == "" then [""] else Prepend(s[0], Split(s[1..]))
  }

  function Join(lines: seq<string>): string
    requires |lines| > 0
  {
    if |lines| == 1 then lines[0] else lines[0] + "\n" + Join(lines[1..])
  }

  lemma {:induction false} SplitLine(line: string)
    requires '\n' !in line
    ensures Split(line) == [line]
  {
    if line != "" {
      SplitLine(line[1..]);
      assert [line[0]] + line[1..] == line;
    }
  }

  lemma {:induction false} SplitFirst(line: string, rest: string)
    requires '\n' !in line
    ensures Split(line + "\n" + rest) == [line] + Split(rest)
  {
    var s := line + "\n" + rest;
    if line == "" {
      assert s[1..] == rest;
    } else {
      assert s[1..] == line[1..] + "\n" + rest;
      SplitFirst(line[1..], rest);
      assert [line[0]] + line[1..] == line;
      assert ([line[1..]] + Split(rest))[1..] == Split(rest);
    }
  }

  lemma {:induction false} SplitJoin(lines: seq<string>)
    requires |lines| > 0 && forall i :: 0 <= i < |lines| ==> '\n' !in lines[i]
    ensures Split(Join(lines)) == lines
  {
    if |lines| == 1 {
      SplitLine(lines[0]);
    } else {
      SplitFirst(lines[0], Join(lines[1..]));
      SplitJoin(lines[1..]);
      assert [lines[0]] + lines[1..] == lines;
    }
  }

  lemma {:induction false} JoinSplit(s: string)
    ensures Join(Split(s)) == s
  {
    if s != "" {
      JoinSplit(s[1..]);
      var rest := Split(s[1..]);
      if s[0] == '\n' {
        assert ([""] + rest)[1..] == rest;
      } else {
        var lines := [[s[0]] + rest[0]] + rest[1..];
        assert lines[1..] == rest[1..];
        assert Join(lines) == [s[0]] + Join(rest);
      }
    }
  }

  lemma {:induction false} SplitPieces(s: string)
    ensures forall i :: 0 <= i < |Split(s)| ==> '\n' !in Split(s)[i]
  {
    if s != "" {
      SplitPieces(s[1..]);
    }
  }

  lemma {:induction false} JoinAt(a: seq<string>, b: seq<string>)
    requires |a| > 0 && |b| > 0
    ensures Join(a + b) == Join(a) + "\n" + Join(b)
  {
    if |a| == 1 {
      assert (a + b)[1..] == b;
    } else {
      assert (a + b)[1..] == a[1..] + b;
      JoinAt(a[1..], b);
    }
  }

  lemma PrependFirst(c: char, a: seq<string>, b: seq<string>)
    requires |a| > 0
    ensures Prepend(c, a + b) == Prepend(c, a) + b
  {
    assert (a + b)[1..] == a[1..] + b;
  }

  /** Every newline is a cut between two lines. */
  lemma {:induction false} SplitAt(a: string, b: string)
    ensures Split(a + "\n" + b) == Split(a) + Split(b)
  {
    if a == "" {
    } else {
      hide Split, Prepend;
      var c, tail := a[0], a[1..];
      SplitAt(tail, b);
      PrependFirst(c, Split(tail), Split(b));
      assert a == [c] + tail && a + "\n" + b == [c] + (tail + "\n" + b);
    }
  }

  /** A byte that ends no line makes the last line longer. */
  function Append(lines: seq<string>, c: char): seq<string>
    requires |lines| > 0
  {
    lines[..|lines| - 1] + [lines[|lines| - 1] + [c]]
  }

  lemma PrependAppend(d: char, lines: seq<string>, c: char)
    requires |lines| > 0
    ensures Prepend(d, Append(lines, c)) == Append(Prepend(d, lines), c)
  {
    if d != '\n' {
      assert |lines| == 1 ==> [d] + (lines[0] + [c]) == [d] + lines[0] + [c];
    }
  }

  lemma {:induction false} SplitLast(s: string, c: char)
    requires c != '\n'
    ensures Split(s + [c]) == Append(Split(s), c)
  {
    if s == "" {
      assert s + [c] == [c];
      SplitLine([c]);
    } else {
      var d, tail := s[0], s[1..];
      SplitLast(tail, c);
      assert s == [d] + tail && s + [c] == [d] + (tail + [c]);
      hide Prepend, Append, Split;
      PrependAppend(d, Split(tail), c);
    }
  }
}
