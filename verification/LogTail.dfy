/** The last lines of a test's output. Strings are byte strings here: every character is one byte. */
module LogTail {
  import opened Strings

  // ---- white space in UTF-8 ----

  predicate Space1(a: char) {
    '\t' <= a <= '\r' || a == ' '
  }

  predicate Space2(a: char, b: char) {
    a == '\U{c2}' && (b == '\U{85}' || b == '\U{a0}')
  }

  predicate Space3(a: char, b: char, c: char) {
    || (a == '\U{e1}' && b == '\U{9a}' && c == '\U{80}')
    || (a == '\U{e2}' && b == '\U{80}'
        && ('\U{80}' <= c <= '\U{8a}' || c == '\U{a8}' || c == '\U{a9}' || c == '\U{af}'))
    || (a == '\U{e2}' && b == '\U{81}' && c == '\U{9f}')
    || (a == '\U{e3}' && b == '\U{80}' && c == '\U{80}')
  }

  /** The number of bytes of the white space character at the start of `s`, or 0. */
  function LeadSpace(s: string): (n: nat)
    ensures n <= |s|
  {
    if |s| >= 1 && Space1(s[0]) then 1
    else if |s| >= 2 && Space2(s[0], s[1]) then 2
    else if |s| >= 3 && Space3(s[0], s[1], s[2]) then 3
    else 0
  }

  /** The number of bytes of the white space character at the end of `s`, or 0. */
  function TailSpace(s: string): (n: nat)
    ensures n <= |s|
  {
    var e := |s|;
    if e >= 1 && Space1(s[e - 1]) then 1
    else if e >= 2 && Space2(s[e - 2], s[e - 1]) then 2
    else if e >= 3 && Space3(s[e - 3], s[e - 2], s[e - 1]) then 3
    else 0
  }

  function TrimLeft(s: string): (r: string)
    ensures |r| <= |s|
  {
    var n := LeadSpace(s);
    if n > 0 then TrimLeft(s[n..]) else s
  }

  function TrimRight(s: string): (r: string)
    ensures |r| <= |s|
  {
    var n := TailSpace(s);
    if n > 0 then TrimRight(s[..|s| - n]) else s
  }

  lemma {:induction false} TrimLeftEnds(s: string)
    ensures TrimLeft(s) == s[|s| - |TrimLeft(s)|..] && LeadSpace(TrimLeft(s)) == 0
    decreases |s|
  {
    hide LeadSpace;
    if LeadSpace(s) > 0 {
      TrimLeftEnds(s[LeadSpace(s)..]);
    }
  }

  lemma {:induction false} TrimRightEnds(s: string)
    ensures TrimRight(s) <= s && TailSpace(TrimRight(s)) == 0
    decreases |s|
  {
    hide TailSpace;
    if TailSpace(s) > 0 {
      TrimRightEnds(s[..|s| - TailSpace(s)]);
    }
  }

  function TrimSpace(s: string): string {
    TrimRight(TrimLeft(s))
  }

  predicate Trimmed(s: string) {
    LeadSpace(s) == 0 && TailSpace(s) == 0
  }

  lemma TrimSpaceTrims(s: string)
    ensures Trimmed(TrimSpace(s))
  {
    hide LeadSpace, TailSpace;
    TrimLeftEnds(s);
    TrimRightEnds(TrimLeft(s));
    PrefixStarts(TrimLeft(s), |TrimSpace(s)|);
    assert TrimSpace(s) == TrimLeft(s)[..|TrimSpace(s)|];
  }

  /** A prefix of a text with nothing to trim at its start has nothing to trim there either. */
  lemma PrefixStarts(s: string, m: nat)
    requires LeadSpace(s) == 0 && m <= |s|
    ensures LeadSpace(s[..m]) == 0
  {
  }

  lemma TrimmedStays(s: string)
    requires Trimmed(s)
    ensures TrimSpace(s) == s
  {
  }

  lemma TrimmedEnds(s: string)
    requires Trimmed(s) && s != ""
    ensures s[0] != '\n' && s[|s| - 1] != '\n'
  {
  }

  /** A suffix of a text with nothing to trim at its end has nothing to trim there either. */
  lemma SuffixEnds(s: string, p: nat)
    requires TailSpace(s) == 0 && p <= |s|
    ensures TailSpace(s[p..]) == 0
  {
    var r := s[p..];
    var e := |s|;
    assert |r| >= 1 ==> r[|r| - 1] == s[e - 1];
    assert |r| >= 2 ==> r[|r| - 2] == s[e - 2];
    assert |r| >= 3 ==> r[|r| - 3] == s[e - 3];
  }

  lemma SuffixTrims(s: string, p: nat)
    requires TailSpace(s) == 0 && p <= |s|
    ensures TrimSpace(s[p..]) == TrimLeft(s[p..])
  {
    hide *;
    var t := s[p..];
    SuffixEnds(s, p);
    TrimLeftEnds(t);
    SuffixEnds(t, |t| - |TrimLeft(t)|);
    NothingBehind(TrimLeft(t));
    TrimBoth(t);
  }

  lemma NothingBehind(s: string)
    requires TailSpace(s) == 0
    ensures TrimRight(s) == s
  {
    hide TailSpace;
  }

  lemma TrimBoth(s: string)
    ensures TrimSpace(s) == TrimRight(TrimLeft(s))
  {
    hide TrimRight, TrimLeft;
  }

  lemma TrimNewline(s: string)
    ensures TrimSpace("\n" + s) == TrimSpace(s)
  {
    assert ("\n" + s)[1..] == s;
  }

  // ---- lines ----

  /** The position of the last newline, or -1. */
  function LastNewline(s: string): (p: int)
    ensures -1 <= p < |s|
    ensures p >= 0 ==> s[p] == '\n'
    ensures forall i :: p < i < |s| ==> s[i] != '\n'
  {
    if s == "" then -1
    else if s[|s| - 1] == '\n' then |s| - 1
    else LastNewline(s[..|s| - 1])
  }

  function NonBlank(lines: seq<string>): nat {
    if lines == [] then 0 else (if TrimSpace(lines[0]) != "" then 1 else 0) + NonBlank(lines[1..])
  }

  predicate StartsWithAny(s: string, until: seq<string>) {
    exists i :: 0 <= i < |until| && HasPrefix(s, until[i])
  }

  method StringStartsWithAny(s: string, contains: seq<string>) returns (r: bool)
    ensures r == StartsWithAny(s, contains)
  {
    for i := 0 to |contains|
      invariant forall k :: 0 <= k < i ==> !HasPrefix(s, contains[k])
    {
      if HasPrefix(s, contains[i]) {
        return true;
      }
    }
    return false;
  }

  // ---- the scanner ----

  /** The lines the scanner looks at: those of the trimmed text without its final byte. */
  function Examined(text: string): (lines: seq<string>)
    requires text != ""
    ensures |lines| > 0
  {
    Split(text[..|text| - 1])
  }

  /** The scan going backwards ends at line `k`: enough lines seen, or a marker. */
  predicate StopsAt(lines: seq<string>, k: nat, max: int, until: seq<string>)
    requires k < |lines|
  {
    NonBlank(lines[k..]) >= max || StartsWithAny(TrimSpace(lines[k]), until)
  }

  /** The scan ends at line `k` and not before. */
  ghost predicate CutsAt(text: string, k: nat, max: int, until: seq<string>)
    requires text != ""
  {
    var lines := Examined(text);
    && 1 <= k < |lines| && k < |Split(text)| && StopsAt(lines, k, max, until)
    && forall j :: k < j < |lines| ==> !StopsAt(lines, j, max, until)
  }

  /** The text of the lines from line `k`. */
  function TextFrom(text: string, k: nat): string
    requires k < |Split(text)|
  {
    Join(Split(text)[k..])
  }

  /** Looking at the text without its final byte changes the last line only. */
  lemma ExaminedLines(text: string)
    requires text != "" && text[|text| - 1] != '\n'
    ensures var lines, all := Examined(text), Split(text);
      && |all| == |lines| && all[..|all| - 1] == lines[..|all| - 1]
      && all[|all| - 1] == lines[|all| - 1] + [text[|text| - 1]]
  {
    assert text == text[..|text| - 1] + [text[|text| - 1]];
    SplitLast(text[..|text| - 1], text[|text| - 1]);
  }

  /** The lines up to the last newline and the line behind it. */
  lemma LineBack(s: string)
    ensures var p := LastNewline(s);
      Split(s) == if p < 0 then [s] else Split(s[..p]) + [s[p + 1..]]
  {
    var p := LastNewline(s);
    if p < 0 {
      SplitLine(s);
    } else {
      assert s == s[..p] + "\n" + s[p + 1..];
      SplitAt(s[..p], s[p + 1..]);
      SplitLine(s[p + 1..]);
    }
  }

  lemma CountBack(lines: seq<string>, k: nat)
    requires k < |lines|
    ensures NonBlank(lines[k..]) == (if TrimSpace(lines[k]) != "" then 1 else 0) + NonBlank(lines[k + 1..])
  {
    assert lines[k..][1..] == lines[k + 1..];
  }

  /** The newline before a line does not show in the result. */
  lemma LineFrom(text: string, index: nat, k: nat)
    requires index < |text| && text[index] == '\n' && |Split(text[..index])| == k
    ensures k < |Split(text)| && TrimSpace(text[index..]) == TrimSpace(TextFrom(text, k))
  {
    hide TrimSpace, LeadSpace, Split, Join;
    var rest := text[index + 1..];
    assert text == text[..index] + "\n" + rest && text[index..] == "\n" + rest;
    SplitAt(text[..index], rest);
    assert Split(text)[k..] == Split(rest);
    JoinSplit(rest);
    TrimNewline(rest);
  }

  /** The scan has gone back to line `k`, which starts after position `index`, and may still count `left` lines. */
  ghost predicate Scanned(text: string, index: int, k: nat, left: int, max: int, until: seq<string>)
    requires text != ""
  {
    var lines := Examined(text);
    && 0 <= index < |text| && 1 <= k <= |lines| && |lines| == |Split(text)|
    && Split(text[..index]) == lines[..k] && (k < |lines| ==> text[index] == '\n')
    && left == max - NonBlank(lines[k..])
    && forall j :: k < j < |lines| ==> !StopsAt(lines, j, max, until)
  }

  lemma ScanStarts(text: string, max: int, until: seq<string>)
    requires Trimmed(text) && text != ""
    ensures Scanned(text, |text| - 1, |Examined(text)|, max, max, until)
  {
    hide StopsAt, LeadSpace, TailSpace;
    TrimmedEnds(text);
    ExaminedLines(text);
    assert Examined(text)[|Examined(text)|..] == [];
  }

  lemma ScanGoesBack(text: string, index: int, k: nat, left: int, max: int, until: seq<string>)
    requires text != "" && Scanned(text, index, k, left, max, until)
    requires k < |Examined(text)| ==> !StopsAt(Examined(text), k, max, until)
    ensures var next := LastNewline(text[..index]);
      if next < 0 then k == 1 else
        var line := TrimSpace(text[next + 1..index]);
        var after := if |line| > 0 then left - 1 else left;
        && 2 <= k <= |Examined(text)| && Scanned(text, next, k - 1, after, max, until)
        && (StopsAt(Examined(text), k - 1, max, until) <==> after <= 0 || StartsWithAny(line, until))
  {
    hide TrimSpace, StartsWithAny, NonBlank, Split, StopsAt;
    var lines := Examined(text);
    var next := LastNewline(text[..index]);
    LineBack(text[..index]);
    if next >= 0 {
      assert text[..index][..next] == text[..next] && text[..index][next + 1..] == text[next + 1..index];
      assert lines[..k] == Split(text[..next]) + [text[next + 1..index]];
      assert lines[..k - 1] == lines[..k][..k - 1] && lines[k - 1] == lines[..k][k - 1];
      CountBack(lines, k - 1);
      Stopping(lines, k - 1, max, until);
    }
  }

  lemma Stopping(lines: seq<string>, k: nat, max: int, until: seq<string>)
    requires k < |lines|
    ensures StopsAt(lines, k, max, until) <==> NonBlank(lines[k..]) >= max || StartsWithAny(TrimSpace(lines[k]), until)
  {
  }

  /** The two ways the scan ends. */
  lemma ScanEnds(text: string, index: int, k: nat, left: int, max: int, until: seq<string>)
    requires text != "" && Scanned(text, index, k, left, max, until)
    ensures k < |Examined(text)| && StopsAt(Examined(text), k, max, until) ==>
      && CutsAt(text, k, max, until) && TrimSpace(text[index..]) == TrimSpace(TextFrom(text, k))
    ensures k == 1 && (k < |Examined(text)| ==> !StopsAt(Examined(text), k, max, until)) ==>
      forall j: nat :: !CutsAt(text, j, max, until)
  {
    hide TrimSpace, NonBlank, Split, StopsAt, TextFrom;
    if k < |Examined(text)| {
      LineFrom(text, index, k);
    }
  }

  lemma OneCut(text: string, j: nat, k: nat, max: int, until: seq<string>)
    requires text != "" && CutsAt(text, j, max, until) && CutsAt(text, k, max, until)
    ensures j == k
  {
    hide StopsAt;
  }

  /** What is left of a trimmed text: all of it when the scan reaches the first line, which is never looked at. */
  ghost predicate IsTail(text: string, max: int, until: seq<string>, r: string)
    requires text != ""
  {
    && (forall k: nat :: CutsAt(text, k, max, until) ==> r == TrimSpace(TextFrom(text, k)))
    && ((forall k: nat :: !CutsAt(text, k, max, until)) ==> r == text)
  }

  lemma TailWhole(text: string, max: int, until: seq<string>)
    requires text != ""
    ensures (forall k: nat :: !CutsAt(text, k, max, until)) ==> IsTail(text, max, until, text)
  {
    hide CutsAt;
  }

  lemma TailFound(text: string, k: nat, max: int, until: seq<string>, r: string)
    requires text != ""
    ensures CutsAt(text, k, max, until) && r == TrimSpace(TextFrom(text, k)) ==> IsTail(text, max, until, r)
  {
    hide CutsAt;
    forall j: nat | CutsAt(text, j, max, until) && CutsAt(text, k, max, until) ensures j == k {
      OneCut(text, j, k, max, until);
    }
  }

  /** The final byte of a trimmed text. */
  lemma FinalByte(text: string)
    requires Trimmed(text) && text != ""
    ensures TrimSpace(text[|text| - 1..]) == text[|text| - 1..]
  {
    SuffixEnds(text, |text| - 1);
    assert LeadSpace(text[|text| - 1..]) == 0;
    hide LeadSpace, TailSpace;
    TrimmedStays(text[|text| - 1..]);
  }

  /**
   The result is the trimmed text from the line at which the backward scan ends. A negative limit leaves
   only the final byte.
   */
  method LastLinesUntil(output: string, max: int, until: seq<string>) returns (r: string)
    ensures var text := TrimSpace(output);
      if text == "" || max == 0 then r == text
      else if max < 0 then r == text[|text| - 1..]
      else IsTail(text, max, until, r)
  {
    hide *;
    var text := TrimSpace(output);
    TrimSpaceTrims(output);
    var index := |text| - 1;
    if index < 0 || max == 0 {
      return text;
    }
    ghost var k: nat := |Examined(text)|;
    var left := max;
    ScanStarts(text, max, until);
    FinalByte(text);
    while left > 0
      invariant 0 <= index < |text| && k <= |Examined(text)|
      invariant Scanned(text, index, k, left, max, until)
      invariant k < |Examined(text)| ==> (StopsAt(Examined(text), k, max, until) <==> left <= 0)
      invariant left <= 0 ==> k < |Examined(text)| || max < 0
      invariant max < 0 ==> left <= 0 && index == |text| - 1
      decreases index
    {
      var next := LastNewline(text[..index]);
      ScanGoesBack(text, index, k, left, max, until);
      if next <= 0 {
        TrimmedEnds(text);
        TrimmedStays(text);
        ScanEnds(text, index, k, left, max, until);
        TailWhole(text, max, until);
        return TrimSpace(text);
      }
      var line := TrimSpace(text[next + 1..index]);
      if |line| > 0 {
        left := left - 1;
      }
      index, k := next, k - 1;
      var found := StringStartsWithAny(line, until);
      if found {
        break;
      }
    }
    ScanEnds(text, index, k, left, max, until);
    r := TrimSpace(text[index..]);
    TailFound(text, k, max, until, r);
  }

  // ---- what is left of the text ----

  /** The result is a suffix of the text, and only white space stands between the line's start and the result. */
  lemma TailIsSuffix(text: string, k: nat)
    requires Trimmed(text) && 1 <= k < |Split(text)|
    ensures var r := TrimSpace(TextFrom(text, k));
      exists gap :: TrimSpace(gap) == "" && text == Join(Split(text)[..k]) + "\n" + gap + r
  {
    hide TailSpace, LeadSpace, Split, Join;
    var lines := Split(text);
    var s := TextFrom(text, k);
    JoinSplit(text);
    JoinAt(lines[..k], lines[k..]);
    assert lines[..k] + lines[k..] == lines;
    assert text[|text| - |s|..] == s;
    SuffixTrims(text, |text| - |s|);
    GapIsBlank(s);
    TrimLeftEnds(s);
    var gap := s[..|s| - |TrimLeft(s)|];
    assert s == gap + TrimLeft(s) && TrimSpace(gap) == "";
    assert text == Join(lines[..k]) + "\n" + (gap + TrimLeft(s));
    assert text == Join(lines[..k]) + "\n" + gap + TrimLeft(s);
  }

  lemma TrimStep(s: string)
    requires LeadSpace(s) > 0
    ensures TrimLeft(s) == TrimLeft(s[LeadSpace(s)..]) && |TrimLeft(s)| <= |s| - LeadSpace(s)
  {
    hide LeadSpace;
  }

  lemma TrimNothing(s: string)
    ensures LeadSpace(s) == 0 ==> TrimLeft(s) == s
    ensures TrimLeft("") == ""
  {
    hide LeadSpace;
  }

  lemma {:induction false} GapIsBlank(s: string)
    ensures TrimLeft(s[..|s| - |TrimLeft(s)|]) == ""
    decreases |s|
  {
    hide LeadSpace, TrimLeft;
    var n := LeadSpace(s);
    var gap := s[..|s| - |TrimLeft(s)|];
    TrimNothing(s);
    if n > 0 {
      var rest := s[n..];
      TrimStep(s);
      LeadPrefix(s, |gap|);
      TrimStep(gap);
      GapIsBlank(rest);
      assert gap[n..] == rest[..|rest| - |TrimLeft(rest)|];
    } else {
      assert gap == "";
    }
  }

  lemma LeadPrefix(s: string, m: nat)
    requires 0 < LeadSpace(s) <= m <= |s|
    ensures LeadSpace(s[..m]) == LeadSpace(s)
  {
  }

  // ---- how many lines are left ----

  lemma {:induction false} CountPlus(a: seq<string>, b: seq<string>)
    ensures NonBlank(a + b) == NonBlank(a) + NonBlank(b)
  {
    hide TrimSpace;
    if a == [] {
      assert a + b == b;
    } else {
      assert (a + b)[1..] == a[1..] + b;
      CountPlus(a[1..], b);
    }
  }

  function Counted(line: string): nat {
    if TrimSpace(line) != "" then 1 else 0
  }

  lemma CountOne(line: string)
    ensures NonBlank([line]) == Counted(line)
  {
    hide TrimSpace;
    assert [line][1..] == [];
  }

  lemma CountFirst(first: string, other: string, rest: seq<string>)
    ensures NonBlank([first] + rest) - Counted(first) == NonBlank([other] + rest) - Counted(other)
  {
    CountPlus([first], rest);
    CountPlus([other], rest);
    CountOne(first);
    CountOne(other);
  }

  /** A line that holds only white space and loses no more than white space is not counted before or after. */
  lemma LeadCounts(x: string, line: string)
    requires LeadSpace(x) == |x| > 0
    ensures Counted(x + line) == Counted(line)
  {
    LeadExtends(x, line);
    hide LeadSpace, TrimRight;
    TrimStep(x + line);
    assert (x + line)[|x|..] == line;
  }

  lemma LeadExtends(x: string, line: string)
    requires LeadSpace(x) == |x| > 0
    ensures LeadSpace(x + line) == |x|
  {
    assert (x + line)[..|x|] == x;
    assert forall i :: 0 <= i < |x| ==> (x + line)[i] == x[i];
  }

  /** White space other than a newline only makes the first line longer. */
  lemma {:induction false} SplitPad(x: string, s: string)
    requires '\n' !in x
    ensures var lines := Split(s); Split(x + s) == [x + lines[0]] + lines[1..]
  {
    var lines := Split(s);
    if x == "" {
      assert x + s == s && x + lines[0] == lines[0];
    } else {
      SplitPad(x[1..], s);
      assert x + s == [x[0]] + (x[1..] + s) && [x[0]] + (x[1..] + lines[0]) == x + lines[0];
    }
  }

  lemma SpaceOrNewline(s: string)
    requires LeadSpace(s) > 0
    ensures var x := s[..LeadSpace(s)]; LeadSpace(x) == |x| && (x == "\n" || '\n' !in x)
  {
  }

  /** A white space character at the start of a text adds no line that is not blank. */
  lemma SpaceAddsNothing(s: string)
    requires LeadSpace(s) > 0
    ensures NonBlank(Split(s)) == NonBlank(Split(s[LeadSpace(s)..]))
  {
    hide *;
    var x, rest := s[..LeadSpace(s)], s[LeadSpace(s)..];
    SpaceOrNewline(s);
    assert s == x + rest;
    if '\n' in x {
      NewlineCounts(rest);
    } else {
      PadCounts(x, rest);
    }
  }

  /** Trimming the start of a text removes blank lines only. */
  lemma {:induction false} TrimKeepsCount(s: string)
    ensures NonBlank(Split(TrimLeft(s))) == NonBlank(Split(s))
    decreases |s|
  {
    hide *;
    TrimNothing(s);
    if LeadSpace(s) > 0 {
      TrimStep(s);
      SpaceAddsNothing(s);
      TrimKeepsCount(s[LeadSpace(s)..]);
    }
  }

  lemma NewlineCounts(s: string)
    ensures NonBlank(Split("\n" + s)) == NonBlank(Split(s))
  {
    hide Split, TrimLeft;
    SplitAt("", s);
    SplitLine("");
    assert "" + "\n" + s == "\n" + s;
    CountPlus([""], Split(s));
    CountOne("");
    TrimNothing("");
  }

  lemma PadCounts(x: string, s: string)
    requires LeadSpace(x) == |x| > 0 && '\n' !in x
    ensures NonBlank(Split(x + s)) == NonBlank(Split(s))
  {
    hide LeadSpace, NonBlank, Split, Counted;
    var lines := Split(s);
    SplitPad(x, s);
    LeadCounts(x, lines[0]);
    CountFirst(x + lines[0], lines[0], lines[1..]);
    assert lines == [lines[0]] + lines[1..];
  }

  /** A text of white space only ends in white space. */
  lemma {:induction false} BlankEnds(s: string)
    requires s != "" && TrimLeft(s) == ""
    ensures TailSpace(s) > 0
    decreases |s|
  {
    hide LeadSpace, TailSpace, TrimLeft;
    TrimNothing(s);
    var n := LeadSpace(s);
    assert n > 0;
    TrimStep(s);
    if n == |s| {
      OneSpaceEnds(s);
    } else {
      BlankEnds(s[n..]);
      if TailSpace(s) == 0 {
        SuffixEnds(s, n);
      }
    }
  }

  lemma OneSpaceEnds(s: string)
    requires LeadSpace(s) == |s| > 0
    ensures TailSpace(s) > 0
  {
  }

  lemma NotBlankAtEnd(text: string, p: nat)
    requires TailSpace(text) == 0 && p < |text|
    ensures TrimSpace(text[p..]) != ""
  {
    SuffixTrims(text, p);
    SuffixEnds(text, p);
    hide *;
    if TrimLeft(text[p..]) == "" {
      BlankEnds(text[p..]);
    }
  }

  lemma LastLineCounts(text: string)
    requires Trimmed(text) && text != ""
    ensures var all := Split(text); Counted(all[|all| - 1]) == 1
  {
    hide *;
    LineBack(text);
    TrimmedTail(text);
    var p := LastNewline(text);
    if p < 0 {
      NotBlankAtEnd(text, 0);
      assert text[0..] == text;
      CountedLine(text);
    } else {
      NotBlankAtEnd(text, p + 1);
      CountedLine(text[p + 1..]);
    }
  }

  lemma TrimmedTail(text: string)
    requires Trimmed(text) && text != ""
    ensures TailSpace(text) == 0 && LastNewline(text) < |text| - 1
  {
    TrimmedEnds(text);
  }

  lemma CountedLine(line: string)
    requires TrimSpace(line) != ""
    ensures Counted(line) == 1
  {
  }

  /** Of the last line, only the final byte is not white space. */
  predicate LastByteAlone(text: string)
    requires text != ""
  {
    var lines := Examined(text);
    TrimSpace(lines[|lines| - 1]) == ""
  }

  lemma LeftCount(text: string, k: nat)
    requires Trimmed(text) && text != "" && k < |Examined(text)|
    ensures k < |Split(text)| &&
      NonBlank(Split(text)[k..]) == NonBlank(Examined(text)[k..]) + (if LastByteAlone(text) then 1 else 0)
  {
    hide LeadSpace, TailSpace, TrimSpace, NonBlank, Split, Examined;
    TrimmedEnds(text);
    ExaminedLines(text);
    LastLineCounts(text);
    var lines, all, n := Examined(text), Split(text), |Examined(text)| - 1;
    assert all[k..] == all[k..n] + [all[n]] && lines[k..] == lines[k..n] + [lines[n]];
    assert all[k..n] == all[..n][k..] && lines[k..n] == lines[..n][k..];
    CountPlus(all[k..n], [all[n]]);
    CountPlus(lines[k..n], [lines[n]]);
    CountOne(all[n]);
    CountOne(lines[n]);
  }

  lemma TailCount(text: string, k: nat)
    requires Trimmed(text) && text != "" && k < |Examined(text)|
    ensures k < |Split(text)| &&
      NonBlank(Split(TrimSpace(TextFrom(text, k)))) == NonBlank(Split(text)[k..])
  {
    hide LeadSpace, TailSpace, NonBlank, Split, Join, TrimSpace;
    TrimmedEnds(text);
    ExaminedLines(text);
    var all := Split(text);
    var s := TextFrom(text, k);
    TextFromIsSuffix(text, k);
    SuffixTrims(text, |text| - |s|);
    TrimKeepsCount(s);
    SplitPieces(text);
    SplitJoin(all[k..]);
  }

  lemma TextFromIsSuffix(text: string, k: nat)
    requires k < |Split(text)|
    ensures var s := TextFrom(text, k); |s| <= |text| && text[|text| - |s|..] == s
  {
    hide Split, Join;
    var all := Split(text);
    JoinSplit(text);
    if k == 0 {
      assert all[k..] == all;
    } else {
      JoinAt(all[..k], all[k..]);
      assert all[..k] + all[k..] == all;
    }
  }

  lemma {:induction false} NoCut(text: string, j: nat, max: int, until: seq<string>)
    requires text != "" && |Examined(text)| == |Split(text)| && forall k: nat :: !CutsAt(text, k, max, until)
    requires 1 <= j
    ensures forall i :: j <= i < |Examined(text)| ==> !StopsAt(Examined(text), i, max, until)
    decreases |Examined(text)| - j
  {
    hide StopsAt, Split, Examined;
    if j < |Examined(text)| {
      NoCut(text, j + 1, max, until);
      assert !CutsAt(text, j, max, until);
    }
  }

  /** Fewer than `max` lines are counted after a line before which the scan has not ended. */
  lemma CountedBefore(lines: seq<string>, k: nat, max: int, until: seq<string>)
    requires k < |lines| && max >= 1 && forall j :: k < j < |lines| ==> !StopsAt(lines, j, max, until)
    ensures NonBlank(lines[k..]) <= max
  {
    hide TrimSpace, StartsWithAny, NonBlank;
    CountBack(lines, k);
    if k + 1 < |lines| {
      Stopping(lines, k + 1, max, until);
    } else {
      assert lines[k + 1..] == [];
      CountNone();
    }
  }

  lemma SameLines(text: string)
    requires Trimmed(text) && text != ""
    ensures |Examined(text)| == |Split(text)|
  {
    TrimmedEnds(text);
    ExaminedLines(text);
  }

  lemma CountNone()
    ensures NonBlank([]) == 0
  {
  }

  /**
   At most `max` lines that are not blank are left, and one more exactly if the final byte alone keeps the last
   line from being blank; fewer are left only if a marker or the first line ended the scan.
   */
  lemma TailIsShort(text: string, max: int, until: seq<string>, r: string)
    requires Trimmed(text) && text != "" && max >= 1
    ensures var limit := if LastByteAlone(text) then max + 1 else max;
      IsTail(text, max, until, r) ==>
      && NonBlank(Split(r)) <= limit
      && (NonBlank(Split(r)) < limit ==>
          || r == text
          || exists k: nat :: CutsAt(text, k, max, until) && StartsWithAny(TrimSpace(Examined(text)[k]), until))
  {
    hide LeadSpace, TailSpace, TrimSpace, NonBlank, Split, Examined, LastByteAlone, StopsAt, StartsWithAny;
    hide TextFrom, Trimmed;
    if k: nat :| CutsAt(text, k, max, until) {
      CountedBefore(Examined(text), k, max, until);
      LeftCount(text, k);
      TailCount(text, k);
      Stopping(Examined(text), k, max, until);
    } else {
      LeftCount(text, 0);
      SameLines(text);
      NoCut(text, 1, max, until);
      CountedBefore(Examined(text), 0, max, until);
      assert Split(text)[0..] == Split(text);
    }
  }

  // ---- markers ----

  lemma SpaceAcross(t: string, y: string)
    requires t != "" && y != "" && LeadSpace(t) == 0 && (y[0] == '\n' || (|y| == 1 && TailSpace(t + y) == 0))
    ensures LeadSpace(t + y) == 0
  {
    assert (t + y)[0] == t[0] && (t + y)[|t|] == y[0];
    assert |t| > 1 ==> (t + y)[1] == t[1];
    assert |t| > 2 ==> (t + y)[2] == t[2];
  }

  /** Trimming the start of a line that is not blank leaves what follows the line. */
  lemma {:induction false} TrimAhead(line: string, y: string)
    requires TrimLeft(line) != "" && LeadSpace(TrimLeft(line) + y) == 0
    ensures TrimLeft(line + y) == TrimLeft(line) + y
    decreases |line|
  {
    hide *;
    TrimNothing(line);
    TrimNothing(line + y);
    if LeadSpace(line) > 0 {
      TrimStep(line);
      LeadStays(line, y);
      TrimStep(line + y);
      TrimAhead(line[LeadSpace(line)..], y);
    }
  }

  lemma LeadStays(line: string, y: string)
    requires LeadSpace(line) > 0
    ensures LeadSpace(line + y) == LeadSpace(line)
    ensures (line + y)[LeadSpace(line)..] == line[LeadSpace(line)..] + y
  {
    var n := LeadSpace(line);
    LeadPrefix(line, n);
    LeadExtends(line[..n], line[n..] + y);
    hide *;
    assert line + y == line[..n] + (line[n..] + y);
  }

  /** What follows an examined line in the text. */
  predicate Follows(y: string) {
    y != "" && (y[0] == '\n' || |y| == 1)
  }

  lemma JoinFirst(lines: seq<string>, k: nat)
    requires k + 1 < |lines|
    ensures Join(lines[k..]) == lines[k] + ("\n" + Join(lines[k + 1..]))
  {
    hide Join;
    JoinAt([lines[k]], lines[k + 1..]);
    JoinOne(lines[k]);
    assert lines[k..] == [lines[k]] + lines[k + 1..];
  }

  lemma AfterLine(text: string, k: nat)
    requires Trimmed(text) && text != "" && k < |Examined(text)|
    ensures k < |Split(text)|
    ensures exists y :: Follows(y) && TextFrom(text, k) == Examined(text)[k] + y
  {
    hide LeadSpace, TailSpace, Split, Examined, Join;
    TrimmedEnds(text);
    ExaminedLines(text);
    var all, lines := Split(text), Examined(text);
    if k + 1 < |all| {
      JoinFirst(all, k);
      assert lines[k] == lines[..|all| - 1][k] == all[..|all| - 1][k] == all[k];
      assert Follows("\n" + Join(all[k + 1..]));
    } else {
      assert all[k..] == [all[k]];
      JoinOne(all[k]);
      assert Follows([text[|text| - 1]]);
    }
  }

  lemma JoinOne(line: string)
    ensures Join([line]) == line
  {
  }

  lemma LineLeads(text: string, k: nat)
    requires Trimmed(text) && text != "" && k < |Examined(text)|
    ensures k < |Split(text)| && TrimSpace(Examined(text)[k]) <= TrimSpace(TextFrom(text, k))
  {
    hide LeadSpace, TailSpace, Split, Examined, TextFrom, TrimLeft;
    AfterLine(text, k);
    var line, s := Examined(text)[k], TextFrom(text, k);
    var y :| Follows(y) && s == line + y;
    var t := TrimLeft(line);
    TextFromIsSuffix(text, k);
    SuffixEnds(text, |text| - |s|);
    SuffixTrims(text, |text| - |s|);
    TrimLeftEnds(line);
    TrimRightEnds(t);
    if t != "" {
      assert s[|line| - |t|..] == t + y;
      SuffixEnds(s, |line| - |t|);
      SpaceAcross(t, y);
      TrimAhead(line, y);
    }
  }

  /** If the scan stopped at a marker, the result starts with one and no line examined before does. */
  lemma MarkerLeads(text: string, k: nat, max: int, until: seq<string>, r: string)
    requires Trimmed(text) && text != ""
    ensures
      (&& IsTail(text, max, until, r) && CutsAt(text, k, max, until)
       && StartsWithAny(TrimSpace(Examined(text)[k]), until))
      ==>
      && StartsWithAny(r, until)
      && forall j :: k < j < |Examined(text)| ==> !StartsWithAny(TrimSpace(Examined(text)[j]), until)
  {
    hide LeadSpace, TailSpace, TrimSpace, Split, Examined, TextFrom, NonBlank, Trimmed;
    if IsTail(text, max, until, r) && CutsAt(text, k, max, until)
      && StartsWithAny(TrimSpace(Examined(text)[k]), until)
    {
      LineLeads(text, k);
      var i :| 0 <= i < |until| && HasPrefix(TrimSpace(Examined(text)[k]), until[i]);
      assert HasPrefix(r, until[i]);
      forall j | k < j < |Examined(text)| ensures !StartsWithAny(TrimSpace(Examined(text)[j]), until) {
        assert !StopsAt(Examined(text), j, max, until);
      }
    }
  }
}
