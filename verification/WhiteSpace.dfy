/** Trimming bytes and trimming code points agree on text. */
module WhiteSpace {
  import opened Quoting
  import SuiteFile
  import LogTail

  /** Bytes as the characters of a byte string. */
  function Raw(b: Bytes): (s: string)
    requires forall i :: 0 <= i < |b| ==> 0 <= b[i] <= 0xff
    ensures |s| == |b|
  {
    seq(|b|, i requires 0 <= i < |b| => b[i] as char)
  }

  function CharBytes(c: char): (s: string)
    ensures 1 <= |s| <= 4
  {
    Utf8Shape(c);
    Raw(Utf8Char(c))
  }

  /** A text as a byte string. */
  function TextBytes(s: string): string {
    if s == "" then "" else CharBytes(s[0]) + TextBytes(s[1..])
  }

  lemma {:induction false} TextBytesConcat(s: string, t: string)
    ensures TextBytes(s + t) == TextBytes(s) + TextBytes(t)
  {
    hide CharBytes;
    if s == "" {
      assert s + t == t;
    } else {
      assert (s + t)[1..] == s[1..] + t;
      TextBytesConcat(s[1..], t);
    }
  }

  lemma TextBytesOne(c: char)
    ensures TextBytes([c]) == CharBytes(c)
  {
    hide CharBytes;
    assert [c][1..] == "";
  }

  /** The byte patterns of each length are those of the white space characters. */
  lemma PatternIsSpace(c: char)
    ensures var s := CharBytes(c);
      && |s| == |Utf8Char(c)|
      && (|s| == 1 ==> (LogTail.Space1(s[0]) <==> SuiteFile.IsSpace(c)))
      && (|s| == 2 ==> (LogTail.Space2(s[0], s[1]) <==> SuiteFile.IsSpace(c)))
      && (|s| == 3 ==> (LogTail.Space3(s[0], s[1], s[2]) <==> SuiteFile.IsSpace(c)))
      && (|s| == 4 ==> !SuiteFile.IsSpace(c))
  {
    Utf8Shape(c);
  }

  /** The first byte tells the length, and the others are continuation bytes. */
  lemma Marks(c: char)
    ensures var s := CharBytes(c);
      && (|s| == 1 <==> s[0] <= '\U{7f}') && (|s| == 2 <==> '\U{c2}' <= s[0] <= '\U{df}')
      && (|s| == 3 <==> '\U{e0}' <= s[0] <= '\U{ef}')
      && forall i :: 1 <= i < |s| ==> '\U{80}' <= s[i] <= '\U{bf}'
  {
    Utf8Shape(c);
    hide Utf8Char;
  }

  /** Where a character starts, white space is found exactly if the character is white space. */
  lemma LeadIsSpace(c: char, rest: string)
    ensures LogTail.LeadSpace(CharBytes(c) + rest) == if SuiteFile.IsSpace(c) then |CharBytes(c)| else 0
  {
    PatternIsSpace(c);
    Marks(c);
    hide CharBytes, SuiteFile.IsSpace, Utf8Char;
  }

  /** The same where a character ends. */
  lemma TailIsSpace(front: string, c: char)
    ensures LogTail.TailSpace(front + CharBytes(c)) == if SuiteFile.IsSpace(c) then |CharBytes(c)| else 0
  {
    PatternIsSpace(c);
    Marks(c);
    hide CharBytes, SuiteFile.IsSpace, Utf8Char;
    var b, s := CharBytes(c), front + CharBytes(c);
    assert forall i :: 0 <= i < |b| ==> s[|front| + i] == b[i];
  }

  lemma {:induction false} TrimLeftAlike(s: string)
    ensures LogTail.TrimLeft(TextBytes(s)) == TextBytes(SuiteFile.TrimLeft(s))
    decreases |s|
  {
    hide CharBytes, LogTail.LeadSpace, SuiteFile.IsSpace;
    if s == "" {
      LogTail.TrimNothing("");
    } else {
      var first, rest := CharBytes(s[0]), TextBytes(s[1..]);
      LeadIsSpace(s[0], rest);
      if SuiteFile.IsSpace(s[0]) {
        assert (first + rest)[|first|..] == rest;
        TrimLeftAlike(s[1..]);
      }
    }
  }

  lemma {:induction false} TrimRightAlike(s: string)
    ensures LogTail.TrimRight(TextBytes(s)) == TextBytes(SuiteFile.TrimRight(s))
    decreases |s|
  {
    hide CharBytes, LogTail.TailSpace, SuiteFile.IsSpace;
    if s != "" {
      var n := |s| - 1;
      var front, last := TextBytes(s[..n]), CharBytes(s[n]);
      assert s == s[..n] + [s[n]];
      TextBytesConcat(s[..n], [s[n]]);
      TextBytesOne(s[n]);
      hide TextBytes;
      TailIsSpace(front, s[n]);
      if SuiteFile.IsSpace(s[n]) {
        assert (front + last)[..|front + last| - |last|] == front;
        TrimRightAlike(s[..n]);
      }
    }
  }

  /** Trimming the bytes of a text gives the bytes of the trimmed text. */
  lemma TrimsAlike(s: string)
    ensures LogTail.TrimSpace(TextBytes(s)) == TextBytes(SuiteFile.TrimSpace(s))
  {
    hide LogTail.TrimLeft, LogTail.TrimRight, SuiteFile.TrimLeft, SuiteFile.TrimRight, TextBytes;
    TrimLeftAlike(s);
    TrimRightAlike(SuiteFile.TrimLeft(s));
  }

  lemma EmptyBytes(s: string)
    ensures TextBytes(s) == "" <==> s == ""
  {
  }

  /** So a line of text counts as blank exactly if all its characters are white space. */
  lemma BlankLine(s: string)
    ensures LogTail.TrimSpace(TextBytes(s)) == "" <==> SuiteFile.Blank(s)
  {
    hide LogTail.TrimSpace, SuiteFile.TrimSpace, SuiteFile.Blank, TextBytes;
    TrimsAlike(s);
    EmptyBytes(SuiteFile.TrimSpace(s));
    SuiteFile.TrimmedAway(s);
  }
}
