/** The dry-run listing of a suite and the suite read back from such a listing. */
module SuiteFile {
  import opened Strings
  import opened Sequences
  import opened Tests
  import opened Quoting

  /** Unicode white space, as Go's TrimSpace removes it. */
  predicate IsSpace(c: char) {
    '\t' <= c <= '\r' || c == ' ' || c == '\U{85}' || c == '\U{a0}' || c == '\U{1680}'
    || '\U{2000}' <= c <= '\U{200a}' || c == '\U{2028}' || c == '\U{2029}' || c == '\U{202f}'
    || c == '\U{205f}' || c == '\U{3000}'
  }

  predicate Blank(s: string) {
    forall i :: 0 <= i < |s| ==> IsSpace(s[i])
  }

  function TrimLeft(s: string): string {
    if s != "" && IsSpace(s[0]) then TrimLeft(s[1..]) else s
  }

  function TrimRight(s: string): string {
    if s != "" && IsSpace(s[|s| - 1]) then TrimRight(s[..|s| - 1]) else s
  }

  function TrimSpace(s: string): string {
    TrimRight(TrimLeft(s))
  }

  /** White space by number, as the Unicode property White_Space lists it. */
  lemma IsSpaceIff(c: char)
    ensures IsSpace(c) <==>
      (c as int) in {9, 10, 11, 12, 13, 32, 0x85, 0xa0, 0x1680, 0x2000, 0x2001, 0x2002, 0x2003, 0x2004, 0x2005, 0x2006,
                     0x2007, 0x2008, 0x2009, 0x200a, 0x2028, 0x2029, 0x202f, 0x205f, 0x3000}
  {
  }

  /** Trimming leaves nothing of a text exactly if it is all white space. */
  lemma {:induction false} TrimmedAway(s: string)
    ensures TrimSpace(s) == "" <==> Blank(s)
    decreases |s|
  {
    hide IsSpace;
    if s != "" && IsSpace(s[0]) {
      TrimmedAway(s[1..]);
      assert forall i :: 0 < i < |s| ==> s[1..][i - 1] == s[i];
    } else if s != "" {
      FirstStays(s);
    }
  }

  lemma {:induction false} FirstStays(s: string)
    requires s != "" && !IsSpace(s[0])
    ensures TrimRight(s) != ""
    decreases |s|
  {
    hide IsSpace;
    if IsSpace(s[|s| - 1]) {
      FirstStays(s[..|s| - 1]);
    }
  }

  lemma {:induction false} TrimLeftBlank(a: string, s: string)
    requires Blank(a) && s != "" && !IsSpace(s[0])
    ensures TrimLeft(a + s) == s
  {
    if a == "" {
      assert a + s == s;
    } else {
      assert (a + s)[1..] == a[1..] + s;
      TrimLeftBlank(a[1..], s);
    }
  }

  lemma {:induction false} TrimRightBlank(s: string, b: string)
    requires Blank(b) && s != "" && !IsSpace(s[|s| - 1])
    ensures TrimRight(s + b) == s
  {
    if b == "" {
      assert s + b == s;
    } else {
      assert (s + b)[..|s + b| - 1] == s + b[..|b| - 1];
      TrimRightBlank(s, b[..|b| - 1]);
    }
  }

  lemma TrimPadded(a: string, s: string, b: string)
    requires Blank(a) && Blank(b) && s != "" && !IsSpace(s[0]) && !IsSpace(s[|s| - 1])
    ensures TrimSpace(a + s + b) == s
  {
    assert a + s + b == a + (s + b);
    TrimLeftBlank(a, s + b);
    TrimRightBlank(s, b);
  }

  // ---- reading a suite ----

  datatype Parsed = Suite(names: map<Bytes, nat>) | Invalid

  predicate IsEntry(line: string) {
    var t := TrimSpace(line);
    t != "" && t[0] == '"'
  }

  /** Only lines that start with a double quote, blanks aside, are entries. */
  lemma IsEntryIff(line: string)
    ensures IsEntry(line) <==> exists rest :: TrimSpace(line) == "\"" + rest
  {
    hide TrimSpace;
    var t := TrimSpace(line);
    if IsEntry(line) {
      assert t == "\"" + t[1..];
    }
  }

  function Entry(line: string): Unquoted {
    Unquote(TrimSpace(line))
  }

  /** How often a list of lines names a test. */
  function Mentions(lines: seq<string>, name: Bytes): nat {
    if lines == [] then 0 else
    var line := lines[|lines| - 1];
    Mentions(lines[..|lines| - 1], name) + if IsEntry(line) && Entry(line) == Name(name) then 1 else 0
  }

  ghost predicate Readable(lines: seq<string>) {
    forall i :: 0 <= i < |lines| && IsEntry(lines[i]) ==> !Entry(lines[i]).SyntaxError?
  }

  /** Counts the quoted names; other lines are passed over, a malformed quoted line is an error. */
  method NewSuiteFromFile(contents: string) returns (parsed: Parsed)
    ensures parsed.Invalid? <==> !Readable(Split(contents))
    ensures parsed.Suite? ==> forall name ::
      if name in parsed.names then parsed.names[name] == Mentions(Split(contents), name) > 0
      else Mentions(Split(contents), name) == 0
  {
    hide Unquote, TrimSpace;
    var lines := Split(contents);
    var tests: map<Bytes, nat> := map[];
    for i := 0 to |lines|
      invariant forall k :: 0 <= k < i && IsEntry(lines[k]) ==> !Entry(lines[k]).SyntaxError?
      invariant forall name ::
        if name in tests then tests[name] == Mentions(lines[..i], name) > 0 else Mentions(lines[..i], name) == 0
    {
      assert lines[..i + 1][..i] == lines[..i];
      var line := TrimSpace(lines[i]);
      if line != "" && line[0] == '"' {
        match Unquote(line) {
          case SyntaxError => return Invalid;
          case Name(name) => tests := tests[name := if name in tests then tests[name] + 1 else 1];
        }
      }
    }
    assert lines[..|lines|] == lines;
    parsed := Suite(tests);
  }

  /** The tests a suite selects, in order. */
  method SelectTests(names: map<Bytes, nat>, tests: seq<Test>) returns (matches: seq<Test>)
    ensures matches == Selected(names.Keys, tests)
  {
    matches := [];
    for i := 0 to |tests|
      invariant matches == Selected(names.Keys, tests[..i])
    {
      assert tests[..i + 1][..i] == tests[..i];
      if Utf8(tests[i].name) !in names {
        continue;
      }
      matches := matches + [tests[i]];
    }
    assert tests[..|tests|] == tests;
  }

  function Selected(names: set<Bytes>, tests: seq<Test>): seq<Test> {
    if tests == [] then [] else
    var last := tests[|tests| - 1];
    Selected(names, tests[..|tests| - 1]) + if Utf8(last.name) in names then [last] else []
  }

  // ---- listing a suite ----

  ghost predicate ByName(tests: seq<Test>) {
    forall i, j :: 0 <= i < j < |tests| ==> !StringLess(tests[j].name, tests[i].name)
  }

  /** Stands for the sort of the listing: some permutation ordered by name, of which callers know no more. */
  method SortedTests(tests: seq<Test>) returns (sorted: seq<Test>)
    ensures multiset(sorted) == multiset(tests) && ByName(sorted)
  {
    hide StringLess;
    sorted := [];
    for i := 0 to |tests|
      invariant multiset(sorted) == multiset(tests[..i]) && ByName(sorted)
    {
      var t := tests[i];
      var k := |sorted|;
      while k > 0 && StringLess(t.name, sorted[k - 1].name)
        invariant 0 <= k <= |sorted| && forall m :: k <= m < |sorted| ==> StringLess(t.name, sorted[m].name)
      {
        k := k - 1;
      }
      InsertByName(sorted, k, t);
      assert tests[..i + 1] == tests[..i] + [t];
      sorted := sorted[..k] + [t] + sorted[k..];
    }
    assert tests[..|tests|] == tests;
  }

  lemma InsertByName(sorted: seq<Test>, k: nat, t: Test)
    requires ByName(sorted) && k <= |sorted|
    requires forall m :: k <= m < |sorted| ==> StringLess(t.name, sorted[m].name)
    requires k > 0 ==> !StringLess(t.name, sorted[k - 1].name)
    ensures ByName(sorted[..k] + [t] + sorted[k..])
    ensures multiset(sorted[..k] + [t] + sorted[k..]) == multiset(sorted) + multiset{t}
  {
    InsertPermutes(sorted, k, t);
    hide StringLess;
    var r := sorted[..k] + [t] + sorted[k..];
    forall i, j | 0 <= i < j < |r| ensures !StringLess(r[j].name, r[i].name) {
      if i < k == j && i < k - 1 {
        StringsChain(sorted[i].name, sorted[k - 1].name, t.name);
      } else if i == k {
        StringsCompare(t.name, r[j].name, t.name);
      }
    }
  }

  /** One line of a file made from a listing: a listed name, with blanks around it, or anything else. */
  datatype FileLine = Listed(before: string, name: string, after: string) | Other(text: string)

  predicate WellFormed(l: FileLine) {
    match l
    case Listed(before, _, after) => Blank(before) && Blank(after) && '\n' !in before && '\n' !in after
    case Other(text) => '\n' !in text && !IsEntry(text)
  }

  function Render(l: FileLine, printable: char -> bool): string {
    match l
    case Listed(before, name, after) => before + Quote(name, printable) + after
    case Other(text) => text
  }

  function RenderAll(ls: seq<FileLine>, printable: char -> bool): seq<string> {
    seq(|ls|, i requires 0 <= i < |ls| => Render(ls[i], printable))
  }

  lemma RenderedLine(l: FileLine, printable: char -> bool)
    requires WellFormed(l)
    ensures '\n' !in Render(l, printable)
    ensures l.Listed? ==> IsEntry(Render(l, printable)) && Entry(Render(l, printable)) == Name(Utf8(l.name))
    ensures l.Other? ==> !IsEntry(Render(l, printable))
  {
    hide Unquote;
    if l.Listed? {
      var q := Quote(l.name, printable);
      EscapeAllIsOneLine(l.name, printable);
      TrimPadded(l.before, q, l.after);
      QuoteRoundTrip(l.name, printable);
      hide TrimSpace, Quote;
    }
  }

  /** The names of a file, as bytes. */
  function ListedNames(ls: seq<FileLine>): set<Bytes> {
    set i | 0 <= i < |ls| && ls[i].Listed? :: Utf8(ls[i].name)
  }

  /** A name is among the bytes exactly if some line lists it. */
  lemma ListedIff(ls: seq<FileLine>, name: string)
    ensures Utf8(name) in ListedNames(ls) <==> exists i :: 0 <= i < |ls| && ls[i].Listed? && ls[i].name == name
  {
    if i :| 0 <= i < |ls| && ls[i].Listed? && Utf8(ls[i].name) == Utf8(name) {
      Utf8Injective(ls[i].name, name);
    }
  }

  lemma {:induction false} MentionedIffListed(ls: seq<FileLine>, printable: char -> bool, name: Bytes)
    requires forall i :: 0 <= i < |ls| ==> WellFormed(ls[i])
    ensures Mentions(RenderAll(ls, printable), name) > 0 <==> name in ListedNames(ls)
  {
    hide Render, WellFormed, IsEntry, Entry, Utf8;
    if ls != [] {
      var n := |ls| - 1;
      var lines := RenderAll(ls, printable);
      assert lines[..n] == RenderAll(ls[..n], printable);
      MentionedIffListed(ls[..n], printable, name);
      RenderedLine(ls[n], printable);
      assert ListedNames(ls) == ListedNames(ls[..n]) + if ls[n].Listed? then {Utf8(ls[n].name)} else {};
    }
  }

  /** The names of a file, line by line. */
  function ListedBytes(ls: seq<FileLine>): seq<Bytes> {
    if ls == [] then [] else
    var last := ls[|ls| - 1];
    ListedBytes(ls[..|ls| - 1]) + if last.Listed? then [Utf8(last.name)] else []
  }

  /** A name is counted once per line that lists it. */
  lemma {:induction false} MentionsCounted(ls: seq<FileLine>, printable: char -> bool, name: Bytes)
    requires forall i :: 0 <= i < |ls| ==> WellFormed(ls[i])
    ensures Mentions(RenderAll(ls, printable), name) == multiset(ListedBytes(ls))[name]
  {
    hide Render, WellFormed, IsEntry, Entry, Utf8;
    if ls != [] {
      var n := |ls| - 1;
      var lines := RenderAll(ls, printable);
      assert lines[..n] == RenderAll(ls[..n], printable);
      MentionsCounted(ls[..n], printable, name);
      RenderedLine(ls[n], printable);
    }
  }

  /**
   Printer and parser undo each other: a file of quoted names, any of them, in any order, padded with
   blanks and mixed with lines that are no entries, is readable and mentions exactly those names.
   */
  lemma ReadBack(ls: seq<FileLine>, printable: char -> bool)
    requires ls != [] && forall i :: 0 <= i < |ls| ==> WellFormed(ls[i])
    ensures var lines := Split(Join(RenderAll(ls, printable)));
      && Readable(lines)
      && forall name :: Mentions(lines, name) > 0 <==> name in ListedNames(ls)
  {
    hide Render, WellFormed, IsEntry, Entry, ListedNames, Mentions;
    var lines := RenderAll(ls, printable);
    forall i | 0 <= i < |lines|
      ensures '\n' !in lines[i] && (IsEntry(lines[i]) ==> !Entry(lines[i]).SyntaxError?)
    {
      RenderedLine(ls[i], printable);
    }
    SplitJoin(lines);
    forall name ensures Mentions(lines, name) > 0 <==> name in ListedNames(ls) {
      MentionedIffListed(ls, printable, name);
    }
  }

  lemma {:induction false} SelectedExactly(names: set<Bytes>, tests: seq<Test>, t: Test)
    ensures multiset(Selected(names, tests))[t] == if Utf8(t.name) in names then multiset(tests)[t] else 0
  {
    hide Utf8;
    if tests != [] {
      var n := |tests| - 1;
      SelectedExactly(names, tests[..n], t);
      assert tests == tests[..n] + [tests[n]];
    }
  }

  /** Selected tests stay in their order. */
  lemma {:induction false} SelectedInOrder(names: set<Bytes>, a: seq<Test>, b: seq<Test>)
    ensures Selected(names, a + b) == Selected(names, a) + Selected(names, b)
  {
    hide Utf8;
    if b == [] {
      assert a + b == a;
    } else {
      var n := |b| - 1;
      assert (a + b)[..|a + b| - 1] == a + b[..n];
      SelectedInOrder(names, a, b[..n]);
    }
  }

  /** A suite read from such a file selects exactly the tests whose names are listed, every occurrence of them. */
  lemma ReadBackSelects(ls: seq<FileLine>, printable: char -> bool, names: map<Bytes, nat>, tests: seq<Test>, t: Test)
    requires ls != [] && forall i :: 0 <= i < |ls| ==> WellFormed(ls[i])
    requires forall name :: name in names <==> Mentions(Split(Join(RenderAll(ls, printable))), name) > 0
    ensures names.Keys == ListedNames(ls)
    ensures multiset(Selected(names.Keys, tests))[t] ==
      if exists i :: 0 <= i < |ls| && ls[i].Listed? && ls[i].name == t.name then multiset(tests)[t] else 0
  {
    hide WellFormed, ListedNames, Mentions, RenderAll, Split, Join, Utf8;
    ReadBack(ls, printable);
    SelectedExactly(names.Keys, tests, t);
    ListedIff(ls, t.name);
  }

  /** What a dry run writes: every name quoted, each followed by a newline. */
  function DryRun(tests: seq<Test>, printable: char -> bool): string {
    if tests == [] then "" else Quote(tests[0].name, printable) + "\n" + DryRun(tests[1..], printable)
  }

  function QuotedNames(tests: seq<Test>, printable: char -> bool): seq<string> {
    seq(|tests|, i requires 0 <= i < |tests| => Quote(tests[i].name, printable))
  }

  /** One line per test, in order, and nothing after the last newline. */
  lemma {:induction false} DryRunLines(tests: seq<Test>, printable: char -> bool)
    ensures Split(DryRun(tests, printable)) == QuotedNames(tests, printable) + [""]
  {
    hide Quote;
    if tests != [] {
      var line, rest := Quote(tests[0].name, printable), DryRun(tests[1..], printable);
      DryRunLines(tests[1..], printable);
      OneLine(tests[0].name, printable);
      SplitFirst(line, rest);
      assert QuotedNames(tests, printable) == [line] + QuotedNames(tests[1..], printable);
      hide Split;
    }
  }

  lemma OneLine(name: string, printable: char -> bool)
    ensures '\n' !in Quote(name, printable)
  {
    EscapeAllIsOneLine(name, printable);
  }

  /** Names of printable ASCII without quotes and backslashes are listed as they are. */
  lemma PlainDryRun(tests: seq<Test>, printable: char -> bool)
    requires forall i :: 0 <= i < |tests| ==> Plain(tests[i].name)
    ensures Split(DryRun(tests, printable))
      == seq(|tests|, i requires 0 <= i < |tests| => "\"" + tests[i].name + "\"") + [""]
  {
    DryRunLines(tests, printable);
    hide Quote, Plain, Split, DryRun;
    forall i | 0 <= i < |tests| ensures Quote(tests[i].name, printable) == "\"" + tests[i].name + "\"" {
      PlainQuote(tests[i].name, printable);
    }
    assert QuotedNames(tests, printable)
      == seq(|tests|, i requires 0 <= i < |tests| => "\"" + tests[i].name + "\"");
  }

  /** The dry run: the tests sorted by name, each printed quoted on a line of its own. */
  method PrintDryRun(tests: seq<Test>, printable: char -> bool) returns (out: string, ghost sorted: seq<Test>)
    ensures multiset(sorted) == multiset(tests) && ByName(sorted)
    ensures out == DryRun(sorted, printable) && Split(out) == QuotedNames(sorted, printable) + [""]
  {
    hide Quote, ByName, Split;
    var listed := SortedTests(tests);
    sorted, out := listed, "";
    for i := 0 to |listed|
      invariant out + DryRun(listed[i..], printable) == DryRun(listed, printable)
    {
      assert listed[i..][1..] == listed[i + 1..];
      out := out + Quote(listed[i].name, printable) + "\n";
    }
    DryRunLines(listed, printable);
  }

  function Listing(tests: seq<Test>): seq<FileLine> {
    if tests == [] then [Other("")] else [Listed("", tests[0].name, "")] + Listing(tests[1..])
  }

  lemma {:induction false} DryRunIsListing(tests: seq<Test>, printable: char -> bool)
    ensures Listing(tests) != [] && forall i :: 0 <= i < |Listing(tests)| ==> WellFormed(Listing(tests)[i])
    ensures DryRun(tests, printable) == Join(RenderAll(Listing(tests), printable))
    ensures forall t :: t in tests ==> Utf8(t.name) in ListedNames(Listing(tests))
  {
    hide Quote;
    if tests != [] {
      DryRunIsListing(tests[1..], printable);
      var ls := Listing(tests);
      var lines := RenderAll(ls, printable);
      assert lines[1..] == RenderAll(ls[1..], printable) && ls[1..] == Listing(tests[1..]);
      assert lines[0] == Quote(tests[0].name, printable);
      FirstListed(ls);
      hide Utf8;
      assert ListedNames(ls) == {Utf8(tests[0].name)} + ListedNames(ls[1..]);
    }
  }

  lemma FirstListed(ls: seq<FileLine>)
    requires ls != [] && ls[0].Listed?
    ensures ListedNames(ls) == {Utf8(ls[0].name)} + ListedNames(ls[1..])
  {
    hide Utf8;
    assert ls == [ls[0]] + ls[1..];
    forall name | name in ListedNames(ls) ensures name == Utf8(ls[0].name) || name in ListedNames(ls[1..]) {
      var i :| 0 <= i < |ls| && ls[i].Listed? && Utf8(ls[i].name) == name;
      assert i > 0 ==> ls[1..][i - 1] == ls[i];
    }
    assert forall i :: 0 <= i < |ls[1..]| ==> ls[1..][i] == ls[i + 1];
  }

  lemma {:induction false} SelectedAll(names: set<Bytes>, tests: seq<Test>)
    requires forall i :: 0 <= i < |tests| ==> Utf8(tests[i].name) in names
    ensures Selected(names, tests) == tests
  {
    if tests != [] {
      var n := |tests| - 1;
      SelectedAll(names, tests[..n]);
      assert tests == tests[..n] + [tests[n]];
    }
  }

  /** Running from the listing of a suite, in whatever order it was sorted, selects the whole suite again. */
  lemma ListingSelectsEverything(tests: seq<Test>, sorted: seq<Test>, printable: char -> bool, names: map<Bytes, nat>)
    requires multiset(sorted) == multiset(tests)
    requires forall name :: name in names <==> Mentions(Split(DryRun(sorted, printable)), name) > 0
    ensures Readable(Split(DryRun(sorted, printable))) && Selected(names.Keys, tests) == tests
  {
    hide Mentions, ListedNames, Readable, DryRun, Listing, Split;
    DryRunIsListing(sorted, printable);
    ReadBack(Listing(sorted), printable);
    forall i | 0 <= i < |tests| ensures Utf8(tests[i].name) in names.Keys {
      assert tests[i] in multiset(tests);
      assert tests[i] in sorted;
    }
    SelectedAll(names.Keys, tests);
  }
}
