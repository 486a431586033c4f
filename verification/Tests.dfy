/** The test cases a suite runs, as the scheduler sees them. */
module Tests {
  import opened Strings

  /** One test case. `exclusion` is the key of tests that must not overlap; empty means no constraint. */
  datatype Test = Test(id: nat, name: string, exclusion: string)

  predicate IsSerial(t: Test) {
    Contains(t.name, "[Serial]")
  }

  predicate IsSmoke(t: Test) {
    Contains(t.name, "[Smoke]")
  }

  /** The marks stand anywhere in the name. */
  lemma MarksIff(t: Test)
    ensures IsSerial(t) <==> exists front, rest :: t.name == front + ("[Serial]" + rest)
    ensures IsSmoke(t) <==> exists front, rest :: t.name == front + ("[Smoke]" + rest)
  {
    hide Contains;
    ContainsIff(t.name, "[Serial]");
    ContainsIff(t.name, "[Smoke]");
  }

  /** Two different positions of `tests` hold tests with one non-empty exclusion key. */
  ghost predicate SharesKey(tests: seq<Test>) {
    exists i, j :: 0 <= i < j < |tests| && tests[i].exclusion == tests[j].exclusion != ""
  }
}
