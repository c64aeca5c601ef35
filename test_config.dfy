/** The table of timed assessments and the list of those the user enabled:
    thirteen tests, each with the preference key that switches it on; the
    enabled list is the tests whose key is set, in table order, computed on
    first use and kept from then on. */
module TestConfigs {
  import opened Wrappers

  /** The preference keys (string resources) naming the tests. */
  datatype TestName =
    | TestVoice | TestBalance | TestGait
    | TestDexterity | TestDexterityLeft | TestDexterityRight
    | TestReaction
    | TestRestTremor | TestRestTremorLeft | TestRestTremorRight
    | TestPosturalTremor | TestPosturalTremorLeft | TestPosturalTremorRight

  /** The configuration of one test; `hand` is the constructor's "left" /
      "right" argument, None for the variant built without one. */
  datatype TestKind =
    | VoiceTest
    | BalanceTest
    | GaitTest
    | TapTest(hand: Option<string>)
    | ReactionTest
    | RestTremorTest(hand: Option<string>)
    | PosturalTremorTest(hand: Option<string>)

  const NumberOfAllTests: nat := 13

  const AllTestNames: seq<TestName> := [
    TestVoice, TestBalance, TestGait,
    TestDexterity, TestDexterityLeft, TestDexterityRight,
    TestReaction,
    TestRestTremor, TestRestTremorLeft, TestRestTremorRight,
    TestPosturalTremor, TestPosturalTremorLeft, TestPosturalTremorRight
  ]

  const AllTests: seq<TestKind> := [
    VoiceTest, BalanceTest, GaitTest,
    TapTest(None), TapTest(Some("left")), TapTest(Some("right")),
    ReactionTest,
    RestTremorTest(None), RestTremorTest(Some("left")), RestTremorTest(Some("right")),
    PosturalTremorTest(None), PosturalTremorTest(Some("left")), PosturalTremorTest(Some("right"))
  ]

  /** Defaults every test configuration starts from. */
  const DefaultPreTestPauseDur: int := 2
  const DefaultPostTestPauseDur: int := 0
  const DefaultTestCaptureDur: int := 20

  /** The two tables are parallel: one name per test. */
  lemma TablesParallel()
    ensures |AllTestNames| == |AllTests| == NumberOfAllTests
  {
  }

  /** The tests among the first `n` of the table whose preference is set, in table order. */
  function EnabledUpTo(pref: TestName -> bool, n: nat): seq<TestKind>
    requires n <= NumberOfAllTests
  {
    if n == 0 then []
    else EnabledUpTo(pref, n - 1) + (if pref(AllTestNames[n - 1]) then [AllTests[n - 1]] else [])
  }

  /** The table positions EnabledUpTo selects. */
  function EnabledIndices(pref: TestName -> bool, n: nat): seq<nat>
    requires n <= NumberOfAllTests
  {
    if n == 0 then []
    else EnabledIndices(pref, n - 1) + (if pref(AllTestNames[n - 1]) then [n - 1] else [])
  }

  /** The enabled list is an order-preserving selection from the table: the
      j-th enabled test is the table entry at the j-th selected position,
      positions increase, and a position is selected iff its test's
      preference is set. */
  lemma {:induction false} EnabledSelection(pref: TestName -> bool, n: nat)
    requires n <= NumberOfAllTests
    ensures |EnabledUpTo(pref, n)| == |EnabledIndices(pref, n)| <= n
    ensures forall j :: 0 <= j < |EnabledIndices(pref, n)| ==>
      EnabledIndices(pref, n)[j] < n && EnabledUpTo(pref, n)[j] == AllTests[EnabledIndices(pref, n)[j]]
    ensures forall j, k :: 0 <= j < k < |EnabledIndices(pref, n)| ==>
      EnabledIndices(pref, n)[j] < EnabledIndices(pref, n)[k]
    ensures forall i :: 0 <= i < n ==> (i in EnabledIndices(pref, n) <==> pref(AllTestNames[i]))
  {
    if n > 0 {
      EnabledSelection(pref, n - 1);
      var prev, prevIdx := EnabledUpTo(pref, n - 1), EnabledIndices(pref, n - 1);
      var on := pref(AllTestNames[n - 1]);
      assert EnabledUpTo(pref, n) == prev + (if on then [AllTests[n - 1]] else []);
      assert EnabledIndices(pref, n) == prevIdx + (if on then [n - 1] else []);
      assert n - 1 !in prevIdx;
      forall i | 0 <= i < n
        ensures i in EnabledIndices(pref, n) <==> pref(AllTestNames[i])
      {
        if i < n - 1 {
          assert i in EnabledIndices(pref, n) <==> i in prevIdx;
        }
      }
    }
  }

  /** With every preference set, the enabled list is the whole table, in order. */
  lemma {:induction false} AllEnabledIsTable(pref: TestName -> bool, n: nat)
    requires n <= NumberOfAllTests
    requires forall t :: pref(t)
    ensures EnabledUpTo(pref, n) == AllTests[..n]
  {
    if n > 0 {
      AllEnabledIsTable(pref, n - 1);
      assert AllTests[..n] == AllTests[..n - 1] + [AllTests[n - 1]];
    }
  }

  /** With no preference set, no test is enabled. */
  lemma {:induction false} NoneEnabledIsEmpty(pref: TestName -> bool, n: nat)
    requires n <= NumberOfAllTests
    requires forall t :: !pref(t)
    ensures EnabledUpTo(pref, n) == []
  {
    if n > 0 {
      NoneEnabledIsEmpty(pref, n - 1);
    }
  }

  /** The class-wide (static) state of the test configurations: the cached
      enabled list (None until first computed) and the gyroscope switch. */
  class TestConfigStatics {
    var enabledTests: Option<seq<TestKind>>
    var gyroOn: bool

    /** A cached list is always one the preferences could have produced. */
    ghost predicate Valid()
      reads this
    {
      enabledTests.Some? ==> exists p: TestName -> bool :: enabledTests.value == EnabledUpTo(p, NumberOfAllTests)
    }

    constructor ()
      ensures Valid()
      ensures enabledTests == None && !gyroOn
    {
      enabledTests := None;
      gyroOn := false;
    }

    /** The enabled list as the next call would see it. */
    ghost function Enabled(pref: TestName -> bool): seq<TestKind>
      reads this
    {
      if enabledTests.Some? then enabledTests.value else EnabledUpTo(pref, NumberOfAllTests)
    }

    /** The gyroscope switch as the next call would leave it. */
    ghost function GyroAfter(pref: TestName -> bool): bool
      reads this
    {
      if enabledTests.Some? then gyroOn else pref(TestGait)
    }

    /** A valid cache, like a freshly computed list, holds at most one entry per table row. */
    lemma EnabledBounded(pref: TestName -> bool)
      requires Valid()
      ensures |Enabled(pref)| <= NumberOfAllTests
    {
      if enabledTests.Some? {
        var p: TestName -> bool :| enabledTests.value == EnabledUpTo(p, NumberOfAllTests);
        EnabledSelection(p, NumberOfAllTests);
      } else {
        EnabledSelection(pref, NumberOfAllTests);
      }
    }

    /** The enabled tests under preferences `pref`. Only the first call reads
        the preferences: it builds the list and sets the gyroscope switch from
        the gait test's preference; later calls return the cached list. */
    method GetEnabledTests(pref: TestName -> bool) returns (tests: seq<TestKind>)
      requires Valid()
      modifies this
      ensures Valid()
      ensures enabledTests == Some(tests)
      ensures old(enabledTests).None? ==> tests == EnabledUpTo(pref, NumberOfAllTests) && gyroOn == pref(TestGait)
      ensures old(enabledTests).Some? ==> tests == old(enabledTests).value && gyroOn == old(gyroOn)
    {
      if enabledTests.None? {
        var list: seq<TestKind> := [];
        var i := 0;
        while i < |AllTestNames|
          invariant 0 <= i <= NumberOfAllTests
          invariant list == EnabledUpTo(pref, i)
        {
          var test := AllTestNames[i];
          if pref(test) {
            list := list + [AllTests[i]];
          }
          i := i + 1;
        }
        enabledTests := Some(list);
        gyroOn := pref(TestGait);
      }
      tests := enabledTests.value;
    }

    /** The number of enabled tests, never more than the size of the table;
        like every lookup, it computes and caches the list on first use. */
    method GetNumberOfTests(pref: TestName -> bool) returns (count: nat)
      requires Valid()
      modifies this
      ensures Valid()
      ensures enabledTests == Some(old(Enabled(pref))) && gyroOn == old(GyroAfter(pref))
      ensures count == |enabledTests.value| && count <= NumberOfAllTests
    {
      EnabledBounded(pref);
      var tests := GetEnabledTests(pref);
      count := |tests|;
    }

    /** The `testNumber`-th enabled test; None where the list lookup throws
        because the number is out of range. */
    method GetTestConfig(pref: TestName -> bool, testNumber: int) returns (test: Option<TestKind>)
      requires Valid()
      modifies this
      ensures Valid()
      ensures enabledTests == Some(old(Enabled(pref))) && gyroOn == old(GyroAfter(pref))
      ensures test.Some? <==> 0 <= testNumber < |old(Enabled(pref))|
      ensures test.Some? ==> test.value == old(Enabled(pref))[testNumber]
    {
      var tests := GetEnabledTests(pref);
      if 0 <= testNumber < |tests| {
        test := Some(tests[testNumber]);
      } else {
        test := None;
      }
    }
  }
}
